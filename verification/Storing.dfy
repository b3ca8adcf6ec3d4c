/** What is stored for nested input, parameter by parameter, and what an update therefore leaves to be fetched. */
module Storing {
  import opened Model
  import opened Forests
  import opened Tables
  import opened Codec
  import opened Catalog
  import opened Actions
  import opened Fetching
  import opened RoundTrips
  import opened Resaving

  predicate NamesLocation(s: string) {
    exists l :: LocationName(l) == s
  }

  predicate NamesType(s: string) {
    exists t :: TypeName(t) == s
  }

  /** The location that a string names; body when there is no string or it names none. */
  predicate LocationFrom(given: Given, l: Location) {
    if given.Text? && NamesLocation(given.text) then LocationName(l) == given.text else l == Body
  }

  /** The type that is named; string when none is. */
  predicate TypeFrom(s: string, t: ParamType) {
    if NamesType(s) then TypeName(t) == s else t == StringType
  }

  /** The element type that is named; none when it is left out, empty or unknown. */
  predicate ElementFrom(s: Option<string>, t: Option<ParamType>) {
    if s.Some? && NamesType(s.value) then t.Some? && TypeName(t.value) == s.value else t.None?
  }

  /** Under request parameters the location in force decides, under response parameters the own status code, by default
      200. */
  predicate KeyFrom(x: Input, inForce: Given, side: Side, k: Key) {
    match side
    case Request => k.At? && LocationFrom(inForce, k.location)
    case Response => k.On? && (match x.status case Some(n) => k.status == n case None => k.status == 200)
  }

  predicate StoredFrom(x: Input, inForce: Given, side: Side, p: Payload) {
    && p.name == x.name && p.required == x.required && p.description == x.description && p.example == x.example
    && (p.defaultValue == if side == Request then x.defaultValue else None)
    && TypeFrom(x.kind, p.kind) && ElementFrom(x.itemKind, p.itemKind) && KeyFrom(x, inForce, side, p.key)
  }

  /** `g` is what is stored for `f` where `inherited` is handed down: the location in force is the one handed down when
      that is a non-empty string, otherwise the own one, otherwise body; children are kept below objects and arrays of
      objects. */
  predicate StoredForest(f: Forest<Input>, inherited: Given, side: Side, g: Forest<Payload>) {
    match f
    case Empty => g == Empty
    case Tree(x, kids, rest) =>
      var inForce := match inherited
        case Text(s) => if s != "" then inherited else OwnLocation(x)
        case _ => OwnLocation(x);
      && g.Tree? && StoredFrom(x, inForce, side, g.root)
      && (if g.root.kind == ObjectType || (g.root.kind == ArrayType && g.root.itemKind == Some(ObjectType))
          then StoredForest(kids, inForce, side, g.kids) else g.kids == Empty)
      && StoredForest(rest, inherited, side, g.rest)
  }

  function OwnLocation(x: Input): Given {
    match x.location
    case Missing => Text("body")
    case _ => x.location
  }

  lemma LocationNamesDiffer(l: Location, k: Location)
    ensures LocationName(l) == LocationName(k) ==> l == k
  {
  }

  lemma TypeNamesDiffer(t: ParamType, u: ParamType)
    ensures TypeName(t) == TypeName(u) ==> t == u
    ensures TypeName(t) != ""
  {
  }

  lemma StoredPayload(x: Input, inherited: Given, side: Side)
    ensures StoredFrom(x, HandedDown(x, inherited), side, Stored(x, inherited, side))
  {
    if x.itemKind == Some("") && NamesType("") {
      var t :| TypeName(t) == "";
      TypeNamesDiffer(t, t);
    }
  }

  lemma StoredPayloadIsUnique(x: Input, inForce: Given, side: Side, p: Payload, q: Payload)
    requires StoredFrom(x, inForce, side, p) && StoredFrom(x, inForce, side, q)
    ensures p == q
  {
    TypeNamesDiffer(p.kind, q.kind);
    if p.itemKind.Some? && q.itemKind.Some? {
      TypeNamesDiffer(p.itemKind.value, q.itemKind.value);
    }
    if side == Request {
      LocationNamesDiffer(p.key.location, q.key.location);
    }
  }

  lemma {:induction false} NormalIsStored(f: Forest<Input>, inherited: Given, side: Side)
    ensures StoredForest(f, inherited, side, Normal(f, inherited, side))
  {
    match f
    case Empty =>
    case Tree(x, kids, rest) =>
      StoredPayload(x, inherited, side);
      NormalIsStored(kids, HandedDown(x, inherited), side);
      NormalIsStored(rest, inherited, side);
  }

  /** The stored forest is the normal form and no other. */
  lemma {:induction false} StoredForestIff(f: Forest<Input>, inherited: Given, side: Side, g: Forest<Payload>)
    ensures StoredForest(f, inherited, side, g) <==> g == Normal(f, inherited, side)
  {
    NormalIsStored(f, inherited, side);
    if StoredForest(f, inherited, side, g) && f.Tree? {
      var inForce := HandedDown(f.root, inherited);
      StoredPayload(f.root, inherited, side);
      StoredPayloadIsUnique(f.root, inForce, side, g.root, Stored(f.root, inherited, side));
      StoredForestIff(f.kids, inForce, side, g.kids);
      StoredForestIff(f.rest, inherited, side, g.rest);
    }
  }

  /** After a successful update, a fetch in key order gives, for each location or status code, the trees of that key of
      a forest that is stored for the input. */
  lemma UpdateStores(db: Db, a: Action, db': Db, side: Side, rows: seq<Rec>, k: Key, f: Forest<Rec>)
    returns (g: Forest<Payload>)
    requires DbOk(db) && a.Updating? && Step(db, a, Done, db')
    requires Lists(rows, TableOf(db'.draft, side), a.draft) && Ascending(rows)
    requires Represents(rows, RootIds(rows, k), f)
    ensures StoredForest(if side == Request then a.req else a.resp, Missing, side, g) && Payloads(f) == Group(g, k)
  {
    var params := InputsOf(a, side);
    g := Normal(params, Missing, side);
    NormalIsStored(params, Missing, side);
    assert TableOf(db'.draft, side) == Rewritten(TableOf(db.draft, side), a.draft, params, side);
    UpdateThenFetch(TableOf(db.draft, side), db.draft.apis.Keys, a.draft, params, side, rows, k, f);
  }
}
