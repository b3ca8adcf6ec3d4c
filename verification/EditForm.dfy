/** The edit form: fetched trees are turned back into API input and saved. */
module EditForm {
  import opened Model
  import opened Forests
  import opened Tables
  import opened Codec
  import opened Actions
  import opened Fetching
  import opened RoundTrips

  /** The items of one location or one status code, as the form holds them. */
  datatype Entry = Entry(key: Key, items: Forest<Payload>)

  function SideOf(k: Key): Side {
    if k.At? then Request else Response
  }

  /** `value || null` on strings. */
  function OrNull(s: Option<string>): Option<string> {
    if s == Some("") then None else s
  }

  function InputOf(p: Payload, k: Key): Input {
    Input(
      p.name,
      if k.At? then Text(LocationName(k.location)) else Missing,
      TypeName(p.kind),
      p.required,
      if k.At? then OrNull(p.defaultValue) else None,
      p.description,
      p.example,
      if p.itemKind.Some? then Some(TypeName(p.itemKind.value)) else None,
      if k.At? then None else Some(k.status))
  }

  /** Every item, at every depth, is sent with the location or status code of its group. */
  function ProcessItems(f: Forest<Payload>, k: Key): Forest<Input> {
    match f
    case Empty => Empty
    case Tree(p, kids, rest) => Tree(InputOf(p, k), ProcessItems(kids, k), ProcessItems(rest, k))
  }

  function AllInputs(entries: seq<Entry>): Forest<Input> {
    if entries == [] then Empty
    else Append(ProcessItems(entries[0].items, entries[0].key), AllInputs(entries[1..]))
  }

  lemma {:induction false} AllInputsExtend(entries: seq<Entry>, e: Entry)
    ensures AllInputs(entries + [e]) == Append(AllInputs(entries), ProcessItems(e.items, e.key))
  {
    if entries == [] {
      assert entries + [e] == [e] && [e][1..] == [];
      AppendEmpty(ProcessItems(e.items, e.key));
    } else {
      assert (entries + [e])[1..] == entries[1..] + [e];
      AllInputsExtend(entries[1..], e);
      AppendAssociative(ProcessItems(entries[0].items, entries[0].key), AllInputs(entries[1..]),
        ProcessItems(e.items, e.key));
    }
  }

  lemma {:induction false} AppendEmpty<A>(f: Forest<A>)
    ensures Append(f, Empty) == f
  {
    match f
    case Empty =>
    case Tree(_, _, rest) => AppendEmpty(rest);
  }

  /** Collect the input of every group, in the order the groups are listed. */
  method TransformParams(entries: seq<Entry>) returns (params: Forest<Input>)
    ensures params == AllInputs(entries)
  {
    params := Empty;
    for n := 0 to |entries|
      invariant params == AllInputs(entries[..n])
    {
      AllInputsExtend(entries[..n], entries[n]);
      assert entries[..n + 1] == entries[..n] + [entries[n]];
      params := Append(params, ProcessItems(entries[n].items, entries[n].key));
    }
    assert entries[..|entries|] == entries;
  }

  // ---- what saving makes of a forest ----

  function Saved(p: Payload, k: Key): Payload {
    p.(key := k, defaultValue := if k.At? then OrNull(p.defaultValue) else None)
  }

  /** The forest as it is stored by saving the items of group `k`. */
  function Resaved(f: Forest<Payload>, k: Key): Forest<Payload> {
    match f
    case Empty => Empty
    case Tree(p, kids, rest) =>
      Tree(Saved(p, k), if p.Expandable() then Resaved(kids, k) else Empty, Resaved(rest, k))
  }

  lemma TypeNamesParse(t: ParamType)
    ensures ParseType(TypeName(t)) == Some(t) && TypeName(t) != ""
  {
  }

  lemma LocationNamesParse(l: Location)
    ensures ParseLocation(LocationName(l)) == Some(l) && LocationName(l) != ""
  {
  }

  lemma InputIsStored(p: Payload, k: Key, inherited: Given)
    requires k.At? ==> inherited == Missing || inherited == Text(LocationName(k.location))
    ensures Stored(InputOf(p, k), inherited, SideOf(k)) == Saved(p, k)
    ensures k.At? ==> HandedDown(InputOf(p, k), inherited) == Text(LocationName(k.location))
  {
    TypeNamesParse(p.kind);
    if p.itemKind.Some? {
      TypeNamesParse(p.itemKind.value);
    }
    if k.At? {
      LocationNamesParse(k.location);
    }
  }

  /** Storing the transformed items gives the forest back, with its key and null defaults tidied. */
  lemma {:induction false} TransformedIsStored(f: Forest<Payload>, k: Key, inherited: Given)
    requires k.At? ==> inherited == Missing || inherited == Text(LocationName(k.location))
    ensures Normal(ProcessItems(f, k), inherited, SideOf(k)) == Resaved(f, k)
    decreases f
  {
    match f
    case Empty =>
    case Tree(p, kids, rest) =>
      InputIsStored(p, k, inherited);
      TransformedIsStored(kids, k, HandedDown(InputOf(p, k), inherited));
      TransformedIsStored(rest, k, inherited);
  }

  lemma {:induction false} NormalAppends(f: Forest<Input>, g: Forest<Input>, inherited: Given, side: Side)
    ensures Normal(Append(f, g), inherited, side) == Append(Normal(f, inherited, side), Normal(g, inherited, side))
  {
    match f
    case Empty =>
    case Tree(_, _, rest) => NormalAppends(rest, g, inherited, side);
  }

  lemma {:induction false} GroupAppends(f: Forest<Payload>, g: Forest<Payload>, k: Key)
    ensures Group(Append(f, g), k) == Append(Group(f, k), Group(g, k))
  {
    match f
    case Empty =>
    case Tree(_, _, rest) => GroupAppends(rest, g, k);
  }

  lemma {:induction false} GroupResaved(f: Forest<Payload>, j: Key, k: Key)
    ensures Group(Resaved(f, j), k) == if j == k then Resaved(f, k) else Empty
  {
    match f
    case Empty =>
    case Tree(_, _, rest) => GroupResaved(rest, j, k);
  }

  ghost predicate DistinctKeys(entries: seq<Entry>, side: Side) {
    && (forall i | 0 <= i < |entries| :: SideOf(entries[i].key) == side)
    && (forall i, j | 0 <= i < j < |entries| :: entries[i].key != entries[j].key)
  }

  /** The items that the form holds for `k`. */
  function ItemsFor(entries: seq<Entry>, k: Key): Forest<Payload> {
    if entries == [] then Empty
    else if entries[0].key == k then entries[0].items
    else ItemsFor(entries[1..], k)
  }

  lemma {:induction false} AbsentGroup(entries: seq<Entry>, side: Side, k: Key)
    requires DistinctKeys(entries, side) && forall i | 0 <= i < |entries| :: entries[i].key != k
    ensures Group(Normal(AllInputs(entries), Missing, side), k) == Empty
  {
    if entries != [] {
      var e := entries[0];
      NormalAppends(ProcessItems(e.items, e.key), AllInputs(entries[1..]), Missing, side);
      TransformedIsStored(e.items, e.key, Missing);
      GroupAppends(Resaved(e.items, e.key), Normal(AllInputs(entries[1..]), Missing, side), k);
      GroupResaved(e.items, e.key, k);
      AbsentGroup(entries[1..], side, k);
    }
  }

  lemma {:induction false} SavedGroups(entries: seq<Entry>, side: Side, k: Key)
    requires DistinctKeys(entries, side)
    ensures Group(Normal(AllInputs(entries), Missing, side), k) == Resaved(ItemsFor(entries, k), k)
  {
    if entries != [] {
      var e := entries[0];
      NormalAppends(ProcessItems(e.items, e.key), AllInputs(entries[1..]), Missing, side);
      TransformedIsStored(e.items, e.key, Missing);
      GroupAppends(Resaved(e.items, e.key), Normal(AllInputs(entries[1..]), Missing, side), k);
      GroupResaved(e.items, e.key, k);
      if e.key == k {
        AbsentGroup(entries[1..], side, k);
        AppendEmpty(Resaved(e.items, k));
      } else {
        SavedGroups(entries[1..], side, k);
      }
    }
  }

  /** Save, then fetch: every group comes back as its items, resaved. */
  lemma SaveThenFetch(t: Table, owners: set<Id>, draft: Id, entries: seq<Entry>, side: Side, rows: seq<Rec>, k: Key,
                      f: Forest<Rec>)
    requires TableOk(t, owners) && DistinctKeys(entries, side)
    requires Lists(rows, Rewritten(t, draft, AllInputs(entries), side), draft) && Ascending(rows)
    requires Represents(rows, RootIds(rows, k), f)
    ensures Payloads(f) == Resaved(ItemsFor(entries, k), k)
  {
    UpdateThenFetch(t, owners, draft, AllInputs(entries), side, rows, k, f);
    SavedGroups(entries, side, k);
  }

  // ---- fixpoints ----

  /** A forest that saving does not change: one key throughout, no empty default, children only below expandable
      items. */
  predicate Tidy(f: Forest<Payload>, k: Key) {
    match f
    case Empty => true
    case Tree(p, kids, rest) =>
      && p.key == k
      && (if k.At? then p.defaultValue != Some("") else p.defaultValue == None)
      && (kids.Tree? ==> p.Expandable())
      && Tidy(kids, k) && Tidy(rest, k)
  }

  /** Saving an unedited group is a fixpoint exactly when the group is tidy. */
  lemma {:induction false} SavingIsFixpointIff(f: Forest<Payload>, k: Key)
    ensures Resaved(f, k) == f <==> Tidy(f, k)
  {
    match f
    case Empty =>
    case Tree(p, kids, rest) =>
      SavingIsFixpointIff(kids, k);
      SavingIsFixpointIff(rest, k);
  }

  /** The forest with empty default values turned into null. */
  function NullDefaults(f: Forest<Payload>): Forest<Payload> {
    match f
    case Empty => Empty
    case Tree(p, kids, rest) => Tree(p.(defaultValue := OrNull(p.defaultValue)), NullDefaults(kids), NullDefaults(rest))
  }

  /** Whatever was saved is tidy, so a second save changes nothing. */
  lemma {:induction false} SavedIsTidy(f: Forest<Payload>, k: Key)
    ensures Tidy(Resaved(f, k), k)
  {
    match f
    case Empty =>
    case Tree(p, kids, rest) =>
      SavedIsTidy(kids, k);
      SavedIsTidy(rest, k);
  }
}
