/** Nested parameter input as the API receives it, and the payload forest that is stored for it. */
module Codec {
  import opened Model
  import opened Forests
  import opened Tables

  /** A JSON member that is absent, null or a string. */
  datatype Given = Missing | Null | Text(text: string)

  /** One element of `req_params` or `resp_params`, without its `children`. */
  datatype Input = Input(
    name: string,
    location: Given,
    kind: string,
    required: bool,
    defaultValue: Option<string>,
    description: Option<string>,
    example: Option<string>,
    itemKind: Option<string>,
    status: Option<int>)

  predicate Truthy(g: Given) {
    g.Text? && g.text != ""
  }

  /** The location string a parameter hands down: its parent's when that is truthy, otherwise its own, by default
      "body". */
  function HandedDown(x: Input, inherited: Given): Given {
    if Truthy(inherited) then inherited
    else if x.location.Missing? then Text("body")
    else x.location
  }

  /** A location that is null or unknown is stored as body. */
  function StoredLocation(g: Given): Location {
    if g.Text? && ParseLocation(g.text).Some? then ParseLocation(g.text).value else Body
  }

  /** An absent, empty or unknown element type is stored as null. */
  function StoredItemKind(k: Option<string>): Option<ParamType> {
    if k.Some? && k.value != "" then ParseType(k.value) else None
  }

  function Stored(x: Input, inherited: Given, side: Side): Payload {
    Payload(
      match side
      case Request => At(StoredLocation(HandedDown(x, inherited)))
      case Response => On(if x.status.Some? then x.status.value else 200),
      x.name,
      if ParseType(x.kind).Some? then ParseType(x.kind).value else StringType,
      x.required,
      if side == Request then x.defaultValue else None,
      x.description,
      x.example,
      StoredItemKind(x.itemKind))
  }

  /** The forest stored for an input forest: enumerations parsed, children kept only below expandable parameters. */
  function Normal(f: Forest<Input>, inherited: Given, side: Side): Forest<Payload> {
    match f
    case Empty => Empty
    case Tree(x, kids, rest) =>
      var p := Stored(x, inherited, side);
      Tree(p,
           if p.Expandable() then Normal(kids, HandedDown(x, inherited), side) else Empty,
           Normal(rest, inherited, side))
  }

  lemma {:induction false} NormalIsPruned(f: Forest<Input>, inherited: Given, side: Side)
    ensures Pruned(Normal(f, inherited, side))
  {
    match f
    case Empty =>
    case Tree(x, kids, rest) =>
      NormalIsPruned(kids, HandedDown(x, inherited), side);
      NormalIsPruned(rest, inherited, side);
  }

  /** Every payload of the forest has the given key. */
  predicate Uniform(g: Forest<Payload>, k: Key) {
    match g
    case Empty => true
    case Tree(p, kids, rest) => p.key == k && Uniform(kids, k) && Uniform(rest, k)
  }

  lemma {:induction false} TruthyLocationIsInherited(f: Forest<Input>, inherited: Given)
    requires Truthy(inherited)
    ensures Uniform(Normal(f, inherited, Request), At(StoredLocation(inherited)))
  {
    match f
    case Empty =>
    case Tree(x, kids, rest) =>
      TruthyLocationIsInherited(kids, inherited);
      TruthyLocationIsInherited(rest, inherited);
  }

  lemma StrayChild(handed: Given) returns (kids: Forest<Input>)
    requires !Truthy(handed)
    ensures !Uniform(Normal(kids, handed, Request), At(StoredLocation(handed)))
  {
    var stray := Input("child", Text("query"), "string", false, None, None, None, None, None);
    kids := Tree(stray, Empty, Empty);
    assert ParseLocation("query") == Some(Query);
    assert Normal(kids, handed, Request).root.key == At(Query);
  }

  /** Children are stored under the location handed down, whatever they say themselves, exactly when it is a non-empty
      string. */
  lemma InheritsLocationIff(handed: Given)
    ensures (forall kids :: Uniform(Normal(kids, handed, Request), At(StoredLocation(handed)))) <==> Truthy(handed)
  {
    if Truthy(handed) {
      forall kids ensures Uniform(Normal(kids, handed, Request), At(StoredLocation(handed))) {
        TruthyLocationIsInherited(kids, handed);
      }
    } else {
      var kids := StrayChild(handed);
      assert !Uniform(Normal(kids, handed, Request), At(StoredLocation(handed)));
    }
  }

  // ---- status codes ----

  function StatusOf(x: Input): int {
    if x.status.Some? then x.status.value else 200
  }

  /** Every stored descendant names the status code itself, or leaves it out where it is 200. */
  predicate SameStatus(f: Forest<Input>, status: int) {
    match f
    case Empty => true
    case Tree(x, kids, rest) =>
      && StatusOf(x) == status
      && (Stored(x, Missing, Response).Expandable() ==> SameStatus(kids, status))
      && SameStatus(rest, status)
  }

  /** Status codes are not inherited: descendants share one exactly when each of them names it. */
  lemma {:induction false} SharesStatusIff(f: Forest<Input>, inherited: Given, status: int)
    ensures Uniform(Normal(f, inherited, Response), On(status)) <==> SameStatus(f, status)
  {
    match f
    case Empty =>
    case Tree(x, kids, rest) =>
      SharesStatusIff(kids, HandedDown(x, inherited), status);
      SharesStatusIff(rest, inherited, status);
  }

  /** A child without a status code is stored under 200, whatever its parent's is. */
  lemma ChildStatusIsDefault(x: Input, child: Input, inherited: Given)
    requires Stored(x, inherited, Response).Expandable() && child.status.None?
    ensures var g := Normal(Tree(x, Tree(child, Empty, Empty), Empty), inherited, Response);
      && g.root.key == On(StatusOf(x)) && g.kids.Tree? && g.kids.root.key == On(200)
      && (Uniform(g, g.root.key) <==> StatusOf(x) == 200)
  {
    var kids := Tree(child, Empty, Empty);
    SharesStatusIff(kids, HandedDown(x, inherited), StatusOf(x));
  }

  // ---- one key for each tree ----

  /** Each root has a non-empty location, or all of its tree one status code. */
  predicate OneKeyTrees(f: Forest<Input>, side: Side) {
    match f
    case Empty => true
    case Tree(x, kids, rest) =>
      && (match side
          case Request => Truthy(HandedDown(x, Missing))
          case Response => Stored(x, Missing, Response).Expandable() ==> SameStatus(kids, StatusOf(x)))
      && OneKeyTrees(rest, side)
  }
}
