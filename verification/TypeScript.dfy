/** TypeScript interfaces from parameter forests. */
module TypeScript {
  import opened Model
  import opened Forests
  import opened Decimals
  import opened Sequences

  datatype TsType = TsNumber | TsString | TsBoolean | TsAny | ArrayOf(element: TsType) | Named(name: string)

  datatype Field = Field(name: string, optional: bool, comment: Option<string>, kind: TsType)

  datatype Interface = Interface(name: string, fields: seq<Field>)

  function TsTypeMap(t: string, itemType: Option<string>): TsType
    decreases itemType.Some?
  {
    if t in ["int", "float", "double", "long"] then TsNumber
    else if t in ["string", "text"] then TsString
    else if t in ["boolean", "bool"] then TsBoolean
    else if t in ["array", "list"] then
      if itemType.Some? && itemType.value != "" then ArrayOf(TsTypeMap(itemType.value, None)) else ArrayOf(TsAny)
    else TsAny
  }

  function PlainType(p: Payload): TsType {
    TsTypeMap(TypeName(p.kind), if p.itemKind.Some? then Some(TypeName(p.itemKind.value)) else None)
  }

  function Upper(c: char): char {
    if 'a' <= c <= 'z' then c - 'a' + 'A' else c
  }

  /** capitalizeFirstLetter */
  function Cap(s: string): string {
    if s == "" then "" else [Upper(s[0])] + s[1..]
  }

  /** A parameter gets an interface of its own when it is expandable and has children. */
  predicate Expanded(p: Payload, kids: Forest<Payload>) {
    kids.Tree? && p.Expandable()
  }

  function ChildName(parent: string, p: Payload): string {
    parent + Cap(p.name) + (if p.kind == ArrayType then "Item" else "")
  }

  function FieldOf(parent: string, p: Payload, kids: Forest<Payload>): Field {
    Field(p.name, !p.required, if p.description == Some("") then None else p.description,
          if !Expanded(p, kids) then PlainType(p)
          else if p.kind == ArrayType then ArrayOf(Named(ChildName(parent, p)))
          else Named(ChildName(parent, p)))
  }

  function FieldsOf(parent: string, params: Forest<Payload>): seq<Field> {
    match params
    case Empty => []
    case Tree(p, kids, rest) => [FieldOf(parent, p, kids)] + FieldsOf(parent, rest)
  }

  /** The interfaces of all expanded parameters of a list, each after the interfaces it uses. */
  function Nested(parent: string, params: Forest<Payload>): seq<Interface>
    decreases params, 0
  {
    match params
    case Empty => []
    case Tree(p, kids, rest) =>
      (if Expanded(p, kids) then Interfaces(ChildName(parent, p), kids) else []) + Nested(parent, rest)
  }

  function Interfaces(name: string, params: Forest<Payload>): seq<Interface>
    decreases params, 1
  {
    Nested(Cap(name), params) + [Interface(Cap(name), FieldsOf(Cap(name), params))]
  }

  /** One turn of the loop over parameters: the interfaces for its children, and its field. */
  method GenerateField(interfaceName: string, p: Payload, kids: Forest<Payload>)
    returns (children: seq<Interface>, field: Field)
    ensures children == if Expanded(p, kids) then Interfaces(ChildName(interfaceName, p), kids) else []
    ensures field == FieldOf(interfaceName, p, kids)
    decreases kids, 1
  {
    children := [];
    var kind := PlainType(p);
    var childName := interfaceName + Cap(p.name);
    if p.kind == ObjectType && kids.Tree? {
      assert childName == ChildName(interfaceName, p);
      children := GenerateInterface(childName, kids);
      kind := Named(childName);
    } else if p.kind == ArrayType && p.itemKind == Some(ObjectType) && kids.Tree? {
      childName := childName + "Item";
      children := GenerateInterface(childName, kids);
      kind := ArrayOf(Named(childName));
    }
    field := Field(p.name, !p.required, if p.description == Some("") then None else p.description, kind);
  }

  method GenerateInterface(name: string, params: Forest<Payload>) returns (interfaces: seq<Interface>)
    ensures interfaces == Interfaces(name, params)
    decreases params, 0
  {
    interfaces := [];
    var fields: seq<Field> := [];
    var interfaceName := Cap(name);
    var todo := params;
    while todo.Tree?
      invariant todo == params || todo < params
      invariant interfaces + Nested(interfaceName, todo) == Nested(interfaceName, params)
      invariant fields + FieldsOf(interfaceName, todo) == FieldsOf(interfaceName, params)
      decreases todo
    {
      var children, field := GenerateField(interfaceName, todo.root, todo.kids);
      Regroup(interfaces, children, Nested(interfaceName, todo.rest));
      Regroup(fields, [field], FieldsOf(interfaceName, todo.rest));
      interfaces := interfaces + children;
      fields := fields + [field];
      todo := todo.rest;
    }
    assert fields + [] == fields && interfaces + [] == interfaces;
    interfaces := interfaces + [Interface(interfaceName, fields)];
  }

  // ---- names ----

  lemma CapIdempotent(s: string)
    ensures Cap(Cap(s)) == Cap(s)
  {
  }

  /** The name a field refers to is the name its interface is declared with. */
  lemma ChildNameCapped(name: string, p: Payload)
    ensures Cap(ChildName(Cap(name), p)) == ChildName(Cap(name), p)
  {
    var c := ChildName(Cap(name), p);
    if name != "" {
      assert c[0] == Upper(name[0]);
    } else if p.name != "" {
      assert c[0] == Upper(p.name[0]);
    }
  }

  // ---- closed references ----

  function RefOf(t: TsType): Option<string> {
    match t
    case Named(n) => Some(n)
    case ArrayOf(e) => RefOf(e)
    case _ => None
  }

  predicate Declares(list: seq<Interface>, name: string) {
    exists i :: 0 <= i < |list| && list[i].name == name
  }

  predicate FieldsClosed(fields: seq<Field>, list: seq<Interface>) {
    forall f | f in fields && RefOf(f.kind).Some? :: Declares(list, RefOf(f.kind).value)
  }

  /** Every interface name used in a field type is declared earlier in the list. */
  ghost predicate Closed(list: seq<Interface>) {
    forall i | 0 <= i < |list| :: FieldsClosed(list[i].fields, list[..i])
  }

  lemma DeclaresMore(a: seq<Interface>, b: seq<Interface>, name: string)
    requires Declares(a, name) || Declares(b, name)
    ensures Declares(a + b, name)
  {
    if Declares(a, name) {
      var i :| 0 <= i < |a| && a[i].name == name;
      assert (a + b)[i].name == name;
    } else {
      var i :| 0 <= i < |b| && b[i].name == name;
      assert (a + b)[|a| + i].name == name;
    }
  }

  lemma FieldsClosedMore(fields: seq<Field>, a: seq<Interface>, b: seq<Interface>)
    requires FieldsClosed(fields, a) || FieldsClosed(fields, b)
    ensures FieldsClosed(fields, a + b)
  {
    forall f | f in fields && RefOf(f.kind).Some? ensures Declares(a + b, RefOf(f.kind).value) {
      DeclaresMore(a, b, RefOf(f.kind).value);
    }
  }

  lemma ClosedAppends(a: seq<Interface>, b: seq<Interface>)
    requires Closed(a) && Closed(b)
    ensures Closed(a + b)
  {
    forall i | 0 <= i < |a + b| ensures FieldsClosed((a + b)[i].fields, (a + b)[..i]) {
      if i < |a| {
        assert (a + b)[..i] == a[..i];
      } else {
        assert (a + b)[..i] == a + b[..i - |a|];
        FieldsClosedMore(b[i - |a|].fields, a, b[..i - |a|]);
      }
    }
  }

  lemma PlainTypeHasNoRef(p: Payload)
    ensures RefOf(PlainType(p)).None?
  {
    var item := if p.itemKind.Some? then Some(TypeName(p.itemKind.value)) else None;
    if item.Some? {
      assert RefOf(TsTypeMap(item.value, None)).None?;
    }
  }

  lemma {:induction false} NestedClosed(name: string, params: Forest<Payload>)
    ensures Closed(Nested(Cap(name), params)) && FieldsClosed(FieldsOf(Cap(name), params), Nested(Cap(name), params))
    decreases params, 0
  {
    match params
    case Empty =>
    case Tree(p, kids, rest) =>
      var parent := Cap(name);
      NestedClosed(name, rest);
      PlainTypeHasNoRef(p);
      var first := if Expanded(p, kids) then Interfaces(ChildName(parent, p), kids) else [];
      if Expanded(p, kids) {
        InterfacesClosed(ChildName(parent, p), kids);
        ChildNameCapped(name, p);
        assert first[|first| - 1].name == ChildName(parent, p);
      }
      ClosedAppends(first, Nested(parent, rest));
      assert FieldsClosed([FieldOf(parent, p, kids)], first);
      FieldsClosedMore([FieldOf(parent, p, kids)], first, Nested(parent, rest));
      FieldsClosedMore(FieldsOf(parent, rest), first, Nested(parent, rest));
  }

  /** The generated list is closed. */
  lemma {:induction false} InterfacesClosed(name: string, params: Forest<Payload>)
    ensures Closed(Interfaces(name, params))
    decreases params, 1
  {
    NestedClosed(name, params);
    var nested, list := Nested(Cap(name), params), Interfaces(name, params);
    forall i | 0 <= i < |list| ensures FieldsClosed(list[i].fields, list[..i]) {
      if i < |nested| {
        assert list[..i] == nested[..i];
      } else {
        assert list[..i] == nested;
      }
    }
  }

  // ---- size ----

  function ExpandedCount(params: Forest<Payload>): nat {
    match params
    case Empty => 0
    case Tree(p, kids, rest) => (if Expanded(p, kids) then 1 + ExpandedCount(kids) else 0) + ExpandedCount(rest)
  }

  lemma {:induction false} NestedCount(parent: string, params: Forest<Payload>)
    ensures |Nested(parent, params)| == ExpandedCount(params)
    decreases params
  {
    match params
    case Empty =>
    case Tree(p, kids, rest) =>
      NestedCount(Cap(ChildName(parent, p)), kids);
      NestedCount(parent, rest);
  }

  /** One interface for the list itself and one for each expanded parameter; the last is the list's own. */
  lemma InterfacesCount(name: string, params: Forest<Payload>)
    ensures |Interfaces(name, params)| == 1 + ExpandedCount(params)
    ensures Interfaces(name, params)[ExpandedCount(params)].name == Cap(name)
  {
    NestedCount(Cap(name), params);
  }

  // ---- unfolding ----

  datatype SlotKind = Leaf(kind: TsType) | Single | Many

  datatype Slot = Slot(name: string, optional: bool, kind: SlotKind)

  /** The parameter tree with its optional flags: nested objects, arrays of objects, and plain types. */
  function ShapeOf(params: Forest<Payload>): Forest<Slot> {
    match params
    case Empty => Empty
    case Tree(p, kids, rest) =>
      if Expanded(p, kids) then
        Tree(Slot(p.name, !p.required, if p.kind == ArrayType then Many else Single), ShapeOf(kids), ShapeOf(rest))
      else Tree(Slot(p.name, !p.required, Leaf(PlainType(p))), Empty, ShapeOf(rest))
  }

  /** The last declaration of a name among the first `n`; `n` if there is none. */
  function Find(list: seq<Interface>, n: nat, name: string): (i: nat)
    requires n <= |list|
    ensures i <= n && (i < n ==> list[i].name == name)
    ensures i == n ==> forall j | 0 <= j < n :: list[j].name != name
    decreases n
  {
    if n == 0 then 0
    else if list[n - 1].name == name then n - 1
    else
      var i := Find(list, n - 1, name);
      if i == n - 1 then n else i
  }

  /** The fields read with every interface name replaced by the fields declared for it. */
  function Unfold(list: seq<Interface>, n: nat, fields: seq<Field>): Forest<Slot>
    requires n <= |list|
    decreases n, |fields|
  {
    if fields == [] then Empty
    else
      var f := fields[0];
      var rest := Unfold(list, n, fields[1..]);
      match f.kind
      case Named(m) =>
        var i := Find(list, n, m);
        if i == n then Tree(Slot(f.name, f.optional, Leaf(f.kind)), Empty, rest)
        else Tree(Slot(f.name, f.optional, Single), Unfold(list, i, list[i].fields), rest)
      case ArrayOf(Named(m)) =>
        var i := Find(list, n, m);
        if i == n then Tree(Slot(f.name, f.optional, Leaf(f.kind)), Empty, rest)
        else Tree(Slot(f.name, f.optional, Many), Unfold(list, i, list[i].fields), rest)
      case _ => Tree(Slot(f.name, f.optional, Leaf(f.kind)), Empty, rest)
  }

  predicate DistinctInterfaces(list: seq<Interface>) {
    forall i, j | 0 <= i < j < |list| :: list[i].name != list[j].name
  }

  lemma FindUnique(list: seq<Interface>, n: nat, i: nat, name: string)
    requires DistinctInterfaces(list) && i < n <= |list| && list[i].name == name
    ensures Find(list, n, name) == i
  {
    var j := Find(list, n, name);
    assert j < n;
  }

  lemma UnfoldPlain(list: seq<Interface>, n: nat, f: Field, rest: seq<Field>)
    requires n <= |list| && RefOf(f.kind).None?
    ensures Unfold(list, n, [f] + rest) == Tree(Slot(f.name, f.optional, Leaf(f.kind)), Empty, Unfold(list, n, rest))
  {
    assert ([f] + rest)[1..] == rest;
  }

  lemma UnfoldRef(list: seq<Interface>, n: nat, f: Field, rest: seq<Field>, name: string, i: nat)
    requires n <= |list| && i < n && Find(list, n, name) == i
    requires f.kind == Named(name) || f.kind == ArrayOf(Named(name))
    ensures Unfold(list, n, [f] + rest) ==
            Tree(Slot(f.name, f.optional, if f.kind.Named? then Single else Many),
                 Unfold(list, i, list[i].fields), Unfold(list, n, rest))
  {
    assert ([f] + rest)[1..] == rest;
  }

  lemma Segment(list: seq<Interface>, lo: nat, a: seq<Interface>, b: seq<Interface>)
    requires lo + |a| + |b| <= |list| && list[lo..lo + |a| + |b|] == a + b
    ensures list[lo..lo + |a|] == a && list[lo + |a|..lo + |a| + |b|] == b
  {
    assert list[lo..lo + |a|] == list[lo..lo + |a| + |b|][..|a|];
    assert list[lo + |a|..lo + |a| + |b|] == list[lo..lo + |a| + |b|][|a|..];
  }

  /** `seg` lies in the list at `lo`. */
  predicate Lies(list: seq<Interface>, lo: nat, seg: seq<Interface>) {
    lo + |seg| <= |list| && list[lo..lo + |seg|] == seg
  }

  lemma ChildCapped(parent: string, p: Payload)
    requires Cap(parent) == parent
    ensures Cap(ChildName(parent, p)) == ChildName(parent, p)
  {
    ChildNameCapped(parent, p);
  }

  lemma SegmentParts(list: seq<Interface>, lo: nat, inner: seq<Interface>, d: Interface, tail: seq<Interface>)
    requires Lies(list, lo, inner + [d] + tail)
    ensures Lies(list, lo, inner) && Lies(list, lo + |inner| + 1, tail)
    ensures lo + |inner| < |list| && list[lo + |inner|] == d
  {
    Segment(list, lo, inner + [d], tail);
    Segment(list, lo, inner, [d]);
    assert list[lo + |inner|..lo + |inner| + 1][0] == list[lo + |inner|];
  }

  lemma {:induction false} UnfoldNested(list: seq<Interface>, lo: nat, n: nat, parent: string, params: Forest<Payload>)
    requires DistinctInterfaces(list) && n <= |list| && Cap(parent) == parent
    requires Lies(list, lo, Nested(parent, params)) && lo + |Nested(parent, params)| <= n
    ensures Unfold(list, n, FieldsOf(parent, params)) == ShapeOf(params)
    decreases Size(params), 1
  {
    match params
    case Empty =>
    case Tree(p, kids, rest) =>
      var f := FieldOf(parent, p, kids);
      if Expanded(p, kids) {
        UnfoldExpanded(list, lo, n, parent, p, kids, rest);
      } else {
        assert Nested(parent, params) == Nested(parent, rest);
        UnfoldNested(list, lo, n, parent, rest);
        PlainTypeHasNoRef(p);
        UnfoldPlain(list, n, f, FieldsOf(parent, rest));
      }
  }

  lemma {:induction false} UnfoldExpanded(list: seq<Interface>, lo: nat, n: nat, parent: string, p: Payload,
                                          kids: Forest<Payload>, rest: Forest<Payload>)
    requires DistinctInterfaces(list) && n <= |list| && Cap(parent) == parent && Expanded(p, kids)
    requires var all := Interfaces(ChildName(parent, p), kids) + Nested(parent, rest);
      Lies(list, lo, all) && lo + |all| <= n
    ensures Unfold(list, n, [FieldOf(parent, p, kids)] + FieldsOf(parent, rest)) ==
            Tree(Slot(p.name, !p.required, if p.kind == ArrayType then Many else Single), ShapeOf(kids), ShapeOf(rest))
    decreases 1 + Size(kids) + Size(rest), 0
  {
    var child, f := ChildName(parent, p), FieldOf(parent, p, kids);
    var last := lo + |Nested(child, kids)|;
    ChildCapped(parent, p);
    SegmentParts(list, lo, Nested(child, kids), Interface(child, FieldsOf(child, kids)), Nested(parent, rest));
    FindUnique(list, n, last, child);
    UnfoldNested(list, lo, last, child, kids);
    UnfoldNested(list, last + 1, n, parent, rest);
    UnfoldRef(list, n, f, FieldsOf(parent, rest), child, last);
    var kidShape, restShape := Unfold(list, last, list[last].fields), Unfold(list, n, FieldsOf(parent, rest));
    assert kidShape == ShapeOf(kids) && restShape == ShapeOf(rest);
  }

  /** When the generated names are distinct, unfolding the last interface gives back the parameter tree. */
  lemma InterfacesUnfold(name: string, params: Forest<Payload>)
    requires DistinctInterfaces(Interfaces(name, params))
    ensures var list := Interfaces(name, params);
      Unfold(list, |list| - 1, list[|list| - 1].fields) == ShapeOf(params)
  {
    var list, nested := Interfaces(name, params), Nested(Cap(name), params);
    assert Lies(list, 0, nested);
    CapIdempotent(name);
    UnfoldNested(list, 0, |list| - 1, Cap(name), params);
  }

  // ---- groups of one API ----

  predicate Prefixes(a: string, b: string) {
    |a| <= |b| && b[..|a|] == a
  }

  lemma {:induction false} NestedExtend(name: string, params: Forest<Payload>)
    ensures forall d | d in Nested(Cap(name), params) :: Prefixes(Cap(name), d.name)
    decreases params
  {
    match params
    case Empty =>
    case Tree(p, kids, rest) =>
      var parent := Cap(name);
      NestedExtend(name, rest);
      if Expanded(p, kids) {
        var child := ChildName(parent, p);
        ChildNameCapped(name, p);
        NestedExtend(child, kids);
        forall d | d in Interfaces(child, kids) ensures Prefixes(parent, d.name) {
          assert Prefixes(child, d.name);
          assert child[..|parent|] == parent;
          assert d.name[..|parent|] == d.name[..|child|][..|parent|];
        }
      }
  }

  /** Every generated name extends the name of its group. */
  lemma InterfacesExtend(name: string, params: Forest<Payload>)
    ensures forall d | d in Interfaces(name, params) :: Prefixes(Cap(name), d.name)
  {
    NestedExtend(name, params);
  }

  function GroupSuffix(k: Key): string {
    match k
    case At(l) => Cap(LocationName(l)) + "Request"
    case On(status) => Text(status) + "Response"
  }

  function GroupName(apiName: string, k: Key): string {
    Cap(apiName) + GroupSuffix(k)
  }

  lemma CapLocations()
    ensures Cap("query") == "Query" && Cap("path") == "Path" && Cap("header") == "Header"
    ensures Cap("cookie") == "Cookie" && Cap("body") == "Body"
  {
    assert ['Q'] + "uery" == "Query" && ['P'] + "ath" == "Path" && ['H'] + "eader" == "Header";
    assert ['C'] + "ookie" == "Cookie" && ['B'] + "ody" == "Body";
    assert "query"[1..] == "uery" && "path"[1..] == "ath" && "header"[1..] == "eader";
    assert "cookie"[1..] == "ookie" && "body"[1..] == "ody";
  }

  /** The root names, for a location and for a status code. */
  lemma GroupNames(apiName: string, status: nat)
    ensures GroupName(apiName, At(Query)) == Cap(apiName) + ("Query" + "Request")
    ensures GroupName(apiName, At(Path)) == Cap(apiName) + ("Path" + "Request")
    ensures GroupName(apiName, At(Header)) == Cap(apiName) + ("Header" + "Request")
    ensures GroupName(apiName, At(Cookie)) == Cap(apiName) + ("Cookie" + "Request")
    ensures GroupName(apiName, At(Body)) == Cap(apiName) + ("Body" + "Request")
    ensures GroupName(apiName, On(status)) == Cap(apiName) + (Numeral(status) + "Response")
  {
    CapLocations();
  }

  lemma GroupNameCapped(apiName: string, k: Key)
    ensures Cap(GroupName(apiName, k)) == GroupName(apiName, k)
  {
    var s := GroupName(apiName, k);
    if apiName != "" {
      assert s[0] == Upper(apiName[0]);
    } else {
      match k
      case At(l) => assert s[0] == Cap(LocationName(l))[0];
      case On(status) => assert s[0] == Text(status)[0];
    }
  }

  function Initial(l: Location): char {
    match l
    case Query => 'Q'
    case Path => 'P'
    case Header => 'H'
    case Cookie => 'C'
    case Body => 'B'
  }

  lemma StatusSuffixes(m: int, n: int)
    requires Prefixes(Text(m) + "Response", Text(n) + "Response")
    ensures m == n
  {
    var a, b := Text(m), Text(n);
    assert (b + "Response")[|a|] == (b + "Response")[..|a + "Response"|][|a|] == (a + "Response")[|a|] == 'R';
    assert |a| == |b|;
    assert (a + "Response")[..|a|] == a && (b + "Response")[..|b|] == b;
    TextInjective(m, n);
  }

  /** The suffixes of different groups are not prefixes of each other. */
  lemma SuffixesIncomparable(j: Key, k: Key)
    requires Prefixes(GroupSuffix(j), GroupSuffix(k))
    ensures j == k
  {
    assert GroupSuffix(j)[0] == GroupSuffix(k)[0];
    FirstOfSuffix(j);
    FirstOfSuffix(k);
    if j.On? && k.On? {
      StatusSuffixes(j.status, k.status);
    }
  }

  lemma FirstOfSuffix(k: Key)
    ensures k.At? ==> GroupSuffix(k)[0] == Initial(k.location)
    ensures k.On? ==> IsDigit(GroupSuffix(k)[0]) || GroupSuffix(k)[0] == '-'
  {
    if k.On? {
      assert GroupSuffix(k)[0] == Text(k.status)[0] && Text(k.status)[0] in Text(k.status);
    }
  }

  lemma PrefixesCompare(a: string, b: string, s: string)
    requires Prefixes(a, s) && Prefixes(b, s) && |a| <= |b|
    ensures Prefixes(a, b)
  {
    assert s[..|b|][..|a|] == s[..|a|];
  }

  lemma PrefixesStrip(c: string, a: string, b: string)
    requires Prefixes(c + a, c + b)
    ensures Prefixes(a, b)
  {
    assert b[..|a|] == (c + b)[..|c + a|][|c|..] == (c + a)[|c|..] == a;
  }

  lemma GroupNamesCompare(apiName: string, j: Key, k: Key, s: string)
    requires Prefixes(GroupName(apiName, j), s) && Prefixes(GroupName(apiName, k), s)
    requires |GroupName(apiName, j)| <= |GroupName(apiName, k)|
    ensures j == k
  {
    PrefixesCompare(GroupName(apiName, j), GroupName(apiName, k), s);
    PrefixesStrip(Cap(apiName), GroupSuffix(j), GroupSuffix(k));
    SuffixesIncomparable(j, k);
  }

  /** Within one API, interfaces of different locations or status codes never share a name. */
  lemma GroupsNeverClash(apiName: string, j: Key, k: Key, f: Forest<Payload>, g: Forest<Payload>)
    requires j != k
    ensures forall d, e | d in Interfaces(GroupName(apiName, j), f)
      && e in Interfaces(GroupName(apiName, k), g) :: d.name != e.name
  {
    var a, b := GroupName(apiName, j), GroupName(apiName, k);
    GroupNameCapped(apiName, j);
    GroupNameCapped(apiName, k);
    InterfacesExtend(a, f);
    InterfacesExtend(b, g);
    forall d, e | d in Interfaces(a, f) && e in Interfaces(b, g) ensures d.name != e.name {
      if d.name == e.name {
        if |a| <= |b| {
          GroupNamesCompare(apiName, j, k, d.name);
        } else {
          GroupNamesCompare(apiName, k, j, d.name);
        }
      }
    }
  }

  /** The parameters of one location or one status code. */
  datatype Group = Group(key: Key, params: Forest<Payload>)

  function Namespaces(apiName: string, groups: seq<Group>): seq<Interface> {
    if groups == [] then []
    else
      var g := groups[|groups| - 1];
      Namespaces(apiName, groups[..|groups| - 1])
      + (if g.params.Tree? then Interfaces(GroupName(apiName, g.key), g.params) else [])
  }

  predicate HasGroup(groups: seq<Group>, k: Key) {
    exists i :: 0 <= i < |groups| && groups[i].key == k && groups[i].params.Tree?
  }

  lemma HasGroupNext(groups: seq<Group>, g: Group, k: Key)
    ensures HasGroup(groups + [g], k) <==> HasGroup(groups, k) || (g.key == k && g.params.Tree?)
  {
    if HasGroup(groups, k) {
      var i :| 0 <= i < |groups| && groups[i].key == k && groups[i].params.Tree?;
      assert (groups + [g])[i] == groups[i];
    }
    assert (groups + [g])[|groups|] == g;
  }

  /** All interfaces of an API, group by group; `names` holds the interface name of each group that has parameters. */
  method GenerateTSCode(apiName: string, groups: seq<Group>)
    returns (namespaces: seq<Interface>, names: map<Key, string>)
    ensures namespaces == Namespaces(apiName, groups)
    ensures forall k :: k in names <==> HasGroup(groups, k)
    ensures forall k | k in names :: names[k] == GroupName(apiName, k)
  {
    namespaces, names := [], map[];
    for n := 0 to |groups|
      invariant namespaces == Namespaces(apiName, groups[..n])
      invariant forall k :: k in names <==> HasGroup(groups[..n], k)
      invariant forall k | k in names :: names[k] == GroupName(apiName, k)
    {
      var g := groups[n];
      assert groups[..n + 1][..n] == groups[..n] && groups[..n + 1] == groups[..n] + [g];
      forall k ensures HasGroup(groups[..n + 1], k) <==> HasGroup(groups[..n], k) || (g.key == k && g.params.Tree?) {
        HasGroupNext(groups[..n], g, k);
      }
      if g.params.Tree? {
        var name := GroupName(apiName, g.key);
        var interfaces := GenerateInterface(name, g.params);
        namespaces := namespaces + interfaces;
        names := names[g.key := name];
      }
    }
    assert groups[..|groups|] == groups;
  }

  /** The interface named for a group is among the generated ones. */
  lemma {:induction false} NamedGroupDeclared(apiName: string, groups: seq<Group>, k: Key)
    requires HasGroup(groups, k)
    ensures Declares(Namespaces(apiName, groups), GroupName(apiName, k))
  {
    var before, g := groups[..|groups| - 1], groups[|groups| - 1];
    assert groups == before + [g];
    HasGroupNext(before, g, k);
    var last := if g.params.Tree? then Interfaces(GroupName(apiName, g.key), g.params) else [];
    if HasGroup(before, k) {
      NamedGroupDeclared(apiName, before, k);
    } else {
      GroupNameCapped(apiName, k);
      assert last[|last| - 1].name == GroupName(apiName, k);
    }
    DeclaresMore(Namespaces(apiName, before), last, GroupName(apiName, k));
  }

  /** The interfaces of an API as a whole are closed. */
  lemma {:induction false} NamespacesClosed(apiName: string, groups: seq<Group>)
    ensures Closed(Namespaces(apiName, groups))
  {
    if groups != [] {
      var g := groups[|groups| - 1];
      NamespacesClosed(apiName, groups[..|groups| - 1]);
      var last := if g.params.Tree? then Interfaces(GroupName(apiName, g.key), g.params) else [];
      if g.params.Tree? {
        InterfacesClosed(GroupName(apiName, g.key), g.params);
      }
      ClosedAppends(Namespaces(apiName, groups[..|groups| - 1]), last);
    }
  }
}
