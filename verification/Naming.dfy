/** When the interface names generated for one list of parameters are distinct: a question about the parameters
    alone. */
module Naming {
  import opened Model
  import opened Forests
  import opened Tables
  import opened TypeScript
  import opened Sequences
  import S = Schemas
  import A = Agreement

  /** What a parameter adds to the name of the interface around it. */
  function Segment(p: Payload): string {
    Cap(p.name) + (if p.kind == ArrayType then "Item" else "")
  }

  function Prefixed(s: string, names: seq<string>): seq<string> {
    seq(|names|, i requires 0 <= i < |names| => s + names[i])
  }

  /** For every expanded parameter, at every depth, the segments on the way to it, run together. */
  function PathsOf(params: Forest<Payload>): seq<string> {
    match params
    case Empty => []
    case Tree(p, kids, rest) =>
      (if Expanded(p, kids) then Prefixed(Segment(p), PathsOf(kids) + [""]) else []) + PathsOf(rest)
  }

  /** The run-together paths differ from each other and from the empty path. */
  predicate DistinctPaths(params: Forest<Payload>) {
    NoRepeats(PathsOf(params) + [""])
  }

  function NamesOf(list: seq<Interface>): seq<string> {
    seq(|list|, i requires 0 <= i < |list| => list[i].name)
  }

  lemma PrefixedAppends(s: string, a: seq<string>, b: seq<string>)
    ensures Prefixed(s, a + b) == Prefixed(s, a) + Prefixed(s, b)
  {
  }

  lemma PrefixedEnd(s: string)
    ensures Prefixed(s, [""]) == [s]
  {
    assert s + "" == s;
  }

  lemma PrefixedTwice(s: string, t: string, names: seq<string>)
    ensures Prefixed(s, Prefixed(t, names)) == Prefixed(s + t, names)
  {
    forall i | 0 <= i < |names| ensures s + (t + names[i]) == s + t + names[i] {
    }
  }

  lemma NamesAppend(a: seq<Interface>, b: seq<Interface>)
    ensures NamesOf(a + b) == NamesOf(a) + NamesOf(b)
  {
  }

  lemma {:induction false} NestedNames(parent: string, params: Forest<Payload>)
    requires Cap(parent) == parent
    ensures NamesOf(Nested(parent, params)) == Prefixed(parent, PathsOf(params))
    decreases params, 0
  {
    match params
    case Empty =>
    case Tree(p, kids, rest) =>
      NestedNames(parent, rest);
      if Expanded(p, kids) {
        var child := ChildName(parent, p);
        assert child == parent + Segment(p);
        ChildCapped(parent, p);
        InterfaceNames(child, kids);
        NamesAppend(Interfaces(child, kids), Nested(parent, rest));
        PrefixedTwice(parent, Segment(p), PathsOf(kids) + [""]);
        PrefixedAppends(parent, Prefixed(Segment(p), PathsOf(kids) + [""]), PathsOf(rest));
      } else {
        assert Nested(parent, params) == Nested(parent, rest) && PathsOf(params) == PathsOf(rest);
      }
  }

  lemma {:induction false} InterfaceNames(name: string, params: Forest<Payload>)
    ensures NamesOf(Interfaces(name, params)) == Prefixed(Cap(name), PathsOf(params) + [""])
    decreases params, 1
  {
    CapIdempotent(name);
    NestedNames(Cap(name), params);
    NamesAppend(Nested(Cap(name), params), [Interface(Cap(name), FieldsOf(Cap(name), params))]);
    PrefixedAppends(Cap(name), PathsOf(params), [""]);
    PrefixedEnd(Cap(name));
  }

  lemma PrefixedDistinctIff(s: string, names: seq<string>)
    ensures NoRepeats(Prefixed(s, names)) <==> NoRepeats(names)
  {
    forall i, j | 0 <= i < j < |names|
      ensures Prefixed(s, names)[i] == Prefixed(s, names)[j] <==> names[i] == names[j]
    {
      if s + names[i] == s + names[j] {
        assert (s + names[i])[|s|..] == names[i] && (s + names[j])[|s|..] == names[j];
      }
    }
  }

  /** Generated names are distinct exactly when the paths of the parameters, run together, are. The interface name of
      the list plays no part. */
  lemma InterfacesDistinctIff(name: string, params: Forest<Payload>)
    ensures DistinctInterfaces(Interfaces(name, params)) <==> DistinctPaths(params)
  {
    var list := Interfaces(name, params);
    InterfaceNames(name, params);
    PrefixedDistinctIff(Cap(name), PathsOf(params) + [""]);
    assert forall i | 0 <= i < |list| :: NamesOf(list)[i] == list[i].name;
    assert DistinctInterfaces(list) <==> NoRepeats(NamesOf(list));
  }

  /** The skeletons of both outputs agree under conditions on the parameters alone. */
  lemma OutputsAgreeOnPaths(name: string, params: Forest<Payload>)
    requires S.DistinctNames(params) && DistinctPaths(params)
    ensures var list, s := Interfaces(name, params), S.RootSchema(params);
      A.FromShape(Unfold(list, |list| - 1, list[|list| - 1].fields))
        == A.FromSchema(s.properties.value, A.Names(s.required))
  {
    InterfacesDistinctIff(name, params);
    A.OutputsAgree(name, params);
  }

  // ---- a sufficient condition level by level ----

  predicate Comparable(a: string, b: string) {
    Prefixes(a, b) || Prefixes(b, a)
  }

  predicate SegmentApart(s: string, rest: Forest<Payload>) {
    match rest
    case Empty => true
    case Tree(q, kids, more) => (Expanded(q, kids) ==> !Comparable(s, Segment(q))) && SegmentApart(s, more)
  }

  /** Among expanded siblings no segment is empty or a prefix of another, at every depth. */
  predicate PrefixFree(params: Forest<Payload>) {
    match params
    case Empty => true
    case Tree(p, kids, rest) =>
      && (Expanded(p, kids) ==> Segment(p) != "" && SegmentApart(Segment(p), rest) && PrefixFree(kids))
      && PrefixFree(rest)
  }

  lemma ExtensionsDiffer(s: string, t: string, x: string, y: string)
    requires !Comparable(s, t)
    ensures s + x != t + y
  {
    if s + x == t + y {
      assert Prefixes(s, s + x) && Prefixes(t, s + x);
      if |s| <= |t| {
        PrefixesCompare(s, t, s + x);
      } else {
        PrefixesCompare(t, s, s + x);
      }
    }
  }

  lemma {:induction false} PathsApartFrom(s: string, x: string, rest: Forest<Payload>)
    requires SegmentApart(s, rest)
    ensures s + x !in PathsOf(rest)
    decreases rest
  {
    match rest
    case Empty =>
    case Tree(q, kids, more) =>
      PathsApartFrom(s, x, more);
      if Expanded(q, kids) {
        forall y | y in Prefixed(Segment(q), PathsOf(kids) + [""]) ensures y != s + x {
          var i :| 0 <= i < |PathsOf(kids) + [""]| && y == Segment(q) + (PathsOf(kids) + [""])[i];
          ExtensionsDiffer(s, Segment(q), x, (PathsOf(kids) + [""])[i]);
        }
      }
  }

  lemma {:induction false} PathsNotEmpty(params: Forest<Payload>)
    requires PrefixFree(params)
    ensures "" !in PathsOf(params)
  {
    match params
    case Empty =>
    case Tree(p, kids, rest) =>
      PathsNotEmpty(rest);
  }

  lemma JoinsWithoutRepeats(a: seq<string>, b: seq<string>)
    requires NoRepeats(a) && NoRepeats(b) && forall x | x in a :: x !in b
    ensures NoRepeats(a + b)
  {
    forall i, j | 0 <= i < j < |a + b| ensures (a + b)[i] != (a + b)[j] {
      if i < |a| <= j {
        assert (a + b)[i] in a && (a + b)[j] in b;
      }
    }
  }

  /** Segments that are no prefixes of each other among siblings keep all generated names distinct. */
  lemma {:induction false} PrefixFreeIsDistinct(params: Forest<Payload>)
    requires PrefixFree(params)
    ensures DistinctPaths(params)
    decreases params
  {
    PathsNotEmpty(params);
    match params
    case Empty =>
    case Tree(p, kids, rest) =>
      PrefixFreeIsDistinct(rest);
      assert PathsOf(rest) == (PathsOf(rest) + [""])[..|PathsOf(rest)|];
      assert NoRepeats(PathsOf(rest));
      if Expanded(p, kids) {
        PrefixFreeIsDistinct(kids);
        var first := Prefixed(Segment(p), PathsOf(kids) + [""]);
        PrefixedDistinctIff(Segment(p), PathsOf(kids) + [""]);
        forall x | x in first ensures x !in PathsOf(rest) {
          var i :| 0 <= i < |first| && first[i] == x;
          PathsApartFrom(Segment(p), (PathsOf(kids) + [""])[i], rest);
        }
        JoinsWithoutRepeats(first, PathsOf(rest));
      } else {
        assert PathsOf(params) == PathsOf(rest);
      }
      JoinsWithoutRepeats(PathsOf(params), [""]);
  }

  // ---- the prefix does not rule collisions out ----

  function Record(name: string): Payload {
    Payload(At(Body), name, ObjectType, false, None, None, None, None)
  }

  function Leafy(name: string): Payload {
    Payload(At(Body), name, StringType, false, None, None, None, None)
  }

  /** Siblings `aB` and `a`, the latter with a child `b`: both `aB` and `b` give an interface that ends in AB. */
  lemma PrefixedNamesCollide(name: string) returns (params: Forest<Payload>)
    ensures S.DistinctNames(params) && Pruned(params)
    ensures !DistinctInterfaces(Interfaces(name, params))
  {
    var leaf := Tree(Leafy("x"), Empty, Empty);
    var ab := Record("aB");
    var b := Tree(Record("b"), leaf, Empty);
    var a := Tree(Record("a"), b, Empty);
    params := Tree(ab, leaf, a);
    assert PathsOf(leaf) == [];
    PrefixedEnd("AB");
    PrefixedEnd("B");
    assert Segment(ab) == "AB" && Segment(Record("b")) == "B" && Segment(Record("a")) == "A";
    assert PathsOf(b) == ["B"];
    assert "A" + "B" == "AB" && "A" + "" == "A";
    assert Prefixed("A", ["B", ""]) == ["AB", "A"];
    assert PathsOf(a) == ["AB", "A"];
    assert PathsOf(params) == ["AB", "AB", "A"];
    assert (PathsOf(params) + [""])[0] == (PathsOf(params) + [""])[1];
    InterfacesDistinctIff(name, params);
  }
}
