/** A copied API is fetched as the same trees as its original, as long as its rows are read in the corresponding
    order. */
module FetchCopies {
  import opened Model
  import opened Forests
  import opened Tables
  import opened Catalog
  import opened Fetching
  import opened RoundTrips

  function Renamed(ids: seq<Id>, m: map<Id, Id>): seq<Id>
    requires forall x | x in ids :: x in m
  {
    seq(|ids|, i requires 0 <= i < |ids| => m[ids[i]])
  }

  predicate CopyRowAt(a: seq<Rec>, b: seq<Rec>, owners: map<Id, Id>, m: map<Id, Id>, i: nat)
    requires |a| == |b|
  {
    i < |a| ==> a[i].id in m && b[i].id == m[a[i].id] && Copied(a[i].row, b[i].row, owners, m)
  }

  /** Row by row, `b` lists the copies of the rows of `a`. */
  ghost predicate CopyList(a: seq<Rec>, b: seq<Rec>, owners: map<Id, Id>, m: map<Id, Id>) {
    && |a| == |b| && DistinctIds(a) && Injective(m)
    && (forall x | x in m :: 0 < x && 0 < m[x])
    && (forall i: nat {:trigger CopyRowAt(a, b, owners, m, i)} :: CopyRowAt(a, b, owners, m, i))
  }

  lemma {:induction false} CopiedChildIds(a: seq<Rec>, b: seq<Rec>, owners: map<Id, Id>, m: map<Id, Id>, n: nat, p: Id)
    requires CopyList(a, b, owners, m) && n <= |a| && p in m
    ensures forall x | x in ChildIds(a[..n], p) :: x in m
    ensures ChildIds(b[..n], m[p]) == Renamed(ChildIds(a[..n], p), m)
    decreases n
  {
    if n != 0 {
      CopiedChildIds(a, b, owners, m, n - 1, p);
      assert CopyRowAt(a, b, owners, m, n - 1);
      assert a[..n][..n - 1] == a[..n - 1] && b[..n][..n - 1] == b[..n - 1];
      assert HasParent(a[n - 1]) ==> InjectiveAt(m, a[n - 1].row.parent.value, p);
      assert IsChild(b[n - 1], m[p]) <==> IsChild(a[n - 1], p);
    }
  }

  lemma {:induction false} CopiedRootIds(a: seq<Rec>, b: seq<Rec>, owners: map<Id, Id>, m: map<Id, Id>, n: nat, k: Key)
    requires CopyList(a, b, owners, m) && n <= |a|
    ensures forall x | x in RootIds(a[..n], k) :: x in m
    ensures RootIds(b[..n], k) == Renamed(RootIds(a[..n], k), m)
    decreases n
  {
    if n != 0 {
      CopiedRootIds(a, b, owners, m, n - 1, k);
      assert CopyRowAt(a, b, owners, m, n - 1);
      assert a[..n][..n - 1] == a[..n - 1] && b[..n][..n - 1] == b[..n - 1];
      assert IsRoot(b[n - 1], k) <==> IsRoot(a[n - 1], k);
    }
  }

  lemma CopyOf(a: seq<Rec>, b: seq<Rec>, owners: map<Id, Id>, m: map<Id, Id>, r: Rec) returns (c: Rec)
    requires CopyList(a, b, owners, m) && r in a
    ensures c in b && r.id in m && c.id == m[r.id] && c.row.payload == r.row.payload
    ensures forall x | x in ChildIds(a, r.id) :: x in m
    ensures ChildIds(b, c.id) == Renamed(ChildIds(a, r.id), m)
  {
    var i :| 0 <= i < |a| && a[i] == r;
    assert CopyRowAt(a, b, owners, m, i);
    c := b[i];
    assert a[..|a|] == a && b[..|b|] == b;
    CopiedChildIds(a, b, owners, m, |a|, r.id);
  }

  lemma {:induction false} CopiedForest(a: seq<Rec>, b: seq<Rec>, owners: map<Id, Id>, m: map<Id, Id>, ids: seq<Id>,
                                        f: Forest<Rec>)
    returns (g: Forest<Rec>)
    requires CopyList(a, b, owners, m) && Represents(a, ids, f) && forall x | x in ids :: x in m
    ensures Represents(b, Renamed(ids, m), g) && Payloads(g) == Payloads(f)
    decreases f
  {
    match f
    case Empty =>
      g := Empty;
    case Tree(r, kids, rest) =>
      var c := CopyOf(a, b, owners, m, r);
      var kids' := CopiedForest(a, b, owners, m, ChildIds(a, r.id), kids);
      var rest' := CopiedForest(a, b, owners, m, ids[1..], rest);
      assert Renamed(ids, m)[1..] == Renamed(ids[1..], m);
      g := Tree(c, kids', rest');
  }

  lemma CopyListDistinct(a: seq<Rec>, b: seq<Rec>, owners: map<Id, Id>, m: map<Id, Id>)
    requires CopyList(a, b, owners, m)
    ensures DistinctIds(b)
  {
    forall i, j | 0 <= i < j < |b| ensures b[i].id != b[j].id {
      assert CopyRowAt(a, b, owners, m, i) && CopyRowAt(a, b, owners, m, j);
      assert a[i].id != a[j].id && InjectiveAt(m, a[i].id, a[j].id);
    }
  }

  /** Corresponding rows of isomorphic row sets, in the same order. */
  ghost predicate SameOrder(p: map<Id, Row>, q: map<Id, Row>, m: map<Id, Id>, a: seq<Rec>, b: seq<Rec>) {
    && |a| == |b| && DistinctIds(a)
    && (forall x | x in p :: 0 < x) && (forall y | y in q :: 0 < y)
    && forall i | 0 <= i < |a| ::
      && a[i].id in p && p[a[i].id] == a[i].row
      && a[i].id in m && b[i].id == m[a[i].id] && b[i].id in q && q[b[i].id] == b[i].row
  }

  lemma SameOrderCopies(p: map<Id, Row>, q: map<Id, Row>, owners: map<Id, Id>, m: map<Id, Id>, a: seq<Rec>, b: seq<Rec>)
    requires RowsIso(p, q, owners, m) && SameOrder(p, q, m, a, b)
    ensures CopyList(a, b, owners, m)
  {
    forall x | x in m ensures 0 < x && 0 < m[x] {
      assert m[x] in m.Values;
    }
    forall i: nat ensures CopyRowAt(a, b, owners, m, i) {
      if i < |a| {
        assert RowIsoAt(p, q, owners, m, a[i].id);
      }
    }
  }

  /** Corresponding lists of rows are fetched as the same trees. */
  lemma CopyListFetchesSame(a: seq<Rec>, b: seq<Rec>, owners: map<Id, Id>, m: map<Id, Id>, k: Key, f: Forest<Rec>,
                            g: Forest<Rec>)
    requires CopyList(a, b, owners, m) && Represents(a, RootIds(a, k), f) && Represents(b, RootIds(b, k), g)
    ensures Payloads(f) == Payloads(g)
  {
    assert a[..|a|] == a && b[..|b|] == b;
    CopiedRootIds(a, b, owners, m, |a|, k);
    var g' := CopiedForest(a, b, owners, m, RootIds(a, k), f);
    CopyListDistinct(a, b, owners, m);
    RepresentsIsUnique(b, RootIds(b, k), g, g');
  }

  /** In isomorphic row sets, an API and its counterpart read in the same order are fetched as the same trees,
      for every location and status code. */
  lemma IsoFetchesSame(p: map<Id, Row>, q: map<Id, Row>, owners: map<Id, Id>, m: map<Id, Id>, a: seq<Rec>, b: seq<Rec>,
                       k: Key, f: Forest<Rec>, g: Forest<Rec>)
    requires RowsIso(p, q, owners, m) && SameOrder(p, q, m, a, b)
    requires Represents(a, RootIds(a, k), f) && Represents(b, RootIds(b, k), g)
    ensures Payloads(f) == Payloads(g)
  {
    SameOrderCopies(p, q, owners, m, a, b);
    CopyListFetchesSame(a, b, owners, m, k, f, g);
  }
}
