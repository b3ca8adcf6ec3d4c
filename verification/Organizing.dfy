/** The fetch as the server runs it: one object per row, linked in place through an index. */
module Organizing {
  import opened Model
  import opened Forests
  import opened Fetching

  /** The mutable record made of a row; `children` grows while the rows are scanned. */
  class Node {
    const rec: Rec
    var children: seq<Node>

    constructor (rec: Rec)
      ensures this.rec == rec && children == []
    {
      this.rec := rec;
      children := [];
    }
  }

  predicate Indexed(rows: seq<Rec>, index: map<Id, Node>) {
    && (forall r | r in rows :: r.id in index)
    && (forall id | id in index :: index[id].rec.id == id && index[id].rec in rows)
  }

  function NodesOf(index: map<Id, Node>, ids: seq<Id>): seq<Node>
    requires forall id | id in ids :: id in index
  {
    seq(|ids|, i requires 0 <= i < |ids| => index[ids[i]])
  }

  lemma ChildIdsIndexed(rows: seq<Rec>, index: map<Id, Node>, n: nat, p: Id)
    requires Indexed(rows, index) && n <= |rows|
    ensures forall id | id in ChildIds(rows[..n], p) :: id in index
  {
    ChildIdsAre(rows[..n], p);
  }

  lemma RootIdsIndexed(rows: seq<Rec>, index: map<Id, Node>, n: nat, k: Key)
    requires Indexed(rows, index) && n <= |rows|
    ensures forall id | id in RootIds(rows[..n], k) :: id in index
  {
    RootIdsAre(rows[..n], k);
  }

  /** Row `p` carries exactly the nodes of its children among the rows scanned so far. */
  ghost predicate LinkedAt(rows: seq<Rec>, index: map<Id, Node>, n: nat, p: Id)
    requires Indexed(rows, index) && n <= |rows|
    reads index.Values
  {
    ChildIdsIndexed(rows, index, n, p);
    p in index ==> index[p].children == NodesOf(index, ChildIds(rows[..n], p))
  }

  /** Group `k` holds exactly the nodes of its roots among the rows scanned so far. */
  ghost predicate GroupedAt(rows: seq<Rec>, index: map<Id, Node>, groups: map<Key, seq<Node>>, preset: set<Key>, n: nat,
                            k: Key)
    requires Indexed(rows, index) && n <= |rows|
  {
    RootIdsIndexed(rows, index, n, k);
    if k in groups then groups[k] == NodesOf(index, RootIds(rows[..n], k)) && (k in preset || groups[k] != [])
    else k !in preset && RootIds(rows[..n], k) == []
  }

  lemma TakeNext(rows: seq<Rec>, n: nat)
    requires n < |rows|
    ensures rows[..n + 1][..n] == rows[..n] && rows[..n + 1][n] == rows[n] && |rows[..n + 1]| == n + 1
  {
  }

  lemma ChildIdsNext(rows: seq<Rec>, n: nat, p: Id)
    requires n < |rows|
    ensures ChildIds(rows[..n + 1], p) == ChildIds(rows[..n], p) + (if IsChild(rows[n], p) then [rows[n].id] else [])
  {
    TakeNext(rows, n);
  }

  lemma RootIdsNext(rows: seq<Rec>, n: nat, k: Key)
    requires n < |rows|
    ensures RootIds(rows[..n + 1], k) == RootIds(rows[..n], k) + (if IsRoot(rows[n], k) then [rows[n].id] else [])
  {
    TakeNext(rows, n);
  }

  /** Index the rows by key: one new node each. */
  method BuildIndex(rows: seq<Rec>) returns (index: map<Id, Node>)
    requires DistinctIds(rows)
    ensures Indexed(rows, index) && fresh(index.Values)
    ensures forall id | id in index :: index[id].children == []
  {
    index := map[];
    for n := 0 to |rows|
      invariant forall r | r in rows[..n] :: r.id in index
      invariant forall id | id in index :: index[id].rec.id == id && index[id].rec in rows
      invariant forall id | id in index :: fresh(index[id]) && index[id].children == []
    {
      var node := new Node(rows[n]);
      index := index[rows[n].id := node];
    }
    assert rows[..|rows|] == rows;
    forall o | o in index.Values ensures fresh(o) {
      var id :| id in index && index[id] == o;
    }
  }

  ghost predicate Linked(rows: seq<Rec>, index: map<Id, Node>, n: nat)
    requires Indexed(rows, index) && n <= |rows|
    reads index.Values
  {
    forall p {:trigger LinkedAt(rows, index, n, p)} :: LinkedAt(rows, index, n, p)
  }

  ghost predicate Grouped(rows: seq<Rec>, index: map<Id, Node>, groups: map<Key, seq<Node>>, preset: set<Key>, n: nat)
    requires Indexed(rows, index) && n <= |rows|
  {
    forall k {:trigger GroupedAt(rows, index, groups, preset, n, k)} :: GroupedAt(rows, index, groups, preset, n, k)
  }

  /** A row without a node for its parent changes no child list. */
  lemma LinkedWithoutParent(rows: seq<Rec>, index: map<Id, Node>, n: nat, m: nat)
    requires Indexed(rows, index) && m == n + 1 <= |rows| && Linked(rows, index, n)
    requires HasParent(rows[n]) ==> rows[n].row.parent.value !in index
    ensures Linked(rows, index, m)
  {
    forall p ensures LinkedAt(rows, index, m, p) {
      ChildIdsNext(rows, n, p);
      assert LinkedAt(rows, index, n, p);
    }
  }

  lemma GroupedWithChild(rows: seq<Rec>, index: map<Id, Node>, groups: map<Key, seq<Node>>, preset: set<Key>, n: nat,
                         m: nat)
    requires Indexed(rows, index) && m == n + 1 <= |rows| && Grouped(rows, index, groups, preset, n)
    requires HasParent(rows[n])
    ensures Grouped(rows, index, groups, preset, m)
  {
    forall k ensures GroupedAt(rows, index, groups, preset, m, k) {
      RootIdsNext(rows, n, k);
      assert GroupedAt(rows, index, groups, preset, n, k);
    }
  }

  lemma GroupedWithRoot(rows: seq<Rec>, index: map<Id, Node>, groups: map<Key, seq<Node>>, preset: set<Key>, n: nat,
                        m: nat, key: Key, node: Node, groups': map<Key, seq<Node>>)
    requires Indexed(rows, index) && m == n + 1 <= |rows| && Grouped(rows, index, groups, preset, n)
    requires !HasParent(rows[n]) && key == rows[n].row.payload.key && rows[n].id in index && node == index[rows[n].id]
    requires groups' == groups[key := (if key in groups then groups[key] else []) + [node]]
    ensures Grouped(rows, index, groups', preset, m)
  {
    forall k ensures GroupedAt(rows, index, groups', preset, m, k) {
      RootIdsNext(rows, n, k);
      RootIdsIndexed(rows, index, n, k);
      RootIdsIndexed(rows, index, m, k);
      assert GroupedAt(rows, index, groups, preset, n, k);
    }
  }

  /** The child lists after the nth row, given those before it. */
  lemma NextChildList(rows: seq<Rec>, index: map<Id, Node>, n: nat, m: nat, p: Id, list: seq<Node>)
    requires Indexed(rows, index) && m == n + 1 <= |rows| && rows[n].id in index
    requires list == NodesOf(index, (ChildIdsIndexed(rows, index, n, p); ChildIds(rows[..n], p)))
    ensures NodesOf(index, (ChildIdsIndexed(rows, index, m, p); ChildIds(rows[..m], p)))
         == list + (if IsChild(rows[n], p) then [index[rows[n].id]] else [])
  {
    ChildIdsNext(rows, n, p);
    ChildIdsIndexed(rows, index, n, p);
    ChildIdsIndexed(rows, index, m, p);
  }

  /** Append a row's node to its parent's children. */
  method AppendChild(rows: seq<Rec>, index: map<Id, Node>, n: nat, m: nat, parent: Id)
    requires Indexed(rows, index) && m == n + 1 <= |rows| && Linked(rows, index, n)
    requires IsChild(rows[n], parent) && parent in index && rows[n].id in index
    modifies index[parent]
    ensures Linked(rows, index, m)
  {
    ghost var lists := map p | p in index :: index[p].children;
    forall p ensures p in index ==>
      lists[p] == NodesOf(index, (ChildIdsIndexed(rows, index, n, p); ChildIds(rows[..n], p))) {
      assert LinkedAt(rows, index, n, p);
    }
    index[parent].children := index[parent].children + [index[rows[n].id]];
    forall p ensures LinkedAt(rows, index, m, p) {
      if p in index {
        NextChildList(rows, index, n, m, p, lists[p]);
        assert p != parent ==> index[p].rec.id != index[parent].rec.id;
      }
    }
  }

  /**
   * Link every row below its parent's node, or append it to the group of its key when it has no parent.
   * A parent that is not among the rows makes the row disappear. `preset` are the groups that exist from the start:
   * the five locations for request parameters, none for response parameters.
   */
  method LinkRows(rows: seq<Rec>, index: map<Id, Node>, preset: set<Key>) returns (groups: map<Key, seq<Node>>)
    requires Indexed(rows, index)
    requires forall id | id in index :: index[id].children == []
    modifies index.Values
    ensures Linked(rows, index, |rows|)
    ensures Grouped(rows, index, groups, preset, |rows|)
  {
    groups := map k | k in preset :: [];
    forall p ensures LinkedAt(rows, index, 0, p) {
    }
    forall k ensures GroupedAt(rows, index, groups, preset, 0, k) {
    }
    for n := 0 to |rows|
      invariant Linked(rows, index, n)
      invariant Grouped(rows, index, groups, preset, n)
    {
      ghost var m := n + 1;
      var r := rows[n];
      assert r in rows;
      if HasParent(r) {
        GroupedWithChild(rows, index, groups, preset, n, m);
        if r.row.parent.value in index {
          AppendChild(rows, index, n, n + 1, r.row.parent.value);
        } else {
          LinkedWithoutParent(rows, index, n, m);
        }
      } else {
        var k := r.row.payload.key;
        ghost var before := groups;
        groups := groups[k := (if k in groups then groups[k] else []) + [index[r.id]]];
        GroupedWithRoot(rows, index, before, preset, n, m, k, index[r.id], groups);
        LinkedWithoutParent(rows, index, n, m);
      }
    }
  }

  /** The objects at `nodes` unfold to the forest `f`. */
  ghost predicate Shows(all: set<Node>, nodes: seq<Node>, f: Forest<Rec>)
    reads all
    decreases f
  {
    match f
    case Empty => nodes == []
    case Tree(r, kids, rest) =>
      && nodes != [] && nodes[0] in all && nodes[0].rec == r
      && Shows(all, nodes[0].children, kids)
      && Shows(all, nodes[1..], rest)
  }

  /** Linked objects unfold to exactly the forests that the rows represent. */
  lemma {:induction false} ShowsIffRepresents(rows: seq<Rec>, index: map<Id, Node>, ids: seq<Id>, f: Forest<Rec>)
    requires DistinctIds(rows) && Indexed(rows, index)
    requires Linked(rows, index, |rows|)
    requires forall id | id in ids :: id in index
    ensures Shows(index.Values, NodesOf(index, ids), f) <==> Represents(rows, ids, f)
    decreases f
  {
    var nodes := NodesOf(index, ids);
    if f.Tree? && ids != [] {
      var x := ids[0];
      assert rows[..|rows|] == rows;
      assert LinkedAt(rows, index, |rows|, x);
      ChildIdsIndexed(rows, index, |rows|, x);
      assert nodes[0] == index[x] && nodes[1..] == NodesOf(index, ids[1..]);
      assert index[x] in index.Values;
      ShowsIffRepresents(rows, index, ChildIds(rows, x), f.kids);
      ShowsIffRepresents(rows, index, ids[1..], f.rest);
      SameRec(rows, index[x].rec, f.root);
    }
  }

  lemma SameRec(rows: seq<Rec>, a: Rec, b: Rec)
    requires DistinctIds(rows) && a in rows
    ensures b in rows && b.id == a.id ==> b == a
  {
  }

  /** The fetch: new objects only, and each group unfolds to exactly what the rows represent for its key. */
  method Organize(rows: seq<Rec>, preset: set<Key>) returns (groups: map<Key, seq<Node>>, ghost all: set<Node>)
    requires DistinctIds(rows)
    ensures fresh(all)
    ensures forall k :: k in groups <==> k in preset || RootIds(rows, k) != []
    ensures forall k, f | k in groups :: Shows(all, groups[k], f) <==> Represents(rows, RootIds(rows, k), f)
  {
    var index := BuildIndex(rows);
    groups := LinkRows(rows, index, preset);
    all := index.Values;
    assert rows[..|rows|] == rows;
    forall k ensures k in groups <==> k in preset || RootIds(rows, k) != [] {
      assert GroupedAt(rows, index, groups, preset, |rows|, k);
    }
    forall k, f | k in groups ensures Shows(all, groups[k], f) <==> Represents(rows, RootIds(rows, k), f) {
      assert GroupedAt(rows, index, groups, preset, |rows|, k);
      RootIdsIndexed(rows, index, |rows|, k);
      ShowsIffRepresents(rows, index, RootIds(rows, k), f);
    }
  }

  /** Request parameters: the five locations are always present, and nothing else where all rows carry a location. */
  method OrganizeReqParams(rows: seq<Rec>) returns (groups: map<Key, seq<Node>>, ghost all: set<Node>)
    requires DistinctIds(rows)
    ensures fresh(all)
    ensures forall k :: k in groups <==> k.At? || RootIds(rows, k) != []
    ensures (forall r | r in rows :: r.row.payload.key.At?) ==> forall k :: k in groups <==> k.At?
    ensures forall k, f | k in groups :: Shows(all, groups[k], f) <==> Represents(rows, RootIds(rows, k), f)
  {
    groups, all := Organize(rows, {At(Query), At(Path), At(Header), At(Cookie), At(Body)});
    forall l: Location ensures At(l) in groups {
      match l
      case Query => case Path => case Header => case Cookie => case Body =>
    }
    forall k ensures k in groups <==> k.At? || RootIds(rows, k) != [] {
      assert k.At? ==> k == At(k.location);
    }
    if forall r | r in rows :: r.row.payload.key.At? {
      forall k | RootIds(rows, k) != [] ensures k.At? {
        RootIdsAre(rows, k);
        assert RootIds(rows, k)[0] in RootIds(rows, k);
      }
    }
  }

  /** Response parameters: a status code is present exactly when it has a root. */
  method OrganizeRespParams(rows: seq<Rec>) returns (groups: map<Key, seq<Node>>, ghost all: set<Node>)
    requires DistinctIds(rows)
    ensures fresh(all)
    ensures forall k :: k in groups <==> RootIds(rows, k) != []
    ensures forall k, f | k in groups :: Shows(all, groups[k], f) <==> Represents(rows, RootIds(rows, k), f)
  {
    groups, all := Organize(rows, {});
  }
}
