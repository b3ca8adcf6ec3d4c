/** Storing nested parameters and fetching them again. */
module RoundTrips {
  import opened Model
  import opened Forests
  import opened Tables
  import opened Codec
  import opened Fetching
  import opened Actions

  /** The rows stored for a forest, keyed upwards from `first`, each parent before its children. */
  function Number(g: Forest<Payload>, owner: Id, parent: Option<Id>, first: Id): Forest<Rec> {
    match g
    case Empty => Empty
    case Tree(p, kids, rest) =>
      Tree(Rec(first, Row(owner, parent, p)),
           Number(kids, owner, Some(first), first + 1),
           Number(rest, owner, parent, first + 1 + Size(kids)))
  }

  function Payloads(f: Forest<Rec>): Forest<Payload> {
    match f
    case Empty => Empty
    case Tree(r, kids, rest) => Tree(r.row.payload, Payloads(kids), Payloads(rest))
  }

  lemma {:induction false} NumberKeepsPayloads(g: Forest<Payload>, owner: Id, parent: Option<Id>, first: Id)
    ensures Payloads(Number(g, owner, parent, first)) == g
    ensures Size(Number(g, owner, parent, first)) == Size(g)
  {
    match g
    case Empty =>
    case Tree(_, kids, rest) =>
      NumberKeepsPayloads(kids, owner, Some(first), first + 1);
      NumberKeepsPayloads(rest, owner, parent, first + 1 + Size(kids));
  }

  // ---- the numbered rows as a list ----

  /** The stored rows in the order they are inserted. */
  function Laid(g: Forest<Payload>, owner: Id, parent: Option<Id>, first: Id): seq<Rec> {
    Preorder(Number(g, owner, parent, first))
  }

  function Top(p: Payload, owner: Id, parent: Option<Id>, first: Id): seq<Rec> {
    [Rec(first, Row(owner, parent, p))]
  }

  lemma LaidSplits(p: Payload, kids: Forest<Payload>, rest: Forest<Payload>, owner: Id, parent: Option<Id>, first: Id)
    ensures Laid(Tree(p, kids, rest), owner, parent, first)
         == Top(p, owner, parent, first) + Laid(kids, owner, Some(first), first + 1)
          + Laid(rest, owner, parent, first + 1 + Size(kids))
    ensures Size(Tree(p, kids, rest)) == 1 + Size(kids) + Size(rest)
  {
  }

  lemma LaidSize(g: Forest<Payload>, owner: Id, parent: Option<Id>, first: Id)
    ensures |Laid(g, owner, parent, first)| == Size(g)
  {
    NumberKeepsPayloads(g, owner, parent, first);
    PreorderSize(Number(g, owner, parent, first));
  }

  predicate WithinAt(r: Rec, owner: Id, parent: Option<Id>, lo: Id, hi: Id) {
    && lo <= r.id < hi && r.row.owner == owner
    && (r.row.parent == parent || (r.row.parent.Some? && lo <= r.row.parent.value < hi))
  }

  /** Rows with keys in [lo, hi), each with the given parent or one in that range. */
  ghost predicate Within(rows: seq<Rec>, owner: Id, parent: Option<Id>, lo: Id, hi: Id) {
    forall r {:trigger WithinAt(r, owner, parent, lo, hi)} | r in rows :: WithinAt(r, owner, parent, lo, hi)
  }

  lemma WithinJoins(top: seq<Rec>, a: seq<Rec>, b: seq<Rec>, p: Payload, owner: Id, parent: Option<Id>, first: Id,
                    mid: Id, hi: Id)
    requires first < mid <= hi && top == Top(p, owner, parent, first)
    requires Within(a, owner, Some(first), first + 1, mid) && Within(b, owner, parent, mid, hi)
    ensures Within(top + a + b, owner, parent, first, hi)
  {
    forall r | r in top + a + b ensures WithinAt(r, owner, parent, first, hi) {
      if r in a {
        assert WithinAt(r, owner, Some(first), first + 1, mid);
      } else if r in b {
        assert WithinAt(r, owner, parent, mid, hi);
      }
    }
  }

  predicate Ascending(rows: seq<Rec>) {
    forall i, j | 0 <= i < j < |rows| :: rows[i].id < rows[j].id
  }

  lemma AscendingJoins(a: seq<Rec>, b: seq<Rec>, mid: Id)
    requires Ascending(a) && Ascending(b)
    requires (forall r | r in a :: r.id < mid) && (forall r | r in b :: mid <= r.id)
    ensures Ascending(a + b)
  {
    forall i, j | 0 <= i < j < |a + b| ensures (a + b)[i].id < (a + b)[j].id {
      if i < |a| <= j {
        assert a[i] in a && b[j - |a|] in b;
      }
    }
  }

  lemma {:induction false} NumberedRows(g: Forest<Payload>, owner: Id, parent: Option<Id>, first: Id)
    ensures Within(Laid(g, owner, parent, first), owner, parent, first, first + Size(g))
    ensures Ascending(Laid(g, owner, parent, first))
    decreases g
  {
    match g
    case Empty =>
    case Tree(p, kids, rest) =>
      var mid := first + 1 + Size(kids);
      NumberedRows(kids, owner, Some(first), first + 1);
      NumberedRows(rest, owner, parent, mid);
      LaidSplits(p, kids, rest, owner, parent, first);
      var top, a, b :=
        Top(p, owner, parent, first), Laid(kids, owner, Some(first), first + 1), Laid(rest, owner, parent, mid);
      WithinJoins(top, a, b, p, owner, parent, first, mid, first + Size(g));
      assert forall r | r in a :: WithinAt(r, owner, Some(first), first + 1, mid);
      assert forall r | r in b :: WithinAt(r, owner, parent, mid, first + Size(g));
      AscendingJoins(top, a, first + 1);
      AscendingJoins(top + a, b, mid);
  }

  lemma {:induction false} ChildIdsAppend(a: seq<Rec>, b: seq<Rec>, p: Id)
    ensures ChildIds(a + b, p) == ChildIds(a, p) + ChildIds(b, p)
    decreases b
  {
    if b == [] {
      assert a + b == a;
    } else {
      assert (a + b)[..|a + b| - 1] == a + b[..|b| - 1];
      ChildIdsAppend(a, b[..|b| - 1], p);
    }
  }

  lemma {:induction false} RootIdsAppend(a: seq<Rec>, b: seq<Rec>, k: Key)
    ensures RootIds(a + b, k) == RootIds(a, k) + RootIds(b, k)
    decreases b
  {
    if b == [] {
      assert a + b == a;
    } else {
      assert (a + b)[..|a + b| - 1] == a + b[..|b| - 1];
      RootIdsAppend(a, b[..|b| - 1], k);
    }
  }

  lemma {:induction false} NoChildren(rows: seq<Rec>, p: Id)
    requires forall r | r in rows :: !IsChild(r, p)
    ensures ChildIds(rows, p) == []
  {
    if rows != [] {
      assert rows[|rows| - 1] in rows;
      NoChildren(rows[..|rows| - 1], p);
    }
  }

  lemma {:induction false} NoRoots(rows: seq<Rec>, k: Key)
    requires forall r | r in rows :: HasParent(r)
    ensures RootIds(rows, k) == []
  {
    if rows != [] {
      assert rows[|rows| - 1] in rows;
      NoRoots(rows[..|rows| - 1], k);
    }
  }

  /** The keys of the top rows of a forest. */
  function TopIds(f: Forest<Rec>): seq<Id> {
    match f
    case Empty => []
    case Tree(r, _, rest) => [r.id] + TopIds(rest)
  }

  /** Rows stored under `first` are no children of an earlier row. */
  lemma KidsOfOthers(kids: Forest<Payload>, owner: Id, first: Id, p: Id)
    requires 0 < first && p < first
    ensures ChildIds(Laid(kids, owner, Some(first), first + 1), p) == []
  {
    var a := Laid(kids, owner, Some(first), first + 1);
    NumberedRows(kids, owner, Some(first), first + 1);
    forall r | r in a ensures !IsChild(r, p) {
      assert WithinAt(r, owner, Some(first), first + 1, first + 1 + Size(kids));
    }
    NoChildren(a, p);
  }

  lemma KidsAreNoRoots(kids: Forest<Payload>, owner: Id, first: Id, k: Key)
    requires 0 < first
    ensures RootIds(Laid(kids, owner, Some(first), first + 1), k) == []
  {
    var a := Laid(kids, owner, Some(first), first + 1);
    NumberedRows(kids, owner, Some(first), first + 1);
    forall r | r in a ensures HasParent(r) {
      assert WithinAt(r, owner, Some(first), first + 1, first + 1 + Size(kids));
    }
    NoRoots(a, k);
  }

  /** The rows stored under `parent` list exactly the tops as its children. */
  lemma {:induction false} TopsAreChildren(g: Forest<Payload>, owner: Id, parent: Id, first: Id)
    requires 0 < parent < first
    ensures ChildIds(Laid(g, owner, Some(parent), first), parent) == TopIds(Number(g, owner, Some(parent), first))
    decreases g
  {
    match g
    case Empty =>
    case Tree(p, kids, rest) =>
      var mid := first + 1 + Size(kids);
      var top, a, b :=
        Top(p, owner, Some(parent), first), Laid(kids, owner, Some(first), first + 1),
          Laid(rest, owner, Some(parent), mid);
      KidsOfOthers(kids, owner, first, parent);
      TopsAreChildren(rest, owner, parent, mid);
      LaidSplits(p, kids, rest, owner, Some(parent), first);
      ThreeParts(top, a, b, parent);
      assert ChildIds(top, parent) == [first];
  }

  lemma ThreeParts(a: seq<Rec>, b: seq<Rec>, c: seq<Rec>, p: Id)
    ensures ChildIds(a + b + c, p) == ChildIds(a, p) + ChildIds(b, p) + ChildIds(c, p)
  {
    ChildIdsAppend(a, b, p);
    ChildIdsAppend(a + b, c, p);
  }

  predicate ForeignAt(r: Rec, lo: Id, hi: Id) {
    r.row.parent.Some? ==> !(lo <= r.row.parent.value < hi)
  }

  /** No row of the list has its parent among the keys [lo, hi). */
  ghost predicate Foreign(rows: seq<Rec>, lo: Id, hi: Id) {
    forall r {:trigger ForeignAt(r, lo, hi)} | r in rows :: ForeignAt(r, lo, hi)
  }

  lemma ForeignJoins(a: seq<Rec>, b: seq<Rec>, lo: Id, hi: Id)
    requires Foreign(a, lo, hi) && Foreign(b, lo, hi)
    ensures Foreign(a + b, lo, hi)
  {
  }

  lemma ForeignNarrows(a: seq<Rec>, lo: Id, hi: Id, lo': Id, hi': Id)
    requires Foreign(a, lo, hi) && lo <= lo' && hi' <= hi
    ensures Foreign(a, lo', hi')
  {
    forall r | r in a ensures ForeignAt(r, lo', hi') {
      assert ForeignAt(r, lo, hi);
    }
  }

  lemma WithinIsForeign(a: seq<Rec>, owner: Id, parent: Option<Id>, lo: Id, hi: Id, lo': Id, hi': Id)
    requires Within(a, owner, parent, lo, hi) && (hi' <= lo || hi <= lo')
    requires parent.Some? ==> !(lo' <= parent.value < hi')
    ensures Foreign(a, lo', hi')
  {
    forall r | r in a ensures ForeignAt(r, lo', hi') {
      assert WithinAt(r, owner, parent, lo, hi);
    }
  }

  lemma ForeignHasNoChild(a: seq<Rec>, p: Id, hi: Id)
    requires Foreign(a, p, hi) && p < hi
    ensures ChildIds(a, p) == []
  {
    forall r | r in a ensures !IsChild(r, p) {
      assert ForeignAt(r, p, hi);
    }
    NoChildren(a, p);
  }

  lemma RegroupAround(pre: seq<Rec>, top: seq<Rec>, a: seq<Rec>, b: seq<Rec>, post: seq<Rec>)
    ensures pre + (top + a + b) + post == pre + top + a + (b + post)
    ensures pre + (top + a + b) + post == pre + top + a + b + post
    ensures top != [] ==> top[0] in pre + (top + a + b) + post
  {
    if top != [] {
      assert (pre + (top + a + b) + post)[|pre|] == top[0];
    }
  }

  lemma RepresentsNode(rows: seq<Rec>, f: Forest<Rec>)
    requires f.Tree? && f.root in rows
    requires ChildIds(rows, f.root.id) == TopIds(f.kids)
    requires Represents(rows, TopIds(f.kids), f.kids) && Represents(rows, TopIds(f.rest), f.rest)
    ensures Represents(rows, TopIds(f), f)
  {
    assert TopIds(f)[1..] == TopIds(f.rest);
  }

  ghost predicate Around(rows: seq<Rec>, pre: seq<Rec>, post: seq<Rec>, g: Forest<Payload>, owner: Id,
                         parent: Option<Id>, first: Id) {
    && rows == pre + Laid(g, owner, parent, first) + post
    && Foreign(pre, first, first + Size(g)) && Foreign(post, first, first + Size(g))
  }

  /** The list falls apart around the children of its first stored row. */
  lemma StoredParts(p: Payload, kids: Forest<Payload>, rest: Forest<Payload>, owner: Id, parent: Option<Id>, first: Id,
                    pre: seq<Rec>, post: seq<Rec>, rows: seq<Rec>)
    requires 0 < first && (parent.Some? ==> 0 < parent.value < first)
    requires Around(rows, pre, post, Tree(p, kids, rest), owner, parent, first)
    ensures var mid := first + 1 + Size(kids);
      var top, a, b :=
        Top(p, owner, parent, first), Laid(kids, owner, Some(first), first + 1), Laid(rest, owner, parent, mid);
      && Around(rows, pre + top, b + post, kids, owner, Some(first), first + 1)
      && Around(rows, pre + top + a, post, rest, owner, parent, mid)
      && top[0] in rows && ChildIds(rows, first) == ChildIds(a, first)
  {
    var mid := first + 1 + Size(kids);
    var hi := mid + Size(rest);
    var top, a, b :=
      Top(p, owner, parent, first), Laid(kids, owner, Some(first), first + 1), Laid(rest, owner, parent, mid);
    LaidSplits(p, kids, rest, owner, parent, first);
    NumberedRows(kids, owner, Some(first), first + 1);
    NumberedRows(rest, owner, parent, mid);
    AroundKids(pre, top, b, post, p, owner, parent, first, mid, hi);
    AroundRest(pre, top, a, post, p, owner, parent, first, mid, hi);
    NoChildrenAround(pre, top, b, post, p, owner, parent, first, mid, hi);
    ThreeParts(pre + top, a, b + post, first);
    RegroupAround(pre, top, a, b, post);
  }

  lemma NodeStored(p: Payload, kids: Forest<Payload>, rest: Forest<Payload>, owner: Id, parent: Option<Id>, first: Id,
                   rows: seq<Rec>)
    requires Rec(first, Row(owner, parent, p)) in rows
    requires ChildIds(rows, first) == TopIds(Number(kids, owner, Some(first), first + 1))
    requires Represents(rows, TopIds(Number(kids, owner, Some(first), first + 1)),
      Number(kids, owner, Some(first), first + 1))
    requires var mid := first + 1 + Size(kids);
      Represents(rows, TopIds(Number(rest, owner, parent, mid)), Number(rest, owner, parent, mid))
    ensures var f := Number(Tree(p, kids, rest), owner, parent, first);
      Represents(rows, TopIds(f), f)
  {
    RepresentsNode(rows, Number(Tree(p, kids, rest), owner, parent, first));
  }

  /** Stored rows represent the stored forest, also among rows that do not refer to them. */
  lemma {:induction false} StoredRepresents(g: Forest<Payload>, owner: Id, parent: Option<Id>, first: Id,
                                            pre: seq<Rec>, post: seq<Rec>, rows: seq<Rec>)
    requires 0 < first && (parent.Some? ==> 0 < parent.value < first)
    requires Around(rows, pre, post, g, owner, parent, first)
    ensures Represents(rows, TopIds(Number(g, owner, parent, first)), Number(g, owner, parent, first))
    decreases g
  {
    match g
    case Empty =>
    case Tree(p, kids, rest) =>
      var mid := first + 1 + Size(kids);
      var top, a, b :=
        Top(p, owner, parent, first), Laid(kids, owner, Some(first), first + 1), Laid(rest, owner, parent, mid);
      assert Represents(rows, TopIds(Number(kids, owner, Some(first), first + 1)),
        Number(kids, owner, Some(first), first + 1)) by {
        StoredParts(p, kids, rest, owner, parent, first, pre, post, rows);
        StoredRepresents(kids, owner, Some(first), first + 1, pre + top, b + post, rows);
      }
      assert Represents(rows, TopIds(Number(rest, owner, parent, mid)), Number(rest, owner, parent, mid)) by {
        StoredParts(p, kids, rest, owner, parent, first, pre, post, rows);
        StoredRepresents(rest, owner, parent, mid, pre + top + a, post, rows);
      }
      assert Rec(first, Row(owner, parent, p)) in rows
        && ChildIds(rows, first) == TopIds(Number(kids, owner, Some(first), first + 1)) by {
        StoredParts(p, kids, rest, owner, parent, first, pre, post, rows);
        TopsAreChildren(kids, owner, first, first + 1);
      }
      NodeStored(p, kids, rest, owner, parent, first, rows);
  }

  lemma AroundKids(pre: seq<Rec>, top: seq<Rec>, b: seq<Rec>, post: seq<Rec>, p: Payload, owner: Id, parent: Option<Id>,
                   first: Id, mid: Id, hi: Id)
    requires first < mid <= hi && (parent.Some? ==> parent.value < first) && top == Top(p, owner, parent, first)
    requires Foreign(pre, first, hi) && Foreign(post, first, hi) && Within(b, owner, parent, mid, hi)
    ensures Foreign(pre + top, first + 1, mid) && Foreign(b + post, first + 1, mid)
  {
    ForeignNarrows(pre, first, hi, first + 1, mid);
    ForeignJoins(pre, top, first + 1, mid);
    WithinIsForeign(b, owner, parent, mid, hi, first + 1, mid);
    ForeignNarrows(post, first, hi, first + 1, mid);
    ForeignJoins(b, post, first + 1, mid);
  }

  lemma AroundRest(pre: seq<Rec>, top: seq<Rec>, a: seq<Rec>, post: seq<Rec>, p: Payload, owner: Id, parent: Option<Id>,
                   first: Id, mid: Id, hi: Id)
    requires first < mid <= hi && (parent.Some? ==> parent.value < first) && top == Top(p, owner, parent, first)
    requires Foreign(pre, first, hi) && Foreign(post, first, hi) && Within(a, owner, Some(first), first + 1, mid)
    ensures Foreign(pre + top + a, mid, hi) && Foreign(post, mid, hi)
  {
    ForeignNarrows(pre, first, hi, mid, hi);
    ForeignNarrows(post, first, hi, mid, hi);
    ForeignJoins(pre, top, mid, hi);
    WithinIsForeign(a, owner, Some(first), first + 1, mid, mid, hi);
    ForeignJoins(pre + top, a, mid, hi);
  }

  lemma NoChildrenAround(pre: seq<Rec>, top: seq<Rec>, b: seq<Rec>, post: seq<Rec>, p: Payload, owner: Id,
                         parent: Option<Id>, first: Id, mid: Id, hi: Id)
    requires 0 < first < mid <= hi && (parent.Some? ==> parent.value < first) && top == Top(p, owner, parent, first)
    requires Foreign(pre, first, hi) && Foreign(post, first, hi) && Within(b, owner, parent, mid, hi)
    ensures ChildIds(pre + top, first) == [] && ChildIds(b + post, first) == []
  {
    ForeignNarrows(pre, first, hi, first, first + 1);
    ForeignNarrows(post, first, hi, first, first + 1);
    WithinIsForeign(b, owner, parent, mid, hi, first, first + 1);
    ForeignJoins(pre, top, first, first + 1);
    ForeignJoins(b, post, first, first + 1);
    ForeignHasNoChild(pre + top, first, first + 1);
    ForeignHasNoChild(b + post, first, first + 1);
  }

  // ---- grouping ----

  /** The trees of a forest whose top has key `k`, in order. */
  function Group(g: Forest<Payload>, k: Key): Forest<Payload> {
    match g
    case Empty => Empty
    case Tree(p, kids, rest) => if p.key == k then Tree(p, kids, Group(rest, k)) else Group(rest, k)
  }

  function GroupRecs(f: Forest<Rec>, k: Key): Forest<Rec> {
    match f
    case Empty => Empty
    case Tree(r, kids, rest) => if r.row.payload.key == k then Tree(r, kids, GroupRecs(rest, k)) else GroupRecs(rest, k)
  }

  lemma {:induction false} GroupCommutes(f: Forest<Rec>, k: Key)
    ensures Payloads(GroupRecs(f, k)) == Group(Payloads(f), k)
  {
    match f
    case Empty =>
    case Tree(_, _, rest) => GroupCommutes(rest, k);
  }

  lemma {:induction false} GroupRepresents(rows: seq<Rec>, f: Forest<Rec>, k: Key)
    requires Represents(rows, TopIds(f), f)
    ensures Represents(rows, TopIds(GroupRecs(f, k)), GroupRecs(f, k))
  {
    match f
    case Empty =>
    case Tree(_, _, rest) =>
      assert TopIds(f)[1..] == TopIds(rest);
      GroupRepresents(rows, rest, k);
      if f.root.row.payload.key == k {
        assert TopIds(GroupRecs(f, k))[1..] == TopIds(GroupRecs(rest, k));
      }
  }

  lemma {:induction false} TopsAreRoots(g: Forest<Payload>, owner: Id, first: Id, k: Key)
    requires 0 < first
    ensures RootIds(Laid(g, owner, None, first), k) == TopIds(GroupRecs(Number(g, owner, None, first), k))
    decreases g
  {
    match g
    case Empty =>
    case Tree(p, kids, rest) =>
      var mid := first + 1 + Size(kids);
      var top, a, b :=
        Top(p, owner, None, first), Laid(kids, owner, Some(first), first + 1), Laid(rest, owner, None, mid);
      KidsAreNoRoots(kids, owner, first, k);
      TopsAreRoots(rest, owner, mid, k);
      LaidSplits(p, kids, rest, owner, None, first);
      RootIdsAppend(top, a, k);
      RootIdsAppend(top + a, b, k);
      assert RootIds(top, k) == if p.key == k then [first] else [];
  }

  /** Fetching the rows of a stored forest gives, for each key, the stored trees of that key in their order. */
  lemma FetchStored(g: Forest<Payload>, owner: Id, first: Id, k: Key, f: Forest<Rec>)
    requires 0 < first
    requires Represents(Laid(g, owner, None, first), RootIds(Laid(g, owner, None, first), k), f)
    ensures Payloads(f) == Group(g, k)
  {
    var whole, rows := Number(g, owner, None, first), Laid(g, owner, None, first);
    assert [] + rows + [] == rows;
    StoredRepresents(g, owner, None, first, [], [], rows);
    GroupRepresents(rows, whole, k);
    TopsAreRoots(g, owner, first, k);
    NumberedRows(g, owner, None, first);
    RepresentsIsUnique(rows, RootIds(rows, k), f, GroupRecs(whole, k));
    GroupCommutes(whole, k);
    NumberKeepsPayloads(g, owner, None, first);
  }

  // ---- through the table ----

  predicate KeptAt(before: Table, after: Table, i: Id) {
    i in before.rows ==> i in after.rows && after.rows[i] == before.rows[i]
  }

  predicate AddedAt(before: Table, after: Table, r: Rec) {
    before.next <= r.id && r.id in after.rows && after.rows[r.id] == r.row
  }

  predicate FoundAt(before: Table, after: Table, rows: seq<Rec>, i: Id) {
    i in after.rows ==> i < after.next && (i in before.rows || Rec(i, after.rows[i]) in rows)
  }

  /** `after` is `before` plus the rows of the list. */
  ghost predicate Adds(before: Table, after: Table, rows: seq<Rec>) {
    && after.next == before.next + |rows|
    && (forall i {:trigger KeptAt(before, after, i)} :: KeptAt(before, after, i))
    && (forall r {:trigger AddedAt(before, after, r)} | r in rows :: AddedAt(before, after, r))
    && (forall i {:trigger FoundAt(before, after, rows, i)} :: FoundAt(before, after, rows, i))
  }

  lemma AddsChain(t0: Table, t1: Table, t2: Table, a: seq<Rec>, b: seq<Rec>)
    requires Adds(t0, t1, a) && Adds(t1, t2, b)
    ensures Adds(t0, t2, a + b)
  {
    forall i ensures KeptAt(t0, t2, i) && FoundAt(t0, t2, a + b, i) {
      assert KeptAt(t0, t1, i) && KeptAt(t1, t2, i) && FoundAt(t0, t1, a, i) && FoundAt(t1, t2, b, i);
    }
    forall r | r in a + b ensures AddedAt(t0, t2, r) {
      if r in a {
        assert AddedAt(t0, t1, r) && KeptAt(t1, t2, r.id);
      } else {
        assert AddedAt(t1, t2, r);
      }
    }
  }

  lemma InsertAdds(t: Table, p: Payload, owner: Id, parent: Option<Id>)
    requires forall i | i in t.rows :: i < t.next
    ensures Adds(t, Insert(t, Row(owner, parent, p)), Top(p, owner, parent, t.next))
  {
    var after, top := Insert(t, Row(owner, parent, p)), Top(p, owner, parent, t.next);
    forall i ensures FoundAt(t, after, top, i) {
      assert top[0] in top;
    }
  }

  lemma AddsBound(before: Table, after: Table, rows: seq<Rec>)
    requires Adds(before, after, rows)
    ensures forall i | i in after.rows :: i < after.next
  {
    forall i | i in after.rows ensures i < after.next {
      assert FoundAt(before, after, rows, i);
    }
  }

  lemma {:induction false} PutAdds(t: Table, g: Forest<Payload>, owner: Id, parent: Option<Id>)
    requires forall i | i in t.rows :: i < t.next
    ensures Adds(t, Put(t, g, owner, parent), Laid(g, owner, parent, t.next))
    decreases g
  {
    match g
    case Empty =>
    case Tree(p, kids, rest) =>
      var t1 := Insert(t, Row(owner, parent, p));
      var t2 := Put(t1, kids, owner, Some(t.next));
      var top, a := Top(p, owner, parent, t.next), Laid(kids, owner, Some(t.next), t.next + 1);
      InsertAdds(t, p, owner, parent);
      PutAdds(t1, kids, owner, Some(t.next));
      AddsBound(t1, t2, a);
      PutAdds(t2, rest, owner, parent);
      LaidSize(kids, owner, Some(t.next), t.next + 1);
      LaidSplits(p, kids, rest, owner, parent, t.next);
      AddsChain(t, t1, t2, top, a);
      AddsChain(t, t2, Put(t2, rest, owner, parent), top + a, Laid(rest, owner, parent, t2.next));
  }

  /** After an update the rows of the draft, read in key order, are exactly the stored forest in depth-first order. */
  lemma RewrittenLists(t: Table, owners: set<Id>, draft: Id, params: Forest<Input>, side: Side)
    requires TableOk(t, owners)
    ensures var rows := Laid(Normal(params, Missing, side), draft, None, t.next);
      Lists(rows, Rewritten(t, draft, params, side), draft) && Ascending(rows)
  {
    var g := Normal(params, Missing, side);
    var before, after, rows := DropOwners(t, {draft}), Rewritten(t, draft, params, side), Laid(g, draft, None, t.next);
    PutAdds(before, g, draft, None);
    NumberedRows(g, draft, None, t.next);
    forall r | r in rows ensures r.row.owner == draft && r.id in after.rows && after.rows[r.id] == r.row {
      assert WithinAt(r, draft, None, t.next, t.next + Size(g)) && AddedAt(before, after, r);
    }
    forall i | i in after.rows && after.rows[i].owner == draft ensures Rec(i, after.rows[i]) in rows {
      assert KeptAt(before, after, i) && FoundAt(before, after, rows, i);
    }
  }

  lemma SameLast(a: seq<Rec>, b: seq<Rec>)
    requires Ascending(a) && Ascending(b) && a != [] && b != [] && forall r :: r in a <==> r in b
    ensures a[|a| - 1] == b[|b| - 1]
  {
    assert a[|a| - 1] in b && b[|b| - 1] in a;
  }

  lemma SameInit(a: seq<Rec>, b: seq<Rec>, last: Rec)
    requires Ascending(a + [last]) && Ascending(b + [last]) && forall r :: r in a + [last] <==> r in b + [last]
    ensures forall r :: r in a <==> r in b
  {
    forall r ensures r in a ==> r in b {
      if r in a {
        assert r in a + [last] && r.id < last.id by {
          var i :| 0 <= i < |a| && a[i] == r;
          assert (a + [last])[i] == r && (a + [last])[|a|] == last;
        }
      }
    }
    forall r ensures r in b ==> r in a {
      if r in b {
        assert r in b + [last] && r.id < last.id by {
          var i :| 0 <= i < |b| && b[i] == r;
          assert (b + [last])[i] == r && (b + [last])[|b|] == last;
        }
      }
    }
  }

  lemma {:induction false} AscendingIsUnique(a: seq<Rec>, b: seq<Rec>)
    requires Ascending(a) && Ascending(b) && forall r :: r in a <==> r in b
    ensures a == b
    decreases |a|
  {
    assert b != [] ==> b[0] in a;
    if a != [] {
      assert a[0] in b;
      SameLast(a, b);
      var a', b', last := a[..|a| - 1], b[..|b| - 1], a[|a| - 1];
      assert a == a' + [last] && b == b' + [last];
      SameInit(a', b', last);
      AscendingIsUnique(a', b');
    }
  }

  /**
   * Update, then fetch: reading the draft's rows in key order and rebuilding the trees gives, for each location or
   * status code, the trees of the normalised input that were given for it, in the same order.
   */
  lemma UpdateThenFetch(t: Table, owners: set<Id>, draft: Id, params: Forest<Input>, side: Side, rows: seq<Rec>, k: Key,
                        f: Forest<Rec>)
    requires TableOk(t, owners)
    requires Lists(rows, Rewritten(t, draft, params, side), draft) && Ascending(rows)
    requires Represents(rows, RootIds(rows, k), f)
    ensures Payloads(f) == Group(Normal(params, Missing, side), k)
  {
    var g := Normal(params, Missing, side);
    RewrittenLists(t, owners, draft, params, side);
    ListsAgree(rows, Laid(g, draft, None, t.next), Rewritten(t, draft, params, side), draft);
    AscendingIsUnique(rows, Laid(g, draft, None, t.next));
    FetchStored(g, draft, t.next, k, f);
  }

  lemma ListsAgree(a: seq<Rec>, b: seq<Rec>, t: Table, owner: Id)
    requires Lists(a, t, owner) && Lists(b, t, owner)
    ensures forall r :: r in a <==> r in b
  {
    forall r ensures r in a <==> r in b {
      if r in a {
        assert r == Rec(r.id, t.rows[r.id]);
      }
      if r in b {
        assert r == Rec(r.id, t.rows[r.id]);
      }
    }
  }
}
