/** Ordered forests: the first tree (its label and its children) followed by the remaining trees. */
module Forests {

  datatype Forest<+A> = Empty | Tree(root: A, kids: Forest<A>, rest: Forest<A>)

  function Size<A>(f: Forest<A>): nat {
    match f
    case Empty => 0
    case Tree(_, kids, rest) => 1 + Size(kids) + Size(rest)
  }

  function Append<A>(f: Forest<A>, g: Forest<A>): Forest<A> {
    match f
    case Empty => g
    case Tree(x, kids, rest) => Tree(x, kids, Append(rest, g))
  }

  /** The labels of the forest, each parent before its children. */
  function Preorder<A>(f: Forest<A>): seq<A> {
    match f
    case Empty => []
    case Tree(x, kids, rest) => [x] + Preorder(kids) + Preorder(rest)
  }

  lemma {:induction false} PreorderSize<A>(f: Forest<A>)
    ensures |Preorder(f)| == Size(f)
  {
    match f
    case Empty =>
    case Tree(_, kids, rest) =>
      PreorderSize(kids);
      PreorderSize(rest);
  }

  lemma {:induction false} AppendAssociative<A>(f: Forest<A>, g: Forest<A>, h: Forest<A>)
    ensures Append(Append(f, g), h) == Append(f, Append(g, h))
  {
    match f
    case Empty =>
    case Tree(_, _, rest) => AppendAssociative(rest, g, h);
  }
}
