/** Definitions shared by the back end and the front end of the blog: document
    identifiers, an optional value, and the order-keeping filter that both
    JavaScript's `Array.prototype.filter` and a MongoDB `find` with an equality
    condition perform. */
module Prelude {

  /** Document and user identifiers (MongoDB ObjectIds in their string form).
      User ids and comment ids share one type because the comment controller
      compares one against the other. */
  type Id = string

  datatype Option<T> = None | Some(value: T)

  /** A user field as the front end receives it: the bare id string, or the
      user object that a Mongoose `populate` puts in place of the id. A
      strict comparison of the stored id string with such an object is never
      equal. */
  datatype UserRef = ById(user: Id) | Populated(user: Id)

  /** The elements of `s` that pass `keep`, in their original order. */
  function Filter<T(!new)>(s: seq<T>, keep: T -> bool): (r: seq<T>)
    ensures |r| <= |s|
    ensures forall x :: x in r <==> x in s && keep(x)
  {
    if s == [] then []
    else
      assert s == [s[0]] + s[1..];
      (if keep(s[0]) then [s[0]] else []) + Filter(s[1..], keep)
  }

  /** Filtering a concatenation filters each part: the elements that are kept
      keep their relative order. */
  lemma {:induction false} FilterAppend<T(!new)>(a: seq<T>, b: seq<T>, keep: T -> bool)
    ensures Filter(a + b, keep) == Filter(a, keep) + Filter(b, keep)
  {
    if a == [] {
      assert a + b == b;
    } else {
      assert (a + b)[0] == a[0];
      assert (a + b)[1..] == a[1..] + b;
      FilterAppend(a[1..], b, keep);
    }
  }

  /** A filter that keeps every element returns its input. */
  lemma {:induction false} FilterKeepsAll<T(!new)>(s: seq<T>, keep: T -> bool)
    requires forall x :: x in s ==> keep(x)
    ensures Filter(s, keep) == s
  {
    if s != [] {
      assert forall x :: x in s[1..] ==> x in s;
      FilterKeepsAll(s[1..], keep);
    }
  }

  /** `s` with every occurrence of `x` removed: the `.filter(id => id !== x)`
      and `$pull` operations on the back-reference arrays of a post. */
  function Pull(s: seq<Id>, x: Id): (r: seq<Id>)
    ensures x !in r
    ensures forall y :: y in r <==> y in s && y != x
  {
    Filter(s, (y: Id) => y != x)
  }

  /** Pulling an id that is absent changes nothing. */
  lemma PullAbsent(s: seq<Id>, x: Id)
    requires x !in s
    ensures Pull(s, x) == s
  {
    FilterKeepsAll(s, (y: Id) => y != x);
  }

  /** Pulling an id just appended to a list that did not hold it gives back the
      list: the array half of the like/unlike round trip. */
  lemma PullAppended(s: seq<Id>, x: Id)
    requires x !in s
    ensures Pull(s + [x], x) == s
  {
    var keep := (y: Id) => y != x;
    FilterAppend(s, [x], keep);
    assert Filter([x], keep) == [];
    PullAbsent(s, x);
  }

  /** Pulling `x` keeps everything before and after one occurrence of it in
      order. */
  lemma PullKeepsOrder(a: seq<Id>, x: Id, b: seq<Id>)
    ensures Pull(a + [x] + b, x) == Pull(a, x) + Pull(b, x)
  {
    var keep := (y: Id) => y != x;
    var ax := a + [x];
    FilterAppend(ax, b, keep);
    FilterAppend(a, [x], keep);
    var fx := Filter([x], keep);
    assert fx == [];
    assert Filter(ax, keep) == Filter(a, keep);
  }
}
