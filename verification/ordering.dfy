/** The comparators a replies view sorts by, and the sort itself. */
module Ordering {
  import opened Contents

  /** The two creation-time comparators of the list widget. */
  datatype Comparator = CreatedAtAscending | CreatedAtDescending

  /** The `order` option: a comparator and the visible-items-at-head flag. */
  datatype Order = Order(comparator: Comparator, showVisibleItemsAtHead: bool)

  /** The integer a comparator orders by: an item precedes another when its key is smaller. */
  function Key(cmp: Comparator, c: Content): int {
    match cmp
    case CreatedAtAscending => c.createdAt
    case CreatedAtDescending => -c.createdAt
  }

  /** `s` is in the order `cmp` sorts into. */
  predicate SortedBy(cmp: Comparator, s: seq<Content>) {
    forall i, j :: 0 <= i < j < |s| ==> Key(cmp, s[i]) <= Key(cmp, s[j])
  }

  /** `s` is in the reverse of the order `cmp` sorts into. */
  predicate SortedAgainst(cmp: Comparator, s: seq<Content>) {
    forall i, j :: 0 <= i < j < |s| ==> Key(cmp, s[i]) >= Key(cmp, s[j])
  }

  /** Inserts `x` into a sorted sequence, in front of every item with an equal key. */
  function Insert(cmp: Comparator, x: Content, s: seq<Content>): (r: seq<Content>)
    requires SortedBy(cmp, s)
    ensures SortedBy(cmp, r)
    ensures multiset(r) == multiset(s) + multiset{x}
    ensures |r| == |s| + 1 && (r[0] == x || (|s| > 0 && r[0] == s[0]))
    decreases |s|
  {
    if |s| == 0 then [x]
    else if Key(cmp, x) <= Key(cmp, s[0]) then
      ConsSorted(cmp, x, s);
      [x] + s
    else
      var rest := Insert(cmp, x, s[1..]);
      assert s == [s[0]] + s[1..];
      ConsSorted(cmp, s[0], rest);
      [s[0]] + rest
  }

  /** Putting an item no later than the head in front of a sorted sequence keeps it sorted. */
  lemma ConsSorted(cmp: Comparator, h: Content, t: seq<Content>)
    requires SortedBy(cmp, t)
    requires |t| > 0 ==> Key(cmp, h) <= Key(cmp, t[0])
    ensures SortedBy(cmp, [h] + t)
  {
  }

  /** `Array.prototype.sort` with a creation-time comparator: a sorted permutation of `s`. */
  function Sort(cmp: Comparator, s: seq<Content>): (r: seq<Content>)
    ensures SortedBy(cmp, r)
    ensures multiset(r) == multiset(s)
    decreases |s|
  {
    if |s| == 0 then []
    else
      assert s == [s[0]] + s[1..];
      Insert(cmp, s[0], Sort(cmp, s[1..]))
  }

  /** The items of `s`, last first. */
  function Reverse<T>(s: seq<T>): (r: seq<T>)
    ensures |r| == |s|
    ensures forall i :: 0 <= i < |s| ==> r[i] == s[|s| - 1 - i]
  {
    seq(|s|, i requires 0 <= i < |s| => s[|s| - 1 - i])
  }

  /** Reversing a sequence keeps its items and their multiplicities. */
  lemma {:induction false} ReversePermutes<T>(s: seq<T>)
    ensures multiset(Reverse(s)) == multiset(s)
    decreases |s|
  {
    if |s| > 0 {
      var r := Reverse(s);
      var tail := s[1..];
      ReversePermutes(tail);
      assert r == Reverse(tail) + [s[0]];
      assert s == [s[0]] + tail;
    }
  }

  /** Reversing a sequence sorted by `cmp` puts it in the opposite order. */
  lemma ReverseSorted(cmp: Comparator, s: seq<Content>)
    requires SortedBy(cmp, s)
    ensures SortedAgainst(cmp, Reverse(s))
  {
  }
}
