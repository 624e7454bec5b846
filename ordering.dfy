/**
 * The two list orders the screens apply after every snapshot. Both are
 * Kotlin's stable sorts: `sortByDescending { it.timestamp }` on the parent
 * screen and `sortWith(compareBy { it.isCompleted }.thenByDescending { it.timestamp })`
 * on the child screen. `SortBy` is a stable insertion sort; its results are
 * proved sorted, a permutation of the input, and order-preserving among
 * records the order cannot tell apart.
 */
module Ordering {
  import opened Messages

  datatype Order =
    | Newest           // parent: newest first
    | IncompleteFirst  // child: incomplete before complete, newest first within each group

  /** The group a record falls in: only the child order separates completed records. */
  function Group(o: Order, m: Message): nat
  {
    if o == IncompleteFirst && m.isCompleted then 1 else 0
  }

  /** `a` must come strictly before `b`. */
  predicate Precedes(o: Order, a: Message, b: Message)
  {
    Group(o, a) < Group(o, b) || (Group(o, a) == Group(o, b) && a.timestamp > b.timestamp)
  }

  /** The order cannot tell `a` and `b` apart (the comparator returns 0). */
  predicate Tied(o: Order, a: Message, b: Message)
  {
    Group(o, a) == Group(o, b) && a.timestamp == b.timestamp
  }

  /** No later record must come before an earlier one. */
  predicate Sorted(o: Order, s: seq<Message>)
  {
    forall i, j :: 0 <= i < j < |s| ==> !Precedes(o, s[j], s[i])
  }

  /** No record of `s` must come before `b`. */
  predicate NoneBefore(o: Order, s: seq<Message>, b: Message)
  {
    forall k :: 0 <= k < |s| ==> !Precedes(o, s[k], b)
  }

  /** "Not strictly before" is transitive: the comparator is a total preorder. */
  lemma NotPrecedesTransitive(o: Order, a: Message, b: Message, c: Message)
    requires !Precedes(o, c, b) && !Precedes(o, b, a)
    ensures !Precedes(o, c, a)
  {
  }

  lemma ConsSorted(o: Order, y: Message, t: seq<Message>)
    requires Sorted(o, t) && NoneBefore(o, t, y)
    ensures Sorted(o, [y] + t)
  {
    var r := [y] + t;
    forall i, j | 0 <= i < j < |r| ensures !Precedes(o, r[j], r[i]) {
      if i == 0 {
        assert r[j] == t[j - 1];
      } else {
        assert r[i] == t[i - 1] && r[j] == t[j - 1];
      }
    }
  }

  lemma HeadBoundsSorted(o: Order, x: Message, s: seq<Message>)
    requires Sorted(o, s) && (s == [] || !Precedes(o, s[0], x))
    ensures NoneBefore(o, s, x)
  {
    forall k | 0 <= k < |s| ensures !Precedes(o, s[k], x) {
      if k > 0 {
        NotPrecedesTransitive(o, x, s[0], s[k]);
      }
    }
  }

  /** Places `x` ahead of every record it is not strictly behind. */
  function Insert(o: Order, x: Message, s: seq<Message>): (r: seq<Message>)
    requires Sorted(o, s)
    ensures Sorted(o, r)
    ensures multiset(r) == multiset(s) + multiset{x}
    ensures |r| == |s| + 1
    ensures forall b :: NoneBefore(o, s, b) && !Precedes(o, x, b) ==> NoneBefore(o, r, b)
    decreases |s|
  {
    if s == [] || !Precedes(o, s[0], x) then
      HeadBoundsSorted(o, x, s);
      ConsSorted(o, x, s);
      [x] + s
    else
      assert s == [s[0]] + s[1..];
      var t := Insert(o, x, s[1..]);
      assert NoneBefore(o, s[1..], s[0]);
      assert !Precedes(o, x, s[0]);
      ConsSorted(o, s[0], t);
      [s[0]] + t
  }

  /** The stable sort: sort the tail, then insert the head in front of its equals. */
  function SortBy(o: Order, s: seq<Message>): (r: seq<Message>)
    ensures Sorted(o, r)
    ensures multiset(r) == multiset(s)
    ensures |r| == |s|
  {
    if s == [] then []
    else
      assert s == [s[0]] + s[1..];
      Insert(o, s[0], SortBy(o, s[1..]))
  }

  /** The records of `s` that the order cannot tell apart from `m`, in their order in `s`. */
  function TiedWith(o: Order, s: seq<Message>, m: Message): (r: seq<Message>)
    ensures |r| <= |s|
  {
    if s == [] then []
    else (if Tied(o, s[0], m) then [s[0]] else []) + TiedWith(o, s[1..], m)
  }

  lemma TiedWithCons(o: Order, a: Message, t: seq<Message>, m: Message)
    ensures TiedWith(o, [a] + t, m) == (if Tied(o, a, m) then [a] else []) + TiedWith(o, t, m)
  {
    assert ([a] + t)[1..] == t;
  }

  lemma {:induction false} InsertTiedWith(o: Order, x: Message, s: seq<Message>, m: Message)
    requires Sorted(o, s)
    ensures TiedWith(o, Insert(o, x, s), m) == (if Tied(o, x, m) then [x] else []) + TiedWith(o, s, m)
    decreases |s|
  {
    if s == [] || !Precedes(o, s[0], x) {
      TiedWithCons(o, x, s, m);
    } else {
      var t := Insert(o, x, s[1..]);
      assert Insert(o, x, s) == [s[0]] + t;
      assert s == [s[0]] + s[1..];
      InsertTiedWith(o, x, s[1..], m);
      TiedBehindHead(o, s[0], x, s[1..], t, m);
    }
  }

  /** A head that `x` is strictly behind does not disturb where `x` sits among the records tied with `m`. */
  lemma TiedBehindHead(o: Order, a: Message, x: Message, u: seq<Message>, t: seq<Message>, m: Message)
    requires Precedes(o, a, x)
    requires TiedWith(o, t, m) == (if Tied(o, x, m) then [x] else []) + TiedWith(o, u, m)
    ensures TiedWith(o, [a] + t, m) == (if Tied(o, x, m) then [x] else []) + TiedWith(o, [a] + u, m)
  {
    TiedWithCons(o, a, t, m);
    TiedWithCons(o, a, u, m);
    if Tied(o, a, m) {
      // `x` is strictly behind `a`, so it cannot be tied with `m` too.
      assert !Tied(o, x, m);
    }
  }

  /** Stability: among records the order cannot tell apart, the sort keeps input order. */
  lemma {:induction false} SortByStable(o: Order, s: seq<Message>, m: Message)
    ensures TiedWith(o, SortBy(o, s), m) == TiedWith(o, s, m)
    decreases |s|
  {
    if s != [] {
      SortByStable(o, s[1..], m);
      InsertTiedWith(o, s[0], SortBy(o, s[1..]), m);
    }
  }

  /** The parent order: timestamps never increase along the list. */
  lemma NewestSortedMeans(s: seq<Message>)
    ensures Sorted(Newest, s) <==> forall i, j :: 0 <= i < j < |s| ==> s[i].timestamp >= s[j].timestamp
  {
  }

  /**
   * The child order: every incomplete record comes before every completed one,
   * and timestamps never increase within each of the two groups.
   */
  lemma IncompleteFirstSortedMeans(s: seq<Message>)
    ensures Sorted(IncompleteFirst, s) <==>
      (forall i, j :: 0 <= i < j < |s| ==> (s[i].isCompleted ==> s[j].isCompleted)) &&
      (forall i, j :: 0 <= i < j < |s| && s[i].isCompleted == s[j].isCompleted ==> s[i].timestamp >= s[j].timestamp)
  {
  }

  /** Sorting an already sorted list changes nothing. */
  lemma {:induction false} SortBySortedIdentity(o: Order, s: seq<Message>)
    requires Sorted(o, s)
    ensures SortBy(o, s) == s
    decreases |s|
  {
    if s != [] {
      assert Sorted(o, s[1..]);
      SortBySortedIdentity(o, s[1..]);
      assert SortBy(o, s[1..]) == s[1..];
      assert s[1..] == [] || !Precedes(o, s[1..][0], s[0]);
      assert [s[0]] + s[1..] == s;
    }
  }
}
