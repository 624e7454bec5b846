/** The task record shared by the parent and the child screens (`data/Message.kt`). */
module Messages {

  /**
   * One task. `timestamp` is epoch milliseconds. Only `isCompleted` is ever
   * changed after construction, and only through `WithCompleted`.
   */
  datatype Message = Message(
    id: string,
    text: string,
    icon: string,
    isCompleted: bool,
    timestamp: int,
    familyId: string)

  /** The record built by the no-argument constructor; `now` is the clock reading. */
  function DefaultMessage(now: int): (m: Message)
    ensures m.id == [] && m.text == [] && m.icon == [] && m.familyId == []
    ensures !m.isCompleted && m.timestamp == now
  {
    Message([], [], [], false, now, [])
  }

  /** The one mutation the app performs on a record: assigning `isCompleted`. */
  function WithCompleted(m: Message, completed: bool): (r: Message)
    ensures r.isCompleted == completed
    ensures r.id == m.id && r.text == m.text && r.icon == m.icon
    ensures r.timestamp == m.timestamp && r.familyId == m.familyId
    ensures completed == m.isCompleted ==> r == m
  {
    m.(isCompleted := completed)
  }

  /** `getDisplayText()`: the icon, a space and the text, or just the text when there is no icon. */
  function DisplayText(m: Message): (r: string)
    ensures |r| == (if m.icon == [] then |m.text| else |m.icon| + 1 + |m.text|)
    ensures r[|r| - |m.text|..] == m.text
    ensures m.icon != [] ==> r[..|m.icon|] == m.icon && r[|m.icon|] == ' '
    ensures m.icon == [] ==> r == m.text
  {
    if m.icon != [] then m.icon + " " + m.text else m.text
  }

  /** `count { it.isCompleted }`: the number of completed records. */
  function CountCompleted(s: seq<Message>): (n: nat)
    ensures n <= |s|
    ensures n == |s| <==> forall k :: 0 <= k < |s| ==> s[k].isCompleted
    ensures n == 0 <==> forall k :: 0 <= k < |s| ==> !s[k].isCompleted
  {
    if s == [] then 0
    else (if s[0].isCompleted then 1 else 0) + CountCompleted(s[1..])
  }

  /** Removing one record lowers the count by exactly that record's contribution. */
  lemma {:induction false} CountCompletedRemove(t: seq<Message>, j: nat)
    requires j < |t|
    ensures CountCompleted(t) == CountCompleted(t[..j] + t[j + 1..]) + (if t[j].isCompleted then 1 else 0)
    decreases j
  {
    if j == 0 {
      assert t[..j] + t[j + 1..] == t[1..];
    } else {
      CountCompletedRemove(t[1..], j - 1);
      assert t[..j] + t[j + 1..] == [t[0]] + (t[1..][..j - 1] + t[1..][j..]);
    }
  }

  /** The count depends only on which records are present, not on their order. */
  lemma {:induction false} CountCompletedMultiset(s: seq<Message>, t: seq<Message>)
    requires multiset(s) == multiset(t)
    ensures CountCompleted(s) == CountCompleted(t)
    decreases |s|
  {
    if s == [] {
      assert |t| == |multiset(t)|;
    } else {
      assert s[0] in multiset(t);
      var j :| 0 <= j < |t| && t[j] == s[0];
      var t' := t[..j] + t[j + 1..];
      MultisetRemoveAt(t, j);
      MultisetTail(s);
      CountCompletedMultiset(s[1..], t');
      CountCompletedRemove(t, j);
    }
  }

  /** Removing the element at one position removes one occurrence of it. */
  lemma MultisetRemoveAt(t: seq<Message>, j: nat)
    requires j < |t|
    ensures multiset(t[..j] + t[j + 1..]) == multiset(t) - multiset{t[j]}
  {
    assert t == t[..j] + [t[j]] + t[j + 1..];
  }

  /** Dropping the first element removes one occurrence of it. */
  lemma MultisetTail(s: seq<Message>)
    requires s != []
    ensures multiset(s[1..]) == multiset(s) - multiset{s[0]}
  {
    assert s == [s[0]] + s[1..];
  }
}
