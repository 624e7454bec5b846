/**
 * The child screen (`ChildActivity.kt`): it shows every task of the family,
 * incomplete ones first, with a progress bar and an all-done view, and lets
 * the child toggle a task behind one in-flight flag shared by all tasks.
 */
module ChildActivity {
  import opened Wrappers
  import opened Messages
  import opened Ordering
  import opened Remote
  import opened ChildAdapter

  /** Every record of a snapshot that parsed, in snapshot order; no field is checked. */
  function ParsedRecords(snapshot: seq<Option<Message>>): (r: seq<Message>)
    ensures |r| <= |snapshot|
    ensures |r| == |snapshot| <==> None !in snapshot
  {
    if snapshot == [] then []
    else
      var n := |snapshot|;
      var last := snapshot[n - 1];
      assert snapshot == snapshot[..n - 1] + [last];
      ParsedRecords(snapshot[..n - 1]) + (if last.Some? then [last.value] else [])
  }

  /** Every parsed record is kept, as many times as the snapshot holds it. */
  lemma {:induction false} ParsedRecordsCount(snapshot: seq<Option<Message>>, x: Message)
    ensures multiset(ParsedRecords(snapshot))[x] == multiset(snapshot)[Some(x)]
    decreases |snapshot|
  {
    if snapshot != [] {
      var n := |snapshot|;
      ParsedRecordsCount(snapshot[..n - 1], x);
      assert snapshot == snapshot[..n - 1] + [snapshot[n - 1]];
    }
  }

  /** One more snapshot entry adds exactly its parsed record, if any. */
  lemma ParsedRecordsStep(snapshot: seq<Option<Message>>, i: nat)
    requires i < |snapshot|
    ensures ParsedRecords(snapshot[..i + 1]) ==
      ParsedRecords(snapshot[..i]) + (if snapshot[i].Some? then [snapshot[i].value] else [])
  {
    assert snapshot[..i + 1][..i] == snapshot[..i];
  }

  /** `a * t <= b * t` for `a <= b` and `t >= 0`. */
  lemma MulMonotone(a: int, b: int, t: nat)
    requires a <= b
    ensures a * t <= b * t
  {
    var d := b - a;
    assert b * t == a * t + d * t;
  }

  /** The integer percentage `c * 100 / t` of a part `c` of a positive whole `t`. */
  lemma PercentBounds(c: nat, t: nat)
    requires c <= t && 0 < t
    ensures 0 <= c * 100 / t <= 100
    ensures c * 100 / t == 100 <==> c == t
  {
    var q := c * 100 / t;
    var rem := c * 100 % t;
    assert c * 100 == q * t + rem && 0 <= rem < t;
    MulMonotone(c, t, 100);
    if q > 100 {
      MulMonotone(101, q, t);
      assert false;
    }
    if c == t {
      assert c * 100 == 100 * t + 0;
      if q < 100 {
        MulMonotone(q, 99, t);
        assert false;
      }
    } else {
      MulMonotone(c, t - 1, 100);
      if q >= 100 {
        MulMonotone(100, q, t);
        assert false;
      }
    }
  }

  /** `updateProgress`: the completed share in whole percent, rounded down; 0 for an empty list. */
  function Progress(list: seq<Message>): (p: nat)
    ensures p <= 100
    ensures list == [] ==> p == 0
    ensures p == 100 <==> list != [] && forall k :: 0 <= k < |list| ==> list[k].isCompleted
    ensures p == 0 <== forall k :: 0 <= k < |list| ==> !list[k].isCompleted
    ensures list != [] ==> p == CountCompleted(list) * 100 / |list|
  {
    var total := |list|;
    var completed := CountCompleted(list);
    if total > 0 then
      PercentBounds(completed, total);
      completed * 100 / total
    else 0
  }

  /** `checkAllTasksCompleted`: there is a task and every task is done. */
  predicate AllTasksCompleted(list: seq<Message>)
  {
    list != [] && forall k :: 0 <= k < |list| ==> list[k].isCompleted
  }

  /** Integer division by a positive divisor keeps the order of the dividends. */
  lemma DivMonotone(a: int, b: int, t: int)
    requires a <= b && t > 0
    ensures a / t <= b / t
  {
    var qa, qb := a / t, b / t;
    assert a == qa * t + a % t && 0 <= a % t < t;
    assert b == qb * t + b % t && 0 <= b % t < t;
    if qa > qb {
      MulMonotone(qb + 1, qa, t);
      assert false;
    }
  }

  /**
   * Completing one open task raises the completed count by one and never
   * lowers the progress; the total stays.
   */
  lemma CompletingRaisesProgress(list: seq<Message>, i: nat)
    requires i < |list| && !list[i].isCompleted
    ensures var done := list[i := WithCompleted(list[i], true)];
      CountCompleted(done) == CountCompleted(list) + 1 && Progress(done) >= Progress(list)
  {
    var done := list[i := WithCompleted(list[i], true)];
    CountCompletedRemove(list, i);
    CountCompletedRemove(done, i);
    assert done[..i] + done[i + 1..] == list[..i] + list[i + 1..];
    DivMonotone(CountCompleted(list) * 100, CountCompleted(done) * 100, |list|);
  }

  /** What `updateUI` shows. */
  datatype ChildView =
    | EmptyState
    | Board(completed: nat, total: nat, progress: nat, allDone: bool)

  /**
   * `updateUI`: an empty list shows the empty state and nothing else;
   * otherwise the counts, the progress and whether the all-done view opens.
   */
  function UpdateUI(list: seq<Message>): (v: ChildView)
    ensures v.EmptyState? <==> list == []
    ensures v.Board? ==> v.total == |list| && v.completed <= v.total && v.progress <= 100
    ensures v.Board? ==> (v.allDone <==> v.progress == 100) && (v.allDone <==> v.completed == v.total)
    ensures v.Board? ==> v.completed == CountCompleted(list) && v.progress == Progress(list)
    ensures v.Board? ==> (v.allDone <==> AllTasksCompleted(list))
  {
    if list == [] then EmptyState
    else Board(CountCompleted(list), |list|, Progress(list), AllTasksCompleted(list))
  }

  /** `indexOfFirst { it.id == id }`: the first position holding that id, or -1. */
  function IndexOfId(s: seq<Message>, id: string): (r: int)
    ensures -1 <= r < |s|
    ensures r == -1 <==> forall k :: 0 <= k < |s| ==> s[k].id != id
    ensures r >= 0 ==> s[r].id == id && forall k :: 0 <= k < r ==> s[k].id != id
  {
    if s == [] then -1
    else if s[0].id == id then 0
    else
      var r := IndexOfId(s[1..], id);
      if r == -1 then -1 else r + 1
  }

  /**
   * The failure callback's list repair: the first entry with the toggled
   * task's id gets back the completion the task had when it was toggled;
   * every other entry, and every other field, stays as it is.
   */
  function Rollback(list: seq<Message>, m: Message): (r: seq<Message>)
    ensures |r| == |list|
    ensures forall k :: 0 <= k < |list| && k != IndexOfId(list, m.id) ==> r[k] == list[k]
    ensures forall k :: 0 <= k < |list| ==> r[k].id == list[k].id && r[k].timestamp == list[k].timestamp
    ensures IndexOfId(list, m.id) >= 0 ==> r[IndexOfId(list, m.id)] == WithCompleted(list[IndexOfId(list, m.id)], m.isCompleted)
    ensures (forall k :: 0 <= k < |list| ==> list[k].id != m.id) ==> r == list
  {
    var i := IndexOfId(list, m.id);
    if i == -1 then list else list[i := WithCompleted(list[i], m.isCompleted)]
  }

  /**
   * The screen never changes its list before the write succeeds, so while
   * the list still shows the toggled task as it was, the rollback leaves
   * the list exactly as it is.
   */
  lemma RollbackOfUnchangedListIsIdentity(list: seq<Message>, m: Message)
    requires m in list
    requires forall k :: 0 <= k < |list| && list[k].id == m.id ==> list[k] == m
    ensures Rollback(list, m) == list
  {
  }

  /** The child screen's state: the list it shares with its adapter, the toggle flag and the requests it has issued. */
  class ChildScreen {
    const familyId: string
    const messageList: MessageList
    const adapter: ChildMessageAdapter
    var isUpdatingMessage: bool
    /** The task whose completion write awaits its callback. */
    var inFlight: Option<Message>
    var requests: seq<Request>

    /** The adapter renders the screen's own list object, and the flag is up exactly while a write is in flight. */
    ghost predicate Valid()
      reads this, adapter
    {
      adapter.messages == messageList && (isUpdatingMessage <==> inFlight.Some?)
    }

    constructor(familyId: string)
      ensures this.familyId == familyId && messageList.items == [] && requests == []
      ensures !isUpdatingMessage && fresh(messageList) && fresh(adapter)
      ensures Valid()
    {
      this.familyId := familyId;
      var list := new MessageList();
      messageList := list;
      adapter := new ChildMessageAdapter(list);
      isUpdatingMessage := false;
      inFlight := None;
      requests := [];
    }

    /**
     * `toggleMessageCompletion`: ignored while any toggle is in flight;
     * otherwise raise the flag and issue exactly one write, of the negated
     * completion, to that task's `isCompleted` field. The list is not touched.
     */
    method ToggleMessageCompletion(message: Message)
      modifies this`isUpdatingMessage, this`inFlight, this`requests
      ensures old(Valid()) ==> Valid()
      ensures old(isUpdatingMessage) ==>
        isUpdatingMessage && inFlight == old(inFlight) && requests == old(requests)
      ensures !old(isUpdatingMessage) ==>
        isUpdatingMessage && inFlight == Some(message) &&
        requests == old(requests) + [SetMessageCompleted(message.id, !message.isCompleted)]
    {
      if !isUpdatingMessage {
        isUpdatingMessage := true;
        inFlight := Some(message);
        var newStatus := !message.isCompleted;
        requests := requests + [SetMessageCompleted(message.id, newStatus)];
      }
    }

    /** The success callback: release the flag; celebrate when the task was just completed. */
    method OnToggleSuccess() returns (celebrate: bool)
      requires inFlight.Some?
      modifies this`isUpdatingMessage, this`inFlight
      ensures celebrate <==> !old(inFlight).value.isCompleted
      ensures !isUpdatingMessage && inFlight == None
      ensures old(Valid()) ==> Valid()
    {
      celebrate := !inFlight.value.isCompleted;
      isUpdatingMessage := false;
      inFlight := None;
    }

    /** The failure callback: restore the listed task's completion and release the flag. */
    method OnToggleFailure()
      requires Valid() && inFlight.Some?
      modifies this`isUpdatingMessage, this`inFlight, messageList
      ensures messageList.items == Rollback(old(messageList.items), old(inFlight).value)
      ensures !isUpdatingMessage && inFlight == None
      ensures Valid()
    {
      var message := inFlight.value;
      var index := IndexOfId(messageList.items, message.id);
      if index != -1 {
        messageList.items := messageList.items[index := WithCompleted(messageList.items[index], message.isCompleted)];
      }
      isUpdatingMessage := false;
      inFlight := None;
    }

    /**
     * `onDataChange`: collect every parsed record, sort incomplete first and
     * newest first within each group, hand the result to the adapter (which
     * replaces the shared list's contents), and refresh the view.
     */
    method OnDataChange(snapshot: seq<Option<Message>>) returns (view: ChildView)
      requires Valid()
      modifies messageList
      ensures messageList.items == SortBy(IncompleteFirst, ParsedRecords(snapshot))
      ensures view == UpdateUI(messageList.items)
      ensures adapter.ItemCount() == |ParsedRecords(snapshot)|
      ensures Valid()
    {
      var newMessages: seq<Message> := [];
      var i := 0;
      while i < |snapshot|
        invariant 0 <= i <= |snapshot|
        invariant newMessages == ParsedRecords(snapshot[..i])
      {
        var parsed := snapshot[i];
        if parsed.Some? {
          newMessages := newMessages + [parsed.value];
        }
        ParsedRecordsStep(snapshot, i);
        i := i + 1;
      }
      assert snapshot[..i] == snapshot;
      newMessages := SortBy(IncompleteFirst, newMessages);
      adapter.UpdateMessages(newMessages);
      view := UpdateUI(messageList.items);
    }
  }

  /**
   * After any snapshot the child's list holds every parsed record as often
   * as the snapshot does, all incomplete tasks before all completed ones and
   * newest first within each group.
   */
  lemma ChildListAfterSnapshot(snapshot: seq<Option<Message>>, x: Message)
    ensures var list := SortBy(IncompleteFirst, ParsedRecords(snapshot));
      multiset(list)[x] == multiset(snapshot)[Some(x)] &&
      forall i, j :: 0 <= i < j < |list| ==>
        (list[j].isCompleted ==> list[i].isCompleted ==> list[i].timestamp >= list[j].timestamp) &&
        (!list[j].isCompleted ==> !list[i].isCompleted && list[i].timestamp >= list[j].timestamp)
  {
    var list := SortBy(IncompleteFirst, ParsedRecords(snapshot));
    ParsedRecordsCount(snapshot, x);
    IncompleteFirstSortedMeans(list);
  }
}
