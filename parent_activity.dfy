/**
 * The parent screen (`ParentActivity.kt`): it rebuilds its task list from
 * every snapshot, keeps statistics, and creates tasks behind an in-flight
 * flag so that a second tap cannot start a second write.
 */
module ParentActivity {
  import opened Wrappers
  import opened Text
  import opened Messages
  import opened Ordering
  import opened Remote

  const MAX_TEXT_LENGTH: nat := 100
  const MAX_ICON_LENGTH: nat := 2

  /** The outcome of `validateInputs`; each rejection names the rule that failed first. */
  datatype InputCheck = Accepted | EmptyText | TextTooLong | IconTooLong

  /** `validateInputs` on the trimmed text and icon. */
  function ValidateInputs(text: string, icon: string): (r: InputCheck)
    ensures r == Accepted <==> 1 <= |text| <= MAX_TEXT_LENGTH && |icon| <= MAX_ICON_LENGTH
    ensures r == EmptyText <==> text == []
    ensures r == TextTooLong <==> |text| > MAX_TEXT_LENGTH
    ensures r == IconTooLong <==> 1 <= |text| <= MAX_TEXT_LENGTH && |icon| > MAX_ICON_LENGTH
  {
    if text == [] then EmptyText
    else if |text| > MAX_TEXT_LENGTH then TextTooLong
    else if |icon| > MAX_ICON_LENGTH then IconTooLong
    else Accepted
  }

  /**
   * `updateCreateButtonState`: the button is enabled for a non-empty trimmed
   * text of at most 100 characters, an (untrimmed) icon of at most 2, and no
   * create in flight.
   */
  predicate CreateButtonEnabled(rawText: string, rawIcon: string, creating: bool)
  {
    var text := Trim(rawText);
    text != [] && |text| <= MAX_TEXT_LENGTH && |rawIcon| <= MAX_ICON_LENGTH && !creating
  }

  /** An enabled button always leads to inputs that `validateInputs` accepts. */
  lemma CreateButtonEnabledImpliesAccepted(rawText: string, rawIcon: string, creating: bool)
    requires CreateButtonEnabled(rawText, rawIcon, creating)
    ensures ValidateInputs(Trim(rawText), Trim(rawIcon)) == Accepted
    ensures !creating
  {
  }

  /** The record `createMessage` writes: the pushed key, the inputs, not completed, stamped now. */
  function NewTask(id: string, text: string, icon: string, familyId: string, now: int): (m: Message)
    ensures m.id == id && m.text == text && m.icon == icon && m.familyId == familyId
    ensures !m.isCompleted && m.timestamp == now
  {
    Message(id, text, icon, false, now, familyId)
  }

  /** The parent only lists records with a text and a family id. */
  predicate IsVisible(m: Message)
  {
    m.text != [] && m.familyId != []
  }

  /** The records of a snapshot that parsed and are visible, in snapshot order. */
  function VisibleRecords(snapshot: seq<Option<Message>>): (r: seq<Message>)
    ensures |r| <= |snapshot|
    ensures forall k :: 0 <= k < |r| ==> IsVisible(r[k])
  {
    if snapshot == [] then []
    else
      var last := snapshot[|snapshot| - 1];
      assert snapshot == snapshot[..|snapshot| - 1] + [last];
      VisibleRecords(snapshot[..|snapshot| - 1]) + (if last.Some? && IsVisible(last.value) then [last.value] else [])
  }

  /**
   * The rebuilt list holds each visible parsed record exactly as many times
   * as the snapshot does, and no other record.
   */
  lemma {:induction false} VisibleRecordsCount(snapshot: seq<Option<Message>>, x: Message)
    ensures multiset(VisibleRecords(snapshot))[x] == if IsVisible(x) then multiset(snapshot)[Some(x)] else 0
    ensures x in VisibleRecords(snapshot) <==> Some(x) in snapshot && IsVisible(x)
    decreases |snapshot|
  {
    if snapshot != [] {
      var n := |snapshot|;
      VisibleRecordsCount(snapshot[..n - 1], x);
      assert snapshot == snapshot[..n - 1] + [snapshot[n - 1]];
    }
  }

  /** One more snapshot entry adds at most that entry, and only when it is visible. */
  lemma VisibleRecordsStep(snapshot: seq<Option<Message>>, i: nat)
    requires i < |snapshot|
    ensures VisibleRecords(snapshot[..i + 1]) ==
      VisibleRecords(snapshot[..i]) + (if snapshot[i].Some? && IsVisible(snapshot[i].value) then [snapshot[i].value] else [])
  {
    assert snapshot[..i + 1][..i] == snapshot[..i];
  }

  /** What `updateStatistics` is given. */
  datatype Statistics = Statistics(total: nat, completed: nat, pending: nat)

  /** Total, completed and pending counts of a list. */
  function ComputeStatistics(list: seq<Message>): (s: Statistics)
    ensures s.total == |list| && s.completed == CountCompleted(list)
    ensures s.completed + s.pending == s.total
    ensures s.pending == 0 <==> forall k :: 0 <= k < |list| ==> list[k].isCompleted
    ensures s.completed == 0 <==> forall k :: 0 <= k < |list| ==> !list[k].isCompleted
  {
    var c := CountCompleted(list);
    Statistics(|list|, c, |list| - c)
  }

  /** The statistics after a snapshot do not depend on the order the list is shown in. */
  lemma StatisticsIgnoreOrder(snapshot: seq<Option<Message>>)
    ensures ComputeStatistics(SortBy(Newest, VisibleRecords(snapshot))).completed == CountCompleted(VisibleRecords(snapshot))
    ensures ComputeStatistics(SortBy(Newest, VisibleRecords(snapshot))).total == |VisibleRecords(snapshot)|
  {
    var v := VisibleRecords(snapshot);
    CountCompletedMultiset(SortBy(Newest, v), v);
  }

  /**
   * Round trip: a task created from accepted inputs and read back in a later
   * snapshot is listed by the parent with exactly the fields it was written with.
   */
  lemma CreatedTaskIsListed(snapshot: seq<Option<Message>>, id: string, text: string, icon: string, familyId: string, now: int)
    requires ValidateInputs(text, icon) == Accepted && familyId != []
    requires Some(NewTask(id, text, icon, familyId, now)) in snapshot
    ensures NewTask(id, text, icon, familyId, now) in SortBy(Newest, VisibleRecords(snapshot))
  {
    var m := NewTask(id, text, icon, familyId, now);
    var v := VisibleRecords(snapshot);
    VisibleRecordsCount(snapshot, m);
    assert m in multiset(v);
  }

  /** The parent screen's state: its list, the create flag and the requests it has issued. */
  class ParentScreen {
    const familyId: string
    var messageList: seq<Message>
    var isCreatingMessage: bool
    /** The record whose write awaits its success or failure callback. */
    var pendingCreate: Option<Message>
    var requests: seq<Request>

    /** The create flag is up exactly while a create write awaits its callback. */
    ghost predicate Valid()
      reads this
    {
      isCreatingMessage <==> pendingCreate.Some?
    }

    constructor(familyId: string)
      ensures this.familyId == familyId && messageList == [] && requests == []
      ensures !isCreatingMessage && pendingCreate == None
      ensures Valid()
    {
      this.familyId := familyId;
      messageList := [];
      isCreatingMessage := false;
      pendingCreate := None;
      requests := [];
    }

    /**
     * `onDataChange`: clear the list, append every parsed record that has a
     * text and a family id, sort newest first, and report the statistics.
     */
    method OnDataChange(snapshot: seq<Option<Message>>) returns (stats: Statistics)
      modifies this`messageList
      ensures messageList == SortBy(Newest, VisibleRecords(snapshot))
      ensures stats == ComputeStatistics(messageList)
    {
      messageList := [];
      var i := 0;
      while i < |snapshot|
        invariant 0 <= i <= |snapshot|
        invariant messageList == VisibleRecords(snapshot[..i])
      {
        var parsed := snapshot[i];
        if parsed.Some? && parsed.value.text != [] && parsed.value.familyId != [] {
          messageList := messageList + [parsed.value];
        }
        VisibleRecordsStep(snapshot, i);
        i := i + 1;
      }
      assert snapshot[..i] == snapshot;
      messageList := SortBy(Newest, messageList);
      stats := ComputeStatistics(messageList);
    }

    /**
     * `createMessage` as written: on a missing push key it returns with the
     * flag still set and nothing pending, so no callback ever clears it.
     */
    method CreateMessage(rawText: string, rawIcon: string, pushKey: Option<string>, now: int)
      modifies this`isCreatingMessage, this`pendingCreate, this`requests
      ensures ValidateInputs(Trim(rawText), Trim(rawIcon)) != Accepted ==>
        isCreatingMessage == old(isCreatingMessage) && pendingCreate == old(pendingCreate) && requests == old(requests)
      ensures ValidateInputs(Trim(rawText), Trim(rawIcon)) == Accepted && pushKey.None? ==>
        isCreatingMessage && pendingCreate == old(pendingCreate) && requests == old(requests)
      ensures ValidateInputs(Trim(rawText), Trim(rawIcon)) == Accepted && pushKey.Some? ==>
        var m := NewTask(pushKey.value, Trim(rawText), Trim(rawIcon), familyId, now);
        isCreatingMessage && pendingCreate == Some(m) && requests == old(requests) + [SetMessage(pushKey.value, m)]
    {
      var text := Trim(rawText);
      var icon := Trim(rawIcon);
      if ValidateInputs(text, icon) == Accepted {
        isCreatingMessage := true;
        if pushKey.Some? {
          var m := NewTask(pushKey.value, text, icon, familyId, now);
          requests := requests + [SetMessage(pushKey.value, m)];
          pendingCreate := Some(m);
        }
      }
    }

    /** `createMessage` with the flag cleared on the missing-key path as well. */
    method CreateMessageReleasing(rawText: string, rawIcon: string, pushKey: Option<string>, now: int)
      requires !isCreatingMessage
      modifies this`isCreatingMessage, this`pendingCreate, this`requests
      ensures old(Valid()) ==> Valid()
      ensures !(ValidateInputs(Trim(rawText), Trim(rawIcon)) == Accepted && pushKey.Some?) ==>
        !isCreatingMessage && pendingCreate == old(pendingCreate) && requests == old(requests)
      ensures ValidateInputs(Trim(rawText), Trim(rawIcon)) == Accepted && pushKey.Some? ==>
        var m := NewTask(pushKey.value, Trim(rawText), Trim(rawIcon), familyId, now);
        isCreatingMessage && pendingCreate == Some(m) && requests == old(requests) + [SetMessage(pushKey.value, m)]
    {
      var text := Trim(rawText);
      var icon := Trim(rawIcon);
      if ValidateInputs(text, icon) == Accepted {
        isCreatingMessage := true;
        if pushKey.Some? {
          var m := NewTask(pushKey.value, text, icon, familyId, now);
          requests := requests + [SetMessage(pushKey.value, m)];
          pendingCreate := Some(m);
        } else {
          isCreatingMessage := false;
        }
      }
    }

    /**
     * The create button's click handler as written: ignored while a create
     * is in flight, otherwise `createMessage`. Accepted inputs without a
     * push key leave the flag up with nothing pending.
     */
    method OnCreateClick(rawText: string, rawIcon: string, pushKey: Option<string>, now: int)
      modifies this`isCreatingMessage, this`pendingCreate, this`requests
      ensures old(isCreatingMessage) ==>
        isCreatingMessage && pendingCreate == old(pendingCreate) && requests == old(requests)
      ensures !old(isCreatingMessage) ==>
        (isCreatingMessage <==> ValidateInputs(Trim(rawText), Trim(rawIcon)) == Accepted)
      ensures !old(isCreatingMessage) && !(ValidateInputs(Trim(rawText), Trim(rawIcon)) == Accepted && pushKey.Some?) ==>
        pendingCreate == old(pendingCreate) && requests == old(requests)
      ensures !old(isCreatingMessage) && ValidateInputs(Trim(rawText), Trim(rawIcon)) == Accepted && pushKey.Some? ==>
        var m := NewTask(pushKey.value, Trim(rawText), Trim(rawIcon), familyId, now);
        pendingCreate == Some(m) && requests == old(requests) + [SetMessage(pushKey.value, m)]
      ensures old(Valid()) && !(ValidateInputs(Trim(rawText), Trim(rawIcon)) == Accepted && pushKey.None? && !old(isCreatingMessage)) ==> Valid()
    {
      if !isCreatingMessage {
        CreateMessage(rawText, rawIcon, pushKey, now);
      }
    }

    /** The click handler over the corrected create: the flag is up afterwards exactly while a write is pending. */
    method OnCreateClickReleasing(rawText: string, rawIcon: string, pushKey: Option<string>, now: int)
      modifies this`isCreatingMessage, this`pendingCreate, this`requests
      ensures old(isCreatingMessage) ==>
        isCreatingMessage && pendingCreate == old(pendingCreate) && requests == old(requests)
      ensures old(Valid()) ==> Valid()
      ensures !old(isCreatingMessage) ==>
        (isCreatingMessage <==> ValidateInputs(Trim(rawText), Trim(rawIcon)) == Accepted && pushKey.Some?)
      ensures !old(isCreatingMessage) && !isCreatingMessage ==>
        pendingCreate == old(pendingCreate) && requests == old(requests)
      ensures !old(isCreatingMessage) && isCreatingMessage ==>
        var m := NewTask(pushKey.value, Trim(rawText), Trim(rawIcon), familyId, now);
        pendingCreate == Some(m) && requests == old(requests) + [SetMessage(pushKey.value, m)]
    {
      if !isCreatingMessage {
        CreateMessageReleasing(rawText, rawIcon, pushKey, now);
      }
    }

    /** `onCreateSuccess`: release the flag and notify the child. */
    method OnCreateSuccess()
      requires pendingCreate.Some?
      modifies this`isCreatingMessage, this`pendingCreate, this`requests
      ensures !isCreatingMessage && pendingCreate == None && Valid()
      ensures requests == old(requests) + [NewTaskNotification(old(pendingCreate).value.text, old(pendingCreate).value.icon)]
    {
      var m := pendingCreate.value;
      isCreatingMessage := false;
      pendingCreate := None;
      requests := requests + [NewTaskNotification(m.text, m.icon)];
    }

    /** `onCreateFailure`: release the flag; nothing else changes. */
    method OnCreateFailure()
      requires pendingCreate.Some?
      modifies this`isCreatingMessage, this`pendingCreate
      ensures !isCreatingMessage && pendingCreate == None && Valid()
    {
      isCreatingMessage := false;
      pendingCreate := None;
    }

    /** `deleteMessage`: one remove request for that id; the list waits for the next snapshot. */
    method DeleteMessage(m: Message)
      modifies this`requests
      ensures requests == old(requests) + [RemoveMessage(m.id)]
    {
      requests := requests + [RemoveMessage(m.id)];
    }

    /** `showResetAllConfirmation`: the confirmation is offered only when the list is not empty. */
    method ShowResetAllConfirmation() returns (asked: bool)
      ensures asked <==> messageList != []
    {
      asked := messageList != [];
    }

    /** `resetAllMessages`: one remove request for the whole message collection. */
    method ResetAllMessages()
      modifies this`requests
      ensures requests == old(requests) + [RemoveAllMessages(familyId)]
    {
      requests := requests + [RemoveAllMessages(familyId)];
    }
  }

  /**
   * The missing-key path of `createMessage` locks the create button: the flag
   * stays up with no write pending, and a later click with a key is ignored.
   */
  method MissingPushKeyLocksCreation() returns (locked: bool)
    ensures locked
  {
    var screen := new ParentScreen("ABC123");
    screen.CreateMessage("Sikat gigi", "", None, 100);
    var before := screen.requests;
    screen.OnCreateClick("Sikat gigi", "", Some("key1"), 200);
    locked := screen.isCreatingMessage && screen.pendingCreate.None? && screen.requests == before;
  }
}
