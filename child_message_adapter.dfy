/**
 * The child's list adapter (`ChildMessageAdapter.kt`): it renders a list it
 * shares with the child screen, replaces that list's contents in place on
 * every update, compares items for the diff, and guards the complete button
 * of each row against double taps.
 */
module ChildAdapter {
  import opened Wrappers
  import opened Messages

  /** The `MutableList<Message>` handed to the adapter; the child screen holds the same object. */
  class MessageList {
    var items: seq<Message>

    constructor()
      ensures items == []
    {
      items := [];
    }

    /** `clear()`. */
    method Clear()
      modifies this
      ensures items == []
    {
      items := [];
    }

    /** `addAll(xs)`: appends in order. */
    method AddAll(xs: seq<Message>)
      modifies this
      ensures items == old(items) + xs
    {
      items := items + xs;
    }
  }

  /** `MessageDiffCallback.areItemsTheSame`: the two positions hold the same task. */
  predicate AreItemsTheSame(oldList: seq<Message>, newList: seq<Message>, oldPos: nat, newPos: nat)
    requires oldPos < |oldList| && newPos < |newList|
  {
    oldList[oldPos].id == newList[newPos].id
  }

  /** `MessageDiffCallback.areContentsTheSame`: the row would render the same. */
  predicate AreContentsTheSame(oldList: seq<Message>, newList: seq<Message>, oldPos: nat, newPos: nat)
    requires oldPos < |oldList| && newPos < |newList|
  {
    SameContents(oldList[oldPos], newList[newPos])
  }

  /** Text, icon and completion agree. */
  predicate SameContents(a: Message, b: Message)
  {
    a.text == b.text && a.icon == b.icon && a.isCompleted == b.isCompleted
  }

  /**
   * The content comparison ignores the timestamp and the family id: a
   * record that differs only in those fields counts as unchanged; and rows
   * with the same contents show the same display text.
   */
  lemma ContentsIgnoreTimestampAndFamily(a: Message, b: Message, timestamp: int, familyId: string)
    ensures SameContents(a, b) <==> SameContents(a, b.(timestamp := timestamp, familyId := familyId))
    ensures SameContents(a, b) ==> DisplayText(a) == DisplayText(b)
  {
  }

  /** A toggle changes a row's contents exactly when it changes the completion. */
  lemma ToggleChangesContents(m: Message, completed: bool)
    ensures SameContents(m, WithCompleted(m, completed)) <==> completed == m.isCompleted
    ensures WithCompleted(m, completed).id == m.id
  {
  }

  /** An update that repeats the current list reports every position as the same item with the same contents. */
  lemma IdenticalListsAllSame(s: seq<Message>, k: nat)
    requires k < |s|
    ensures AreItemsTheSame(s, s, k, k) && AreContentsTheSame(s, s, k, k)
  {
  }

  /** The adapter; `messages` is the list object it was constructed with. */
  class ChildMessageAdapter {
    const messages: MessageList

    constructor(messages: MessageList)
      ensures this.messages == messages
    {
      this.messages := messages;
    }

    /** `getItemCount`. */
    function ItemCount(): (n: nat)
      reads messages
      ensures n == |messages.items|
    {
      |messages.items|
    }

    /** `updateMessages`: clear the shared list, then add the new messages, keeping their order. */
    method UpdateMessages(newMessages: seq<Message>)
      modifies messages
      ensures messages.items == newMessages && ItemCount() == |newMessages|
    {
      messages.Clear();
      messages.AddAll(newMessages);
    }
  }

  /** One row: the message it was last bound to, its complete button, and the presses whose animation is running. */
  class MessageViewHolder {
    var bound: Option<Message>
    var buttonEnabled: bool
    /** Messages captured by clicks whose press animation has not ended, oldest first. */
    var pressed: seq<Message>

    constructor()
      ensures bound == None && !buttonEnabled && pressed == []
    {
      bound := None;
      buttonEnabled := false;
      pressed := [];
    }

    /** `bind` and `updateCompletionState`: the complete button is enabled exactly for a task not yet done. */
    method Bind(m: Message)
      modifies this
      ensures bound == Some(m)
      ensures buttonEnabled <==> !m.isCompleted
      ensures pressed == old(pressed)
    {
      bound := Some(m);
      buttonEnabled := !m.isCompleted;
    }

    /** The click listener: a disabled button ignores the click; an enabled one disables itself and starts the press. */
    method Click()
      modifies this
      ensures !old(buttonEnabled) || old(bound).None? ==>
        buttonEnabled == old(buttonEnabled) && pressed == old(pressed) && bound == old(bound)
      ensures old(buttonEnabled) && old(bound).Some? ==>
        !buttonEnabled && pressed == old(pressed) + [old(bound).value] && bound == old(bound)
    {
      if bound.Some? && buttonEnabled {
        buttonEnabled := false;
        pressed := pressed + [bound.value];
      }
    }

    /**
     * The end of the oldest press animation: the button is re-enabled for a
     * task not done, and the completion callback receives that press's
     * message, exactly once.
     */
    method PressAnimationEnd() returns (callback: Option<Message>)
      modifies this
      ensures old(pressed) == [] ==> callback == None && buttonEnabled == old(buttonEnabled) && pressed == []
      ensures old(pressed) != [] ==>
        callback == Some(old(pressed)[0]) && pressed == old(pressed)[1..] &&
        (buttonEnabled <==> !old(pressed)[0].isCompleted)
      ensures bound == old(bound)
    {
      if pressed == [] {
        callback := None;
      } else {
        var m := pressed[0];
        buttonEnabled := !m.isCompleted;
        pressed := pressed[1..];
        callback := Some(m);
      }
    }
  }

  /**
   * A double tap on a freshly bound row yields at most one callback: with
   * the bound message when the task is not done, none when it is.
   */
  method DoubleTapCallsBackOnce(m: Message) returns (first: Option<Message>, second: Option<Message>)
    ensures first == (if m.isCompleted then None else Some(m))
    ensures second == None
  {
    var row := new MessageViewHolder();
    row.Bind(m);
    row.Click();
    row.Click();
    first := row.PressAnimationEnd();
    second := row.PressAnimationEnd();
  }
}
