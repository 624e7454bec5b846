/**
 * The home screen (`MainActivity.kt`): it refuses to start without a
 * family, watches the family record, derives the status shown and which
 * mode buttons work, and marks the device connected whenever it resumes.
 */
module MainActivity {
  import opened Wrappers
  import opened Remote
  import opened FamilyManager
  import opened SetupActivity

  const MILLIS_PER_MINUTE: int := 1000 * 60

  /** What `verifyFamilyConfiguration` decides. */
  datatype StartDecision = RedirectToSetup | Monitor(familyId: string)

  /** `verifyFamilyConfiguration`: no stored id, or an empty one, sends the user to setup. */
  function VerifyFamilyConfiguration(familyId: Option<string>): (d: StartDecision)
    ensures d == RedirectToSetup <==> familyId.GetOr([]) == []
    ensures d.Monitor? ==> familyId == Some(d.familyId) && d.familyId != []
  {
    if familyId.GetOr([]) == [] then RedirectToSetup else Monitor(familyId.value)
  }

  /** Kotlin's `/` on `Long`: the quotient rounded toward zero. */
  function TruncDiv(a: int, b: int): (q: int)
    requires b > 0
    ensures a >= 0 ==> 0 <= q && q * b <= a < q * b + b
    ensures a < 0 ==> q <= 0 && q * b - b < a <= q * b
  {
    if a >= 0 then
      EuclidBounds(a, b);
      a / b
    else
      EuclidBounds(-a, b);
      assert -((-a) / b) * b == -(((-a) / b) * b);
      -((-a) / b)
  }

  /** For a non-negative dividend the quotient is non-negative and brackets it. */
  lemma EuclidBounds(a: int, b: int)
    requires a >= 0 && b > 0
    ensures 0 <= a / b && (a / b) * b <= a < (a / b) * b + b
  {
    assert a == (a / b) * b + a % b && 0 <= a % b < b;
  }

  /** A truncated quotient is positive exactly when the dividend reaches the divisor. */
  lemma TruncDivPositive(a: int, b: int)
    requires b > 0
    ensures TruncDiv(a, b) > 0 <==> a >= b
  {
    var q := TruncDiv(a, b);
    if q > 0 {
      MulAtLeast(q, b);
    }
  }

  /** `q * b >= b` for positive `q` and `b`. */
  lemma MulAtLeast(q: int, b: int)
    requires q >= 1 && b > 0
    ensures q * b >= b
  {
    assert q * b == (q - 1) * b + b;
  }

  /** The "minutes ago" line: shown only for a recorded activity at least one whole minute old. */
  function MinutesAgo(lastActivity: int, now: int): (m: Option<int>)
    ensures m.Some? <==> lastActivity > 0 && now - lastActivity >= MILLIS_PER_MINUTE
    ensures m.Some? ==> m.value >= 1 && m.value * MILLIS_PER_MINUTE <= now - lastActivity < (m.value + 1) * MILLIS_PER_MINUTE
  {
    if lastActivity > 0 then
      var timeDiff := now - lastActivity;
      var minutesAgo := TruncDiv(timeDiff, MILLIS_PER_MINUTE);
      TruncDivPositive(timeDiff, MILLIS_PER_MINUTE);
      if minutesAgo > 0 then Some(minutesAgo) else None
    else None
  }

  /** What the family listener leads to. */
  datatype StatusView =
    | FamilyDeleted
    | FamilyNotActive
    | StatusShown(parentConnected: bool, childConnected: bool, minutesAgo: Option<int>,
                  isConnected: bool, parentModeEnabled: bool, childModeEnabled: bool)

  /**
   * The listener's `onDataChange` and `updateFamilyStatus`: an absent record
   * is the deleted path; a status other than "active" (a missing one counts
   * as active) is the inactive path; otherwise the connection flags, the
   * minutes since the last activity, and the mode buttons, which work
   * exactly when this device's role is connected.
   */
  function FamilyStatus(snapshot: Option<FamilySnapshot>, isParent: bool, now: int): (v: StatusView)
    ensures v == FamilyDeleted <==> snapshot.None?
    ensures v == FamilyNotActive <==> snapshot.Some? && snapshot.value.status.GetOr("active") != "active"
    ensures v.StatusShown? ==>
      v.parentConnected == snapshot.value.parentConnected.GetOr(false) &&
      v.childConnected == snapshot.value.childConnected.GetOr(false) &&
      v.minutesAgo == MinutesAgo(snapshot.value.lastActivity.GetOr(0), now)
    ensures v.StatusShown? ==>
      (v.isConnected <==> (if isParent then v.parentConnected else v.childConnected)) &&
      v.parentModeEnabled == v.isConnected && v.childModeEnabled == v.isConnected
  {
    if snapshot.None? then FamilyDeleted
    else
      var s := snapshot.value;
      var parentConnected := s.parentConnected.GetOr(false);
      var childConnected := s.childConnected.GetOr(false);
      var status := s.status.GetOr("active");
      var lastActivity := s.lastActivity.GetOr(0);
      if status != "active" then FamilyNotActive
      else
        var isConnected := if isParent then parentConnected else childConnected;
        StatusShown(parentConnected, childConnected, MinutesAgo(lastActivity, now), isConnected, isConnected, isConnected)
  }

  /**
   * Right after creation the parent's buttons work and the child's do not;
   * once the child has joined (`childConnected` set), the child's work too.
   */
  lemma NewFamilyConnectionByRole(name: string, created: int, now: int)
    ensures FamilyStatus(Some(Snapshot(NewFamilyRecord(name, created))), true, now).isConnected
    ensures !FamilyStatus(Some(Snapshot(NewFamilyRecord(name, created))), false, now).isConnected
    ensures FamilyStatus(Some(Snapshot(NewFamilyRecord(name, created).(childConnected := true))), false, now).isConnected
  {
  }

  /**
   * The home screen: the configuration store, the family reference it
   * opened, the number of status listeners registered on that reference,
   * and the requests it has issued.
   */
  class MainScreen {
    const store: FamilyStore
    /** The family id the database reference was built for, once built. */
    var familyRef: Option<string>
    /** Status listeners registered and not yet removed. */
    var listeners: nat
    var requests: seq<Request>

    ghost predicate Valid()
      reads this, store
    {
      store.Valid() && (familyRef.Some? ==> familyRef.value != [])
    }

    constructor(store: FamilyStore)
      requires store.Valid()
      ensures this.store == store && familyRef == None && listeners == 0 && requests == [] && Valid()
    {
      this.store := store;
      familyRef := None;
      listeners := 0;
      requests := [];
    }

    /**
     * `monitorFamilyStatus`: with a stored id, register one more status
     * listener and stamp the family's last activity. The previous listener,
     * if any, stays registered.
     */
    method MonitorFamilyStatus(now: int)
      requires Valid() && familyRef.Some?
      modifies this`listeners, this`requests, store`prefs
      ensures Valid() && store.backup == old(store.backup)
      ensures store.prefs == AfterIdRead(old(store.prefs), now)
      ensures KEY_FAMILY_ID !in old(store.prefs) ==> listeners == old(listeners) && requests == old(requests)
      ensures KEY_FAMILY_ID in old(store.prefs) ==>
        listeners == old(listeners) + 1 && requests == old(requests) + [SetLastActivity(familyRef.value, now)]
    {
      var familyId := store.GetFamilyId(now);
      if familyId.Some? {
        listeners := listeners + 1;
        requests := requests + [SetLastActivity(familyRef.value, now)];
      }
    }

    /**
     * `onCreate`: without a stored id, redirect and build no reference;
     * otherwise build the reference for that id and start monitoring it.
     */
    method OnCreate(now: int) returns (d: StartDecision)
      requires Valid()
      modifies this`familyRef, this`listeners, this`requests, store`prefs
      ensures Valid() && store.backup == old(store.backup)
      ensures store.prefs == AfterIdRead(old(store.prefs), now)
      ensures d == VerifyFamilyConfiguration(StringPref(old(store.prefs), KEY_FAMILY_ID))
      ensures d == RedirectToSetup ==> familyRef == old(familyRef) && listeners == old(listeners) && requests == old(requests)
      ensures d.Monitor? ==>
        familyRef == Some(d.familyId) && listeners == old(listeners) + 1 &&
        requests == old(requests) + [SetLastActivity(d.familyId, now)]
    {
      var familyId := store.GetFamilyId(now);
      d := VerifyFamilyConfiguration(familyId);
      if d.Monitor? {
        familyRef := Some(d.familyId);
        // `setupUI` reads the id again to show it; that read changes nothing more.
        var shown := store.GetFamilyId(now);
        MonitorFamilyStatus(now);
      }
    }

    /** The refresh menu item: monitor again, which adds a second listener. */
    method Refresh(now: int)
      requires Valid() && familyRef.Some?
      modifies this`listeners, this`requests, store`prefs
      ensures Valid() && store.backup == old(store.backup)
      ensures store.prefs == AfterIdRead(old(store.prefs), now)
      ensures KEY_FAMILY_ID !in old(store.prefs) ==> listeners == old(listeners) && requests == old(requests)
      ensures KEY_FAMILY_ID in old(store.prefs) ==>
        listeners == old(listeners) + 1 && requests == old(requests) + [SetLastActivity(familyRef.value, now)]
    {
      MonitorFamilyStatus(now);
    }

    /** `onDestroy`: only the most recently registered listener is removed. */
    method OnDestroy()
      modifies this`listeners
      ensures listeners == if old(listeners) > 0 then old(listeners) - 1 else 0
    {
      if listeners > 0 {
        listeners := listeners - 1;
      }
    }

    /**
     * `onResume`: with a stored id, stamp the last activity and set this
     * role's connection flag (`parentConnected` for a parent,
     * `childConnected` for a child) on the family the screen opened.
     */
    method OnResume(now: int)
      requires Valid() && familyRef.Some?
      modifies this`requests, store`prefs
      ensures Valid() && store.backup == old(store.backup)
      ensures store.prefs == AfterIdRead(old(store.prefs), now)
      ensures KEY_FAMILY_ID !in old(store.prefs) ==> requests == old(requests)
      ensures KEY_FAMILY_ID in old(store.prefs) ==>
        requests == old(requests) + [
          SetLastActivity(familyRef.value, now),
          SetConnected(familyRef.value, if BoolPref(old(store.prefs), KEY_IS_PARENT) == Some(true) then ParentConnected else ChildConnected)]
    {
      var familyId := store.GetFamilyId(now);
      if familyId.GetOr([]) != [] {
        requests := requests + [SetLastActivity(familyRef.value, now)];
        var connectionKey := if store.IsParent() then ParentConnected else ChildConnected;
        requests := requests + [SetConnected(familyRef.value, connectionKey)];
      }
    }

    /** `resetMessages`: one removal of the stored family's messages when an id is stored. */
    method ResetMessages(now: int)
      requires Valid()
      modifies this`requests, store`prefs
      ensures Valid() && store.backup == old(store.backup)
      ensures store.prefs == AfterIdRead(old(store.prefs), now)
      ensures KEY_FAMILY_ID !in old(store.prefs) ==> requests == old(requests)
      ensures KEY_FAMILY_ID in old(store.prefs) ==>
        requests == old(requests) + [RemoveAllMessages(StringPref(old(store.prefs), KEY_FAMILY_ID).value)]
    {
      var familyId := store.GetFamilyId(now);
      if familyId.Some? {
        requests := requests + [RemoveAllMessages(familyId.value)];
      }
    }

    /**
     * The OK of the deleted-family and inactive-family dialogs, and the
     * confirmed total reset: clear the configuration (backing it up) and
     * go back to setup.
     */
    method LeaveFamily(now: int)
      requires Valid()
      modifies store
      ensures Valid()
      ensures store.prefs == map[] && store.backup == BackedUp(old(store.prefs), old(store.backup), now)
    {
      store.ClearFamilyConfig(now);
    }
  }

  /**
   * Opening the home screen, refreshing once and leaving it leaves one
   * status listener registered: the refresh's listener is removed, the
   * first one is not.
   */
  method RefreshLeavesListener(familyId: string, now: int) returns (remaining: nat)
    requires IsValidFamilyId(Some(familyId))
    ensures remaining == 1
  {
    var store := new FamilyStore();
    var ok := store.SaveFamilyConfig(familyId, true, "Rumah", now);
    var screen := new MainScreen(store);
    var d := screen.OnCreate(now);
    screen.Refresh(now);
    screen.OnDestroy();
    remaining := screen.listeners;
  }
}
