/**
 * The setup screen (`SetupActivity.kt`): a parent creates a family, a child
 * joins one by its code. Both paths ask before replacing an existing
 * configuration, and both end by saving the configuration store.
 */
module SetupActivity {
  import opened Wrappers
  import opened Text
  import opened Remote
  import opened FamilyManager

  /** The join code as validated: the typed text trimmed and uppercased. */
  function NormalizeJoinCode(raw: string): (code: string)
    ensures |code| <= |raw|
    ensures code == [] || (!IsWhitespace(code[0]) && !IsWhitespace(code[|code| - 1]))
    ensures forall k :: 0 <= k < |code| ==> !('a' <= code[k] <= 'z')
  {
    Upper(Trim(raw))
  }

  /**
   * A code typed exactly as the parent was shown it, with any whitespace
   * around it, normalises back to that code.
   */
  lemma GeneratedCodeSurvivesNormalization(picks: seq<nat>, pre: string, suf: string)
    requires |picks| == FAMILY_ID_LENGTH
    requires forall k :: 0 <= k < |picks| ==> picks[k] < |CHARSET|
    requires forall k :: 0 <= k < |pre| ==> IsWhitespace(pre[k])
    requires forall k :: 0 <= k < |suf| ==> IsWhitespace(suf[k])
    ensures NormalizeJoinCode(pre + GenerateFamilyId(picks) + suf) == GenerateFamilyId(picks)
    ensures IsValidFamilyId(Some(NormalizeJoinCode(pre + GenerateFamilyId(picks) + suf)))
  {
    var id := GenerateFamilyId(picks);
    GeneratedIdIsValid(picks);
    CharsetChar(picks[0]);
    CharsetChar(picks[FAMILY_ID_LENGTH - 1]);
    TrimPadded(pre, id, suf);
  }

  /** Joining asks first exactly when another, non-empty family id is stored. */
  predicate NeedsJoinConfirmation(existing: Option<string>, code: string)
  {
    existing.GetOr([]) != [] && existing.value != code
  }

  /** Creating asks first whenever any non-empty family id is stored. */
  predicate NeedsCreateConfirmation(existing: Option<string>)
  {
    existing.GetOr([]) != []
  }

  /** Re-joining the family one is already in never asks; creating always does. */
  lemma RejoinNeverAsks(existing: Option<string>, code: string)
    requires existing == Some(code)
    ensures !NeedsJoinConfirmation(existing, code)
    ensures NeedsCreateConfirmation(existing) <==> code != []
  {
  }

  /** `familyData` in `createFamily`: the parent is connected, the child not yet, the family active. */
  function NewFamilyRecord(name: string, now: int): (r: FamilyRecord)
    ensures r.name == name && r.status == "active"
    ensures r.parentConnected && !r.childConnected
    ensures r.createdAt == now && r.lastActivity == now
  {
    FamilyRecord(name, now, true, false, "active", now)
  }

  /** What the join read decides. */
  datatype JoinOutcome = NotFound | FamilyInactive | Join(familyName: string)

  /**
   * `joinFamily`'s data callback: an absent family is not found; a missing
   * status counts as "active"; any other status refuses; otherwise join
   * under the stored name, or "Keluarga" when there is none.
   */
  function JoinDecision(snapshot: Option<FamilySnapshot>): (o: JoinOutcome)
    ensures o == NotFound <==> snapshot.None?
    ensures o == FamilyInactive <==> snapshot.Some? && snapshot.value.status.GetOr("active") != "active"
    ensures o.Join? ==> o.familyName == snapshot.value.name.GetOr("Keluarga")
  {
    if snapshot.None? then NotFound
    else
      var familyName := snapshot.value.name.GetOr("Keluarga");
      var status := snapshot.value.status.GetOr("active");
      if status != "active" then FamilyInactive else Join(familyName)
  }

  /** A family just created is found, active, and joined under the name it was created with. */
  lemma NewFamilyIsJoinable(name: string, now: int)
    ensures JoinDecision(Some(Snapshot(NewFamilyRecord(name, now)))) == Join(name)
  {
  }

  /** The error a setup field shows. */
  datatype SetupError = EmptyName | InvalidCode | CodeNotFound | NotActive

  /** An action waiting behind the replace-configuration dialog. */
  datatype Deferred = CreateFamilyNamed(familyName: string) | JoinFamilyCode(familyId: string)

  /** The setup screen: the configuration store, the open dialog, the create write and join read in flight, and its requests. */
  class SetupScreen {
    const store: FamilyStore
    var confirmation: Option<Deferred>
    /** The generated id and name of a family whose create write awaits its callback; the create button is disabled meanwhile. */
    var creating: Option<(string, string)>
    /** The code whose family read awaits its callback; the join button is disabled meanwhile. */
    var joining: Option<string>
    var error: Option<SetupError>
    var requests: seq<Request>

    /** The store is consistent, and every code held for later is a valid one (a generated id is also upper case). */
    ghost predicate Valid()
      reads this, store
    {
      store.Valid() &&
      (creating.Some? ==> IsValidFamilyId(Some(creating.value.0)) && Upper(creating.value.0) == creating.value.0) &&
      (joining.Some? ==> IsValidFamilyId(Some(joining.value))) &&
      (confirmation.Some? && confirmation.value.JoinFamilyCode? ==> IsValidFamilyId(Some(confirmation.value.familyId)))
    }

    constructor(store: FamilyStore)
      requires store.Valid()
      ensures this.store == store && Valid()
      ensures confirmation == None && creating == None && joining == None && error == None && requests == []
    {
      this.store := store;
      confirmation := None;
      creating := None;
      joining := None;
      error := None;
      requests := [];
    }

    /**
     * `checkExistingConfiguration`'s callback: a stored family that still
     * exists continues to the main screen; one that is gone has its
     * configuration cleared.
     */
    method OnExistingFamilyChecked(exists_: bool, now: int) returns (toMain: bool)
      requires Valid()
      modifies store
      ensures toMain <==> exists_
      ensures exists_ ==> store.prefs == old(store.prefs) && store.backup == old(store.backup)
      ensures !exists_ ==> store.prefs == map[] && store.backup == BackedUp(old(store.prefs), old(store.backup), now)
      ensures Valid()
    {
      toMain := exists_;
      if !exists_ {
        store.ClearFamilyConfig(now);
      }
    }

    /** `createFamily`: write a new family record under a freshly generated id. */
    method CreateFamily(familyName: string, picks: seq<nat>, now: int)
      requires Valid()
      requires |picks| == FAMILY_ID_LENGTH
      requires forall k :: 0 <= k < |picks| ==> picks[k] < |CHARSET|
      modifies this`creating, this`requests
      ensures Valid()
      ensures creating == Some((GenerateFamilyId(picks), familyName))
      ensures requests == old(requests) + [SetFamily(GenerateFamilyId(picks), NewFamilyRecord(familyName, now))]
    {
      var familyId := GenerateFamilyId(picks);
      GeneratedIdIsValid(picks);
      requests := requests + [SetFamily(familyId, NewFamilyRecord(familyName, now))];
      creating := Some((familyId, familyName));
    }

    /**
     * `createNewFamily` once the trimmed name is accepted: with a configured
     * family the replace dialog opens; otherwise the family is created.
     */
    method CreateOrConfirm(familyName: string, picks: seq<nat>, now: int)
      requires Valid() && creating.None?
      requires |picks| == FAMILY_ID_LENGTH
      requires forall k :: 0 <= k < |picks| ==> picks[k] < |CHARSET|
      modifies this`confirmation, this`creating, this`requests, store`prefs
      ensures Valid() && store.backup == old(store.backup) && error == old(error)
      ensures store.prefs == AfterIdRead(old(store.prefs), now)
      ensures NeedsCreateConfirmation(StringPref(old(store.prefs), KEY_FAMILY_ID)) ==>
        confirmation == Some(CreateFamilyNamed(familyName)) && creating == None && requests == old(requests)
      ensures !NeedsCreateConfirmation(StringPref(old(store.prefs), KEY_FAMILY_ID)) ==>
        confirmation == old(confirmation) &&
        creating == Some((GenerateFamilyId(picks), familyName)) &&
        requests == old(requests) + [SetFamily(GenerateFamilyId(picks), NewFamilyRecord(familyName, now))]
    {
      var existingFamilyId := store.GetFamilyId(now);
      if NeedsCreateConfirmation(existingFamilyId) {
        confirmation := Some(CreateFamilyNamed(familyName));
      } else {
        CreateFamily(familyName, picks, now);
      }
    }

    /**
     * `createNewFamily`: an empty trimmed name is refused before anything
     * else; otherwise the configured family is checked as above.
     */
    method CreateNewFamily(rawName: string, picks: seq<nat>, now: int)
      requires Valid() && creating.None?
      requires |picks| == FAMILY_ID_LENGTH
      requires forall k :: 0 <= k < |picks| ==> picks[k] < |CHARSET|
      modifies this`confirmation, this`creating, this`error, this`requests, store`prefs
      ensures Valid() && store.backup == old(store.backup)
      ensures Trim(rawName) == [] ==>
        error == Some(EmptyName) && creating == None && requests == old(requests) && confirmation == old(confirmation) &&
        store.prefs == old(store.prefs)
      ensures Trim(rawName) != [] ==>
        store.prefs == AfterIdRead(old(store.prefs), now)
      ensures Trim(rawName) != [] && NeedsCreateConfirmation(StringPref(old(store.prefs), KEY_FAMILY_ID)) ==>
        confirmation == Some(CreateFamilyNamed(Trim(rawName))) && creating == None && requests == old(requests)
      ensures Trim(rawName) != [] && !NeedsCreateConfirmation(StringPref(old(store.prefs), KEY_FAMILY_ID)) ==>
        confirmation == old(confirmation) &&
        creating == Some((GenerateFamilyId(picks), Trim(rawName))) &&
        requests == old(requests) + [SetFamily(GenerateFamilyId(picks), NewFamilyRecord(Trim(rawName), now))]
    {
      var familyName := Trim(rawName);
      if familyName == [] {
        error := Some(EmptyName);
      } else {
        CreateOrConfirm(familyName, picks, now);
      }
    }

    /** `joinFamily`: read the family under that code. */
    method JoinFamily(familyId: string)
      requires Valid() && IsValidFamilyId(Some(familyId))
      modifies this`joining
      ensures Valid()
      ensures joining == Some(familyId)
    {
      joining := Some(familyId);
    }

    /**
     * `joinExistingFamily` once the code is accepted: another configured
     * family opens the replace dialog; otherwise the family is read.
     */
    method JoinOrConfirm(familyId: string, now: int)
      requires Valid() && joining.None? && IsValidFamilyId(Some(familyId))
      modifies this`confirmation, this`joining, store`prefs
      ensures Valid() && store.backup == old(store.backup)
      ensures store.prefs == AfterIdRead(old(store.prefs), now)
      ensures NeedsJoinConfirmation(StringPref(old(store.prefs), KEY_FAMILY_ID), familyId) ==>
        confirmation == Some(JoinFamilyCode(familyId)) && joining == None
      ensures !NeedsJoinConfirmation(StringPref(old(store.prefs), KEY_FAMILY_ID), familyId) ==>
        joining == Some(familyId) && confirmation == old(confirmation)
    {
      var existingFamilyId := store.GetFamilyId(now);
      if NeedsJoinConfirmation(existingFamilyId, familyId) {
        confirmation := Some(JoinFamilyCode(familyId));
      } else {
        JoinFamily(familyId);
      }
    }

    /**
     * `joinExistingFamily`: an invalid normalised code is refused; otherwise
     * the configured family is checked as above.
     */
    method JoinExistingFamily(rawCode: string, now: int)
      requires Valid() && joining.None?
      modifies this`confirmation, this`joining, this`error, store`prefs
      ensures Valid() && store.backup == old(store.backup)
      ensures !IsValidFamilyId(Some(NormalizeJoinCode(rawCode))) ==>
        error == Some(InvalidCode) && joining == None && confirmation == old(confirmation) && store.prefs == old(store.prefs)
      ensures IsValidFamilyId(Some(NormalizeJoinCode(rawCode))) && NeedsJoinConfirmation(StringPref(old(store.prefs), KEY_FAMILY_ID), NormalizeJoinCode(rawCode)) ==>
        confirmation == Some(JoinFamilyCode(NormalizeJoinCode(rawCode))) && joining == None
      ensures IsValidFamilyId(Some(NormalizeJoinCode(rawCode))) && !NeedsJoinConfirmation(StringPref(old(store.prefs), KEY_FAMILY_ID), NormalizeJoinCode(rawCode)) ==>
        joining == Some(NormalizeJoinCode(rawCode)) && confirmation == old(confirmation) && error == old(error)
      ensures IsValidFamilyId(Some(NormalizeJoinCode(rawCode))) ==>
        store.prefs == AfterIdRead(old(store.prefs), now)
    {
      var familyId := NormalizeJoinCode(rawCode);
      if !IsValidFamilyId(Some(familyId)) {
        error := Some(InvalidCode);
      } else {
        JoinOrConfirm(familyId, now);
      }
    }

    /** "Ya, Ganti": clear the configuration (backing it up), then run the deferred action. */
    method ConfirmReplace(picks: seq<nat>, now: int)
      requires Valid() && confirmation.Some?
      requires |picks| == FAMILY_ID_LENGTH
      requires forall k :: 0 <= k < |picks| ==> picks[k] < |CHARSET|
      modifies this`confirmation, this`creating, this`joining, this`requests, store
      ensures Valid() && confirmation == None
      ensures store.prefs == map[] && store.backup == BackedUp(old(store.prefs), old(store.backup), now)
      ensures old(confirmation).value.CreateFamilyNamed? ==>
        var name := old(confirmation).value.familyName;
        creating == Some((GenerateFamilyId(picks), name)) && joining == old(joining) &&
        requests == old(requests) + [SetFamily(GenerateFamilyId(picks), NewFamilyRecord(name, now))]
      ensures old(confirmation).value.JoinFamilyCode? ==>
        joining == Some(old(confirmation).value.familyId) && creating == old(creating) && requests == old(requests)
    {
      var action := confirmation.value;
      confirmation := None;
      store.ClearFamilyConfig(now);
      match action
      case CreateFamilyNamed(name) => CreateFamily(name, picks, now);
      case JoinFamilyCode(code) => JoinFamily(code);
    }

    /** "Batal": close the dialog; nothing else happens. */
    method CancelReplace()
      modifies this`confirmation
      ensures confirmation == None
      ensures old(Valid()) ==> Valid()
    {
      confirmation := None;
    }

    /**
     * The create write succeeded: store the configuration as the parent of
     * the new family, re-enable the button, and show the code, which is the
     * id now stored.
     */
    method OnCreateSuccess(now: int) returns (shownCode: string)
      requires Valid() && creating.Some?
      modifies this`creating, store
      ensures Valid() && creating == None
      ensures shownCode == old(creating).value.0
      ensures StringPref(store.prefs, KEY_FAMILY_ID) == Some(shownCode)
      ensures BoolPref(store.prefs, KEY_IS_PARENT) == Some(true)
      ensures store.prefs == Saved(old(store.prefs), shownCode, true, old(creating).value.1, now)
      ensures store.backup == BackedUp(old(store.prefs), old(store.backup), now)
    {
      var (familyId, familyName) := creating.value;
      var ok := store.SaveFamilyConfig(familyId, true, familyName, now);
      creating := None;
      shownCode := familyId;
    }

    /** The create write failed: re-enable the button; nothing is saved. */
    method OnCreateFailure()
      modifies this`creating
      ensures creating == None
      ensures old(Valid()) ==> Valid()
    {
      creating := None;
    }

    /**
     * The join read returned: not found and not active set an error and
     * save nothing; otherwise mark the child connected and save the
     * configuration as a child of that family.
     */
    method OnJoinData(snapshot: Option<FamilySnapshot>, now: int) returns (joined: bool)
      requires Valid() && joining.Some?
      modifies this`joining, this`error, this`requests, store
      ensures Valid() && joining == None
      ensures joined <==> JoinDecision(snapshot).Join?
      ensures !joined ==>
        store.prefs == old(store.prefs) && store.backup == old(store.backup) && requests == old(requests) &&
        error == Some(if snapshot.None? then CodeNotFound else NotActive)
      ensures joined ==>
        var code := old(joining).value;
        requests == old(requests) + [MarkChildJoined(code, now)] &&
        store.prefs == Saved(old(store.prefs), code, false, JoinDecision(snapshot).familyName, now) &&
        store.backup == BackedUp(old(store.prefs), old(store.backup), now) &&
        error == old(error)
    {
      var familyId := joining.value;
      joining := None;
      var decision := JoinDecision(snapshot);
      match decision
      case NotFound =>
        error := Some(CodeNotFound);
        joined := false;
      case FamilyInactive =>
        error := Some(NotActive);
        joined := false;
      case Join(familyName) =>
        requests := requests + [MarkChildJoined(familyId, now)];
        var ok := store.SaveFamilyConfig(familyId, false, familyName, now);
        joined := true;
    }

    /** The join read was cancelled: re-enable the button; nothing is saved. */
    method OnJoinCancelled()
      modifies this`joining
      ensures joining == None
      ensures old(Valid()) ==> Valid()
    {
      joining := None;
    }
  }

  /** A parent with no configuration creates a family: the code shown is the generated id, and it is stored. */
  method ParentCreates(picks: seq<nat>, familyName: string) returns (code: string, parentId: Option<string>)
    requires |picks| == FAMILY_ID_LENGTH
    requires forall k :: 0 <= k < |picks| ==> picks[k] < |CHARSET|
    requires Trim(familyName) == familyName && familyName != []
    ensures code == GenerateFamilyId(picks) && parentId == Some(code)
  {
    var parentStore := new FamilyStore();
    var parent := new SetupScreen(parentStore);
    parent.CreateNewFamily(familyName, picks, 1000);
    assert parent.creating == Some((GenerateFamilyId(picks), familyName));
    GeneratedIdIsValid(picks);
    code := parent.OnCreateSuccess(1001);
    parentId := StringPref(parentStore.prefs, KEY_FAMILY_ID);
  }

  /** A child with no configuration joins a family just created under that code and name. */
  method ChildJoins(code: string, familyName: string) returns (childId: Option<string>, childName: string)
    requires IsValidFamilyId(Some(code)) && NormalizeJoinCode(code) == code && Upper(code) == code
    requires familyName != []
    ensures childId == Some(code) && childName == familyName
  {
    var childStore := new FamilyStore();
    var child := new SetupScreen(childStore);
    child.JoinExistingFamily(code, 2000);
    assert child.joining == Some(code);
    assert childStore.prefs == map[];
    NewFamilyIsJoinable(familyName, 1000);
    var joined := child.OnJoinData(Some(Snapshot(NewFamilyRecord(familyName, 1000))), 2001);
    assert childStore.prefs == Saved(map[], code, false, familyName, 2001);
    childId := StringPref(childStore.prefs, KEY_FAMILY_ID);
    childName := childStore.FamilyName();
  }

  /**
   * A parent creates a family and a child joins it with the code as shown:
   * the child's device ends up configured for the same family id, under the
   * family's name.
   */
  method CreateThenJoin(picks: seq<nat>, familyName: string) returns (parentId: Option<string>, childId: Option<string>, childName: string)
    requires |picks| == FAMILY_ID_LENGTH
    requires forall k :: 0 <= k < |picks| ==> picks[k] < |CHARSET|
    requires familyName != [] && !IsWhitespace(familyName[0]) && !IsWhitespace(familyName[|familyName| - 1])
    ensures parentId.Some? && parentId == childId
    ensures childName == familyName
  {
    var empty: string := [];
    TrimPadded(empty, familyName, empty);
    assert empty + familyName + empty == familyName;
    assert Trim(familyName) == familyName;
    var code;
    code, parentId := ParentCreates(picks, familyName);
    GeneratedCodeSurvivesNormalization(picks, empty, empty);
    assert empty + code + empty == code;
    assert NormalizeJoinCode(code) == code;
    GeneratedIdIsValid(picks);
    childId, childName := ChildJoins(code, familyName);
  }
}
