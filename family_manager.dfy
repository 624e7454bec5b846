/**
 * The family configuration store (`utils/FamilyManager.kt`): two preference
 * files, the current configuration and a backup of the one it replaced,
 * plus the family-id rules and a diagnostic health classifier.
 */
module FamilyManager {
  import opened Wrappers
  import opened Text

  const KEY_FAMILY_ID := "family_id"
  const KEY_IS_PARENT := "is_parent"
  const KEY_FAMILY_NAME := "family_name"
  const KEY_CREATED_AT := "created_at"
  const KEY_LAST_USED := "last_used"

  const KEY_BACKUP_FAMILY_ID := "backup_family_id"
  const KEY_BACKUP_IS_PARENT := "backup_is_parent"
  const KEY_BACKUP_FAMILY_NAME := "backup_family_name"
  const KEY_BACKUP_CREATED_AT := "backup_created_at"
  const KEY_BACKUP_TIMESTAMP := "backup_timestamp"

  const FAMILY_ID_LENGTH: nat := 6
  const CHARSET := "ABCDEFGHIJKLMNOPQRSTUVWXYZ0123456789"
  const DEFAULT_FAMILY_NAME := "Keluarga Kita"
  /** Seven days in milliseconds. */
  const INACTIVE_AFTER_MS: int := 7 * 24 * 60 * 60 * 1000

  /** A value in a preference file. */
  datatype PrefValue = Str(s: string) | Bool(b: bool) | Long(n: int)

  /** `getString(key, null)`. */
  function StringPref(m: map<string, PrefValue>, key: string): (r: Option<string>)
    ensures r.Some? <==> key in m && m[key].Str?
    ensures r.Some? ==> m[key] == Str(r.value)
  {
    if key in m && m[key].Str? then Some(m[key].s) else None
  }

  /** `getBoolean(key, _)` without its default. */
  function BoolPref(m: map<string, PrefValue>, key: string): (r: Option<bool>)
    ensures r.Some? <==> key in m && m[key].Bool?
    ensures r.Some? ==> m[key] == Bool(r.value)
  {
    if key in m && m[key].Bool? then Some(m[key].b) else None
  }

  /** `getLong(key, _)` without its default. */
  function LongPref(m: map<string, PrefValue>, key: string): (r: Option<int>)
    ensures r.Some? <==> key in m && m[key].Long?
    ensures r.Some? ==> m[key] == Long(r.value)
  {
    if key in m && m[key].Long? then Some(m[key].n) else None
  }

  /** `isValidFamilyId`: present, six characters, all letters or digits. */
  predicate IsValidFamilyId(familyId: Option<string>)
  {
    familyId.Some? && |familyId.value| == FAMILY_ID_LENGTH &&
    forall k :: 0 <= k < |familyId.value| ==> IsLetterOrDigit(familyId.value[k])
  }

  /** Uppercasing keeps a valid id valid, so the id that is stored is valid too. */
  lemma UpperKeepsValid(s: string)
    requires IsValidFamilyId(Some(s))
    ensures IsValidFamilyId(Some(Upper(s)))
    ensures forall k :: 0 <= k < |s| ==> !('a' <= Upper(s)[k] <= 'z')
  {
  }

  /** `generateFamilyId`: six characters of `CHARSET`, the k-th chosen by `picks[k]`. */
  function GenerateFamilyId(picks: seq<nat>): (id: string)
    requires |picks| == FAMILY_ID_LENGTH
    requires forall k :: 0 <= k < |picks| ==> picks[k] < |CHARSET|
    ensures |id| == FAMILY_ID_LENGTH
    ensures forall k :: 0 <= k < |id| ==> id[k] == CHARSET[picks[k]]
  {
    seq(FAMILY_ID_LENGTH, k requires 0 <= k < FAMILY_ID_LENGTH => CHARSET[picks[k]])
  }

  /** Every generated id passes validation and is already in upper case. */
  lemma GeneratedIdIsValid(picks: seq<nat>)
    requires |picks| == FAMILY_ID_LENGTH
    requires forall k :: 0 <= k < |picks| ==> picks[k] < |CHARSET|
    ensures IsValidFamilyId(Some(GenerateFamilyId(picks)))
    ensures Upper(GenerateFamilyId(picks)) == GenerateFamilyId(picks)
  {
    var id := GenerateFamilyId(picks);
    forall k | 0 <= k < |id|
      ensures IsLetterOrDigit(id[k]) && UpperChar(id[k]) == id[k]
    {
      CharsetChar(picks[k]);
    }
  }

  /** Each character of `CHARSET` is an upper-case letter or a digit. */
  lemma CharsetChar(i: nat)
    requires i < |CHARSET|
    ensures ('A' <= CHARSET[i] <= 'Z') || ('0' <= CHARSET[i] <= '9')
  {
  }

  /** The generator can produce every six-character word over `CHARSET`. */
  lemma GeneratorReachesEveryId(id: string)
    requires |id| == FAMILY_ID_LENGTH
    requires forall k :: 0 <= k < |id| ==> id[k] in CHARSET
    ensures exists picks: seq<nat> ::
      |picks| == FAMILY_ID_LENGTH && (forall k :: 0 <= k < |picks| ==> picks[k] < |CHARSET|) &&
      GenerateFamilyId(picks) == id
  {
    var picks := seq(FAMILY_ID_LENGTH, k requires 0 <= k < FAMILY_ID_LENGTH => CharsetIndex(id[k]));
    assert GenerateFamilyId(picks) == id;
  }

  /** The position of a character in `CHARSET`. */
  ghost function CharsetIndex(c: char): (i: nat)
    requires c in CHARSET
    ensures i < |CHARSET| && CHARSET[i] == c
  {
    var i :| 0 <= i < |CHARSET| && CHARSET[i] == c; i
  }

  /** What `getBackupFamilyInfo` returns. */
  datatype BackupInfo = BackupInfo(familyId: string, familyName: string, isParent: bool, createdAt: int, backupTimestamp: int)

  /**
   * The backup file after `backupCurrentConfig` at time `now`: when the
   * current id is present and not empty, its id, role, name and creation
   * time (with their defaults) and the backup time; otherwise unchanged.
   */
  function BackedUp(current: map<string, PrefValue>, backup: map<string, PrefValue>, now: int): (b: map<string, PrefValue>)
    ensures StringPref(current, KEY_FAMILY_ID).GetOr([]) == [] ==> b == backup
    ensures StringPref(current, KEY_FAMILY_ID).GetOr([]) != [] ==>
      StringPref(b, KEY_BACKUP_FAMILY_ID) == StringPref(current, KEY_FAMILY_ID) &&
      BoolPref(b, KEY_BACKUP_IS_PARENT) == Some(BoolPref(current, KEY_IS_PARENT).GetOr(false)) &&
      StringPref(b, KEY_BACKUP_FAMILY_NAME) == Some(StringPref(current, KEY_FAMILY_NAME).GetOr(DEFAULT_FAMILY_NAME)) &&
      LongPref(b, KEY_BACKUP_CREATED_AT) == Some(LongPref(current, KEY_CREATED_AT).GetOr(0)) &&
      LongPref(b, KEY_BACKUP_TIMESTAMP) == Some(now) &&
      b.Keys == backup.Keys + BackupKeys() &&
      forall k :: k in backup && k !in BackupKeys() ==> b[k] == backup[k]
  {
    var currentFamilyId := StringPref(current, KEY_FAMILY_ID);
    if currentFamilyId.GetOr([]) == [] then backup
    else backup[KEY_BACKUP_FAMILY_ID := Str(currentFamilyId.value)]
               [KEY_BACKUP_IS_PARENT := Bool(BoolPref(current, KEY_IS_PARENT).GetOr(false))]
               [KEY_BACKUP_FAMILY_NAME := Str(StringPref(current, KEY_FAMILY_NAME).GetOr(DEFAULT_FAMILY_NAME))]
               [KEY_BACKUP_CREATED_AT := Long(LongPref(current, KEY_CREATED_AT).GetOr(0))]
               [KEY_BACKUP_TIMESTAMP := Long(now)]
  }

  function ConfigKeys(): set<string>
  {
    {KEY_FAMILY_ID, KEY_IS_PARENT, KEY_FAMILY_NAME, KEY_CREATED_AT, KEY_LAST_USED}
  }

  function BackupKeys(): set<string>
  {
    {KEY_BACKUP_FAMILY_ID, KEY_BACKUP_IS_PARENT, KEY_BACKUP_FAMILY_NAME, KEY_BACKUP_CREATED_AT, KEY_BACKUP_TIMESTAMP}
  }

  /**
   * The current file after a valid `saveFamilyConfig`: the uppercased id,
   * the role, the name or the default name, and `now` as both creation and
   * last-use time; keys it does not write keep their values.
   */
  function Saved(current: map<string, PrefValue>, familyId: string, isParent: bool, familyName: string, now: int): (p: map<string, PrefValue>)
    ensures StringPref(p, KEY_FAMILY_ID) == Some(Upper(familyId))
    ensures BoolPref(p, KEY_IS_PARENT) == Some(isParent)
    ensures StringPref(p, KEY_FAMILY_NAME) == Some(if familyName == [] then DEFAULT_FAMILY_NAME else familyName)
    ensures LongPref(p, KEY_CREATED_AT) == Some(now) && LongPref(p, KEY_LAST_USED) == Some(now)
    ensures p.Keys == current.Keys + ConfigKeys()
    ensures forall k :: k in current && k !in ConfigKeys() ==> p[k] == current[k]
  {
    current[KEY_FAMILY_ID := Str(Upper(familyId))]
           [KEY_IS_PARENT := Bool(isParent)]
           [KEY_FAMILY_NAME := Str(if familyName == [] then DEFAULT_FAMILY_NAME else familyName)]
           [KEY_CREATED_AT := Long(now)]
           [KEY_LAST_USED := Long(now)]
  }

  /** `FamilyHealthStatus`. */
  datatype HealthStatus = Healthy | NotConfigured | InvalidId | MissingName | MissingMetadata | Inactive

  /** The `when` chain of `checkFamilyHealth`: the first failing check names the status. */
  function Health(familyId: Option<string>, familyName: string, createdAt: int, lastUsed: int, now: int): (h: HealthStatus)
    ensures h == NotConfigured <==> familyId.GetOr([]) == []
    ensures h == InvalidId <==> familyId.GetOr([]) != [] && !IsValidFamilyId(familyId)
    ensures h == MissingName <==> IsValidFamilyId(familyId) && familyName == []
    ensures h == MissingMetadata <==> IsValidFamilyId(familyId) && familyName != [] && createdAt == 0
    ensures h == Inactive <==> IsValidFamilyId(familyId) && familyName != [] && createdAt != 0 && now - lastUsed > INACTIVE_AFTER_MS
    ensures h == Healthy <==> IsValidFamilyId(familyId) && familyName != [] && createdAt != 0 && now - lastUsed <= INACTIVE_AFTER_MS
  {
    if familyId.GetOr([]) == [] then NotConfigured
    else if !IsValidFamilyId(familyId) then InvalidId
    else if familyName == [] then MissingName
    else if createdAt == 0 then MissingMetadata
    else if now - lastUsed > INACTIVE_AFTER_MS then Inactive
    else Healthy
  }

  /**
   * What reading the stored id does to the current preference file: with an
   * id stored, the last-use time becomes `now`; nothing else changes.
   */
  function AfterIdRead(prefs: map<string, PrefValue>, now: int): (p: map<string, PrefValue>)
    ensures KEY_FAMILY_ID !in prefs ==> p == prefs
    ensures KEY_FAMILY_ID in prefs ==> p.Keys == prefs.Keys + {KEY_LAST_USED} && p[KEY_LAST_USED] == Long(now)
  {
    if KEY_FAMILY_ID in prefs then prefs[KEY_LAST_USED := Long(now)] else prefs
  }

  /** The two preference files. */
  class FamilyStore {
    var prefs: map<string, PrefValue>
    var backup: map<string, PrefValue>

    /**
     * Every key holds a value of its own type; a stored id is always a valid
     * one; a stored name is never empty; and a configured store holds all
     * five configuration keys.
     */
    ghost predicate Valid()
      reads this
    {
      (KEY_FAMILY_ID in prefs ==> prefs[KEY_FAMILY_ID].Str? && IsValidFamilyId(Some(prefs[KEY_FAMILY_ID].s)) && ConfigKeys() <= prefs.Keys) &&
      (KEY_IS_PARENT in prefs ==> prefs[KEY_IS_PARENT].Bool?) &&
      (KEY_FAMILY_NAME in prefs ==> prefs[KEY_FAMILY_NAME].Str? && prefs[KEY_FAMILY_NAME].s != []) &&
      (KEY_CREATED_AT in prefs ==> prefs[KEY_CREATED_AT].Long?) &&
      (KEY_LAST_USED in prefs ==> prefs[KEY_LAST_USED].Long?) &&
      (KEY_BACKUP_FAMILY_ID in backup ==> backup[KEY_BACKUP_FAMILY_ID].Str? && IsValidFamilyId(Some(backup[KEY_BACKUP_FAMILY_ID].s))) &&
      (KEY_BACKUP_IS_PARENT in backup ==> backup[KEY_BACKUP_IS_PARENT].Bool?) &&
      (KEY_BACKUP_FAMILY_NAME in backup ==> backup[KEY_BACKUP_FAMILY_NAME].Str? && backup[KEY_BACKUP_FAMILY_NAME].s != []) &&
      (KEY_BACKUP_CREATED_AT in backup ==> backup[KEY_BACKUP_CREATED_AT].Long?) &&
      (KEY_BACKUP_TIMESTAMP in backup ==> backup[KEY_BACKUP_TIMESTAMP].Long?)
    }

    /** Both files empty, as on a fresh install. */
    constructor()
      ensures prefs == map[] && backup == map[] && Valid()
    {
      prefs := map[];
      backup := map[];
    }

    /** `isParent`. */
    function IsParent(): (r: bool)
      reads this
      ensures r <==> BoolPref(prefs, KEY_IS_PARENT) == Some(true)
    {
      BoolPref(prefs, KEY_IS_PARENT).GetOr(false)
    }

    /** `getFamilyName`: the stored name, or the default name when there is none. */
    function FamilyName(): (name: string)
      reads this
      ensures StringPref(prefs, KEY_FAMILY_NAME).Some? ==> name == StringPref(prefs, KEY_FAMILY_NAME).value
      ensures StringPref(prefs, KEY_FAMILY_NAME).None? ==> name == DEFAULT_FAMILY_NAME
      ensures Valid() ==> name != []
    {
      StringPref(prefs, KEY_FAMILY_NAME).GetOr(DEFAULT_FAMILY_NAME)
    }

    /** `hasBackupConfig`. */
    predicate HasBackupConfig()
      reads this
    {
      StringPref(backup, KEY_BACKUP_FAMILY_ID).GetOr([]) != []
    }

    /** `getBackupFamilyInfo`: the backed-up configuration, with defaults, when a backup id is present. */
    function BackupFamilyInfo(): (info: Option<BackupInfo>)
      reads this
      ensures info.Some? <==> HasBackupConfig()
      ensures info.Some? ==>
        Some(info.value.familyId) == StringPref(backup, KEY_BACKUP_FAMILY_ID) &&
        info.value.familyName == StringPref(backup, KEY_BACKUP_FAMILY_NAME).GetOr(DEFAULT_FAMILY_NAME) &&
        info.value.isParent == BoolPref(backup, KEY_BACKUP_IS_PARENT).GetOr(false) &&
        info.value.createdAt == LongPref(backup, KEY_BACKUP_CREATED_AT).GetOr(0)
      ensures info.Some? && Valid() ==> IsValidFamilyId(Some(info.value.familyId)) && info.value.familyName != []
    {
      var familyId := StringPref(backup, KEY_BACKUP_FAMILY_ID);
      if familyId.GetOr([]) != [] then
        Some(BackupInfo(
          familyId.value,
          StringPref(backup, KEY_BACKUP_FAMILY_NAME).GetOr(DEFAULT_FAMILY_NAME),
          BoolPref(backup, KEY_BACKUP_IS_PARENT).GetOr(false),
          LongPref(backup, KEY_BACKUP_CREATED_AT).GetOr(0),
          LongPref(backup, KEY_BACKUP_TIMESTAMP).GetOr(0)))
      else None
    }

    /** `backupCurrentConfig`. */
    method BackupCurrentConfig(now: int)
      requires Valid()
      modifies this`backup
      ensures backup == BackedUp(prefs, old(backup), now)
      ensures Valid()
    {
      var currentFamilyId := StringPref(prefs, KEY_FAMILY_ID);
      if currentFamilyId.GetOr([]) != [] {
        backup := backup[KEY_BACKUP_FAMILY_ID := Str(currentFamilyId.value)];
        backup := backup[KEY_BACKUP_IS_PARENT := Bool(BoolPref(prefs, KEY_IS_PARENT).GetOr(false))];
        backup := backup[KEY_BACKUP_FAMILY_NAME := Str(StringPref(prefs, KEY_FAMILY_NAME).GetOr(DEFAULT_FAMILY_NAME))];
        backup := backup[KEY_BACKUP_CREATED_AT := Long(LongPref(prefs, KEY_CREATED_AT).GetOr(0))];
        backup := backup[KEY_BACKUP_TIMESTAMP := Long(now)];
      }
    }

    /**
     * `saveFamilyConfig`: an invalid id is refused and nothing changes;
     * a valid one backs up the current configuration, then writes the new one.
     */
    method SaveFamilyConfig(familyId: string, isParent: bool, familyName: string, now: int) returns (ok: bool)
      requires Valid()
      modifies this
      ensures ok <==> IsValidFamilyId(Some(familyId))
      ensures !ok ==> prefs == old(prefs) && backup == old(backup)
      ensures ok ==> backup == BackedUp(old(prefs), old(backup), now) && prefs == Saved(old(prefs), familyId, isParent, familyName, now)
      ensures ok ==> IsParent() == isParent && FamilyName() == (if familyName == [] then DEFAULT_FAMILY_NAME else familyName)
      ensures Valid()
    {
      if IsValidFamilyId(Some(familyId)) {
        var timestamp := now;
        BackupCurrentConfig(now);
        UpperKeepsValid(familyId);
        // The five `put`s of one editor, applied together.
        prefs := Saved(prefs, familyId, isParent, familyName, timestamp);
        ok := true;
      } else {
        ok := false;
      }
    }

    /** `getFamilyId`: the stored id; reading a non-empty one refreshes the last-use time. */
    method GetFamilyId(now: int) returns (familyId: Option<string>)
      requires Valid()
      modifies this`prefs
      ensures familyId == StringPref(old(prefs), KEY_FAMILY_ID)
      ensures familyId.GetOr([]) == [] ==> prefs == old(prefs)
      ensures familyId.GetOr([]) != [] ==> prefs == old(prefs)[KEY_LAST_USED := Long(now)]
      ensures prefs == AfterIdRead(old(prefs), now)
      ensures Valid()
    {
      familyId := StringPref(prefs, KEY_FAMILY_ID);
      if familyId.GetOr([]) != [] {
        prefs := prefs[KEY_LAST_USED := Long(now)];
      }
    }

    /** `isFamilyConfigured`: whether a non-empty id is stored (reading it refreshes the last-use time). */
    method IsFamilyConfigured(now: int) returns (configured: bool)
      requires Valid()
      modifies this`prefs
      ensures configured <==> KEY_FAMILY_ID in old(prefs)
      ensures prefs == AfterIdRead(old(prefs), now)
      ensures Valid()
    {
      var familyId := GetFamilyId(now);
      configured := familyId.GetOr([]) != [];
    }

    /** `clearFamilyConfig`: back up, then empty the current file. */
    method ClearFamilyConfig(now: int)
      requires Valid()
      modifies this
      ensures backup == BackedUp(old(prefs), old(backup), now)
      ensures prefs == map[]
      ensures !IsParent() && FamilyName() == DEFAULT_FAMILY_NAME
      ensures Valid()
    {
      BackupCurrentConfig(now);
      prefs := map[];
    }

    /**
     * `restoreFromBackup`: without a backup id nothing changes and the result
     * is false. Otherwise the backed-up configuration is saved (which first
     * backs up the current one, so the two configurations trade places) and
     * its original creation time is put back.
     */
    method RestoreFromBackup(now: int) returns (ok: bool)
      requires Valid()
      modifies this
      ensures ok <==> old(HasBackupConfig())
      ensures !ok ==> prefs == old(prefs) && backup == old(backup)
      ensures ok ==>
        var info := old(BackupFamilyInfo()).value;
        backup == BackedUp(old(prefs), old(backup), now) &&
        prefs == Saved(old(prefs), info.familyId, info.isParent, info.familyName, now)[KEY_CREATED_AT := Long(info.createdAt)] &&
        StringPref(prefs, KEY_FAMILY_ID) == Some(Upper(info.familyId)) &&
        StringPref(prefs, KEY_FAMILY_NAME) == Some(info.familyName) &&
        LongPref(prefs, KEY_CREATED_AT) == Some(info.createdAt)
      ensures Valid()
    {
      var backupInfo := BackupFamilyInfo();
      if backupInfo.Some? {
        var info := backupInfo.value;
        ok := SaveFamilyConfig(info.familyId, info.isParent, info.familyName, now);
        if ok {
          prefs := prefs[KEY_CREATED_AT := Long(info.createdAt)];
        }
      } else {
        ok := false;
      }
    }

    /** `clearBackup`. */
    method ClearBackup()
      modifies this`backup
      ensures backup == map[]
      ensures old(Valid()) ==> Valid()
    {
      backup := map[];
    }

    /**
     * `checkFamilyHealth` at time `now`. Reading the id refreshes the
     * last-use time first, so a configured family is never reported
     * inactive; a stored id is always valid and a stored name never empty.
     */
    method CheckFamilyHealth(now: int) returns (status: HealthStatus)
      requires Valid()
      modifies this`prefs
      ensures status == Health(StringPref(old(prefs), KEY_FAMILY_ID), FamilyName(), LongPref(prefs, KEY_CREATED_AT).GetOr(0), LongPref(prefs, KEY_LAST_USED).GetOr(0), now)
      ensures status == NotConfigured <==> KEY_FAMILY_ID !in old(prefs)
      ensures prefs == AfterIdRead(old(prefs), now)
      ensures KEY_FAMILY_ID in old(prefs) ==> LongPref(prefs, KEY_LAST_USED) == Some(now)
      ensures status != Inactive && status != InvalidId && status != MissingName
      ensures Valid()
    {
      var familyId := GetFamilyId(now);
      var familyName := FamilyName();
      var lastUsed := LongPref(prefs, KEY_LAST_USED).GetOr(0);
      var createdAt := LongPref(prefs, KEY_CREATED_AT).GetOr(0);
      status := Health(familyId, familyName, createdAt, lastUsed, now);
    }
  }

  /** Save, clear, restore: the restored configuration has the id that was saved. */
  method ClearThenRestoreRoundTrip(familyId: string, isParent: bool, familyName: string) returns (restored: Option<string>)
    requires IsValidFamilyId(Some(familyId))
    ensures restored == Some(Upper(familyId))
  {
    var store := new FamilyStore();
    var ok := store.SaveFamilyConfig(familyId, isParent, familyName, 1000);
    store.ClearFamilyConfig(2000);
    ok := store.RestoreFromBackup(3000);
    UpperIdempotent(familyId);
    restored := StringPref(store.prefs, KEY_FAMILY_ID);
  }
}
