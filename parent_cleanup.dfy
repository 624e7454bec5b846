/**
 * The one-shot repair pass the parent screen runs at start-up
 * (`cleanupFirebaseData` in `ParentActivity.kt`). It reads the message
 * collection once and, record by record, issues writes that move a legacy
 * `completed` field into `isCompleted` and give every record an
 * `isCompleted` field.
 */
module ParentCleanup {
  import opened Wrappers

  /**
   * A stored message as the repair pass sees it: the two completion fields,
   * each absent or holding a boolean, and the fields it must never touch.
   */
  datatype StoredTask = StoredTask(
    key: string,
    completed: Option<bool>,
    isCompleted: Option<bool>,
    text: Option<string>,
    icon: Option<string>,
    timestamp: Option<int>,
    familyId: Option<string>)

  /** A write the pass issues against one record. */
  datatype RepairWrite =
    | MoveLegacyField(key: string, isCompleted: bool)  // updateChildren: isCompleted := v, completed := null
    | AddDefaultCompletion(key: string)                // child("isCompleted").setValue(false)

  /** `getValue(Boolean::class.java) ?: false`. */
  function ReadBool(f: Option<bool>): bool
  {
    f.GetOr(false)
  }

  /** The value the legacy move writes: `isCompleted` when present, else `completed`. */
  function ResolvedCompletion(t: StoredTask): (v: bool)
    ensures t.isCompleted.Some? ==> v == t.isCompleted.value
    ensures t.isCompleted.None? && t.completed.Some? ==> v == t.completed.value
    ensures t.isCompleted.None? && t.completed.None? ==> !v
  {
    if t.isCompleted.Some? then ReadBool(t.isCompleted) else ReadBool(t.completed)
  }

  /** The writes the loop body issues for one record, in issue order, as written. */
  function RecordRepair(t: StoredTask): (ws: seq<RepairWrite>)
    ensures |ws| == (if t.completed.Some? then 1 else 0) + (if t.isCompleted.None? then 1 else 0)
    ensures t.completed.Some? ==> ws[0] == MoveLegacyField(t.key, ResolvedCompletion(t))
    ensures t.isCompleted.None? ==> ws[|ws| - 1] == AddDefaultCompletion(t.key)
    ensures forall k :: 0 <= k < |ws| ==> ws[k].key == t.key
  {
    (if t.completed.Some? then [MoveLegacyField(t.key, ResolvedCompletion(t))] else [])
    + (if t.isCompleted.None? then [AddDefaultCompletion(t.key)] else [])
  }

  /** All writes of the pass over a snapshot, record after record. */
  function RepairPlan(snapshot: seq<StoredTask>): (ws: seq<RepairWrite>)
    ensures |ws| <= 2 * |snapshot|
  {
    if snapshot == [] then []
    else RepairPlan(snapshot[..|snapshot| - 1]) + RecordRepair(snapshot[|snapshot| - 1])
  }

  /** Every write of the plan addresses a record of the snapshot. */
  lemma {:induction false} RepairPlanTargetsSnapshot(snapshot: seq<StoredTask>, k: nat)
    requires k < |RepairPlan(snapshot)|
    ensures exists i :: 0 <= i < |snapshot| && snapshot[i].key == RepairPlan(snapshot)[k].key
    decreases |snapshot|
  {
    var n := |snapshot|;
    var front := RepairPlan(snapshot[..n - 1]);
    if k < |front| {
      RepairPlanTargetsSnapshot(snapshot[..n - 1], k);
      var i :| 0 <= i < n - 1 && snapshot[..n - 1][i].key == front[k].key;
      assert snapshot[i].key == RepairPlan(snapshot)[k].key;
    } else {
      assert RepairPlan(snapshot)[k] == RecordRepair(snapshot[n - 1])[k - |front|];
    }
  }

  /** What the store holds for a record after one write to it (writes to other records leave it alone). */
  function ApplyWrite(w: RepairWrite, t: StoredTask): (t': StoredTask)
    ensures t'.key == t.key && t'.text == t.text && t'.icon == t.icon
    ensures t'.timestamp == t.timestamp && t'.familyId == t.familyId
  {
    if w.key != t.key then t
    else match w
      case MoveLegacyField(_, v) => t.(isCompleted := Some(v), completed := None)
      case AddDefaultCompletion(_) => t.(isCompleted := Some(false))
  }

  /** The record after a sequence of writes applied in issue order. */
  function ApplyWrites(ws: seq<RepairWrite>, t: StoredTask): (t': StoredTask)
    ensures t'.key == t.key && t'.text == t.text && t'.icon == t.icon
    ensures t'.timestamp == t.timestamp && t'.familyId == t.familyId
  {
    if ws == [] then t else ApplyWrites(ws[1..], ApplyWrite(ws[0], t))
  }

  /**
   * As written, a record holding only the legacy field is moved to its
   * resolved value and then overwritten with `false`: `completed = true`
   * ends as `isCompleted = false`.
   */
  lemma LegacyOnlyRecordEndsFalse(t: StoredTask)
    requires t.completed == Some(true) && t.isCompleted.None?
    ensures RecordRepair(t) == [MoveLegacyField(t.key, true), AddDefaultCompletion(t.key)]
    ensures ApplyWrites(RecordRepair(t), t).isCompleted == Some(false)
    ensures ApplyWrites(RecordRepair(t), t).isCompleted != Some(ResolvedCompletion(t))
  {
    var ws := RecordRepair(t);
    var t1 := ApplyWrite(ws[0], t);
    assert ApplyWrites(ws, t) == ApplyWrites(ws[1..], t1);
    assert ws[1..][1..] == [];
  }

  /**
   * What the as-written writes do to any record: `completed` is always
   * gone, and `isCompleted` holds the resolved value except when the record
   * lacked `isCompleted`, in which case the trailing default makes it
   * `false`. So the resolved value survives exactly unless the record held
   * only `completed = true`.
   */
  lemma RecordRepairEffect(t: StoredTask)
    ensures var t' := ApplyWrites(RecordRepair(t), t);
      t'.completed.None? &&
      t'.isCompleted == (if t.isCompleted.None? then Some(false) else Some(ResolvedCompletion(t))) &&
      (t'.isCompleted == Some(ResolvedCompletion(t)) <==> !(t.isCompleted.None? && t.completed == Some(true)))
  {
    var ws := RecordRepair(t);
    if ws != [] {
      assert ApplyWrites(ws, t) == ApplyWrites(ws[1..], ApplyWrite(ws[0], t));
      if |ws| == 2 {
        var t1 := ApplyWrite(ws[0], t);
        assert ApplyWrites(ws[1..], t1) == ApplyWrites(ws[1..][1..], ApplyWrite(ws[1], t1));
        assert ws[1..][1..] == [];
      } else {
        assert ws[1..] == [];
      }
    }
  }

  /**
   * The per-record plan the pass is meant to follow: move the legacy field
   * when there is one, otherwise add the default only when `isCompleted` is
   * missing. At most one write per record.
   */
  function RecordRepairCorrected(t: StoredTask): (ws: seq<RepairWrite>)
    ensures |ws| <= 1
    ensures |ws| == 0 <==> t.completed.None? && t.isCompleted.Some?
  {
    if t.completed.Some? then [MoveLegacyField(t.key, ResolvedCompletion(t))]
    else if t.isCompleted.None? then [AddDefaultCompletion(t.key)]
    else []
  }

  /**
   * The corrected plan leaves every record with exactly the canonical field:
   * `isCompleted` keeps its value when present, else takes `completed`, else
   * `false`; `completed` is gone; nothing else changes.
   */
  lemma RecordRepairCorrectedCanonical(t: StoredTask)
    ensures var t' := ApplyWrites(RecordRepairCorrected(t), t);
      t'.completed.None? &&
      t'.isCompleted == Some(ResolvedCompletion(t)) &&
      t'.text == t.text && t'.icon == t.icon && t'.timestamp == t.timestamp && t'.familyId == t.familyId
  {
    var ws := RecordRepairCorrected(t);
    if ws != [] {
      assert ApplyWrites(ws, t) == ApplyWrites(ws[1..], ApplyWrite(ws[0], t));
      assert ws[1..] == [];
    }
  }

  /** The corrected plan repairs a record and then has nothing more to do: repairing is idempotent. */
  lemma RecordRepairCorrectedIdempotent(t: StoredTask)
    ensures RecordRepairCorrected(ApplyWrites(RecordRepairCorrected(t), t)) == []
  {
    RecordRepairCorrectedCanonical(t);
  }

  /**
   * `cleanupFirebaseData`'s single-value listener: walk the snapshot, issue
   * each record's writes, and count them in `cleanupCount`.
   */
  method CleanupFirebaseData(snapshot: seq<StoredTask>) returns (writes: seq<RepairWrite>, cleanupCount: nat)
    ensures writes == RepairPlan(snapshot)
    ensures cleanupCount == |writes|
    ensures cleanupCount <= 2 * |snapshot|
  {
    writes := [];
    cleanupCount := 0;
    var i := 0;
    while i < |snapshot|
      invariant 0 <= i <= |snapshot|
      invariant writes == RepairPlan(snapshot[..i])
      invariant cleanupCount == |writes|
    {
      var t := snapshot[i];
      if t.completed.Some? {
        var correctValue := if t.isCompleted.Some? then ReadBool(t.isCompleted) else ReadBool(t.completed);
        writes := writes + [MoveLegacyField(t.key, correctValue)];
        cleanupCount := cleanupCount + 1;
      }
      if t.isCompleted.None? {
        writes := writes + [AddDefaultCompletion(t.key)];
        cleanupCount := cleanupCount + 1;
      }
      assert snapshot[..i + 1][..i] == snapshot[..i];
      i := i + 1;
    }
    assert snapshot[..i] == snapshot;
  }
}
