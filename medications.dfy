/** The medication store: a list of medication records, which are edited
    with versioning, and a list of missed-dose log rows. */
module Medications {
  import opened Json
  import opened Collections

  /** A row of the dose log; `status` is 'missed' for every row the store writes. */
  datatype MedicationLog = MedicationLog(
    id: string,
    medId: Value,
    doseIndex: int,
    date: string,
    status: string,
    timestamp: string)

  const MISSED := "missed"

  /** A record counts as active while its `endDate` is falsy. */
  predicate IsActive(m: Obj)
  {
    !Truthy(Get(m, "endDate"))
  }

  /** The earlier versions kept in a record (`currentMed.history || []`). */
  function PriorHistory(m: Obj): seq<Value>
  {
    match Get(m, "history")
    case Array(items) => items
    case _ => []
  }

  /** No history entry of the record carries a history of its own. */
  predicate FlatHistory(m: Obj)
  {
    forall e :: e in PriorHistory(m) ==> e.Object? && Get(e.fields, "history") == Undefined
  }

  predicate AllFlat(meds: seq<Obj>)
  {
    forall m :: m in meds ==> FlatHistory(m)
  }

  /** The record `addMedication` appends: a generated id that the caller's own
      `id` overrides, then the caller's fields, then the start date, a null
      end date and an empty history, which override whatever the caller gave. */
  function NewMedication(med: Obj, id: string, now: string): (r: Obj)
    ensures r.Keys == med.Keys + {"id", "startDate", "endDate", "history"}
    ensures Get(r, "id") == (if "id" in med then med["id"] else Str(id))
    ensures Get(r, "startDate") == Str(now)
    ensures Get(r, "endDate") == Null && IsActive(r)
    ensures Get(r, "history") == Array([]) && FlatHistory(r)
    ensures forall k :: k in med && k != "startDate" && k != "endDate" && k != "history" ==> r[k] == med[k]
  {
    Merge(Merge(map["id" := Str(id)], med),
          map["startDate" := Str(now), "endDate" := Null, "history" := Array([])])
  }

  /** The history entry: the record as it was, stamped with `archivedAt`,
      with its own history cleared so that entries never nest. */
  function Snapshot(m: Obj, now: string): (r: Obj)
    ensures r.Keys == m.Keys + {"archivedAt", "history"}
    ensures Get(r, "archivedAt") == Str(now)
    ensures Get(r, "history") == Undefined
    ensures forall k :: k in m && k != "archivedAt" && k != "history" ==> r[k] == m[k]
  {
    Merge(m, map["archivedAt" := Str(now), "history" := Undefined])
  }

  /** The record after `updateMedication`: the update's fields over the old
      ones, and the history extended by the snapshot of the old record.
      A `history` key in the update is overridden. */
  function Updated(m: Obj, updates: Obj, now: string): (r: Obj)
    ensures r.Keys == m.Keys + updates.Keys + {"history"}
    ensures PriorHistory(r) == PriorHistory(m) + [Object(Snapshot(m, now))]
    ensures |PriorHistory(r)| == |PriorHistory(m)| + 1
    ensures forall k :: k in updates && k != "history" ==> r[k] == updates[k]
    ensures forall k :: k in m && k !in updates && k != "history" ==> r[k] == m[k]
    ensures FlatHistory(m) ==> FlatHistory(r)
  {
    var r := Merge(Merge(m, updates), map["history" := Array(PriorHistory(m) + [Object(Snapshot(m, now))])]);
    assert Get(r, "history") == Array(PriorHistory(m) + [Object(Snapshot(m, now))]);
    r
  }

  /** The record after `stopMedication`: only `endDate` changes. */
  function Stopped(m: Obj, now: string): (r: Obj)
    ensures r.Keys == m.Keys + {"endDate"}
    ensures Get(r, "endDate") == Str(now)
    ensures forall k :: k in m && k != "endDate" ==> r[k] == m[k]
    ensures now != "" ==> !IsActive(r)
    ensures PriorHistory(r) == PriorHistory(m)
    ensures FlatHistory(m) ==> FlatHistory(r)
  {
    m["endDate" := Str(now)]
  }

  /** The log row the key (medId, doseIndex, date) stands for. */
  predicate MissedDose(log: MedicationLog, medId: Value, doseIndex: int, date: string)
  {
    log.medId == medId && log.doseIndex == doseIndex && log.date == date && log.status == MISSED
  }

  function MissedDoseOf(medId: Value, doseIndex: int, date: string): MedicationLog -> bool
  {
    log => MissedDose(log, medId, doseIndex, date)
  }

  /** The number of missed rows with the given key. */
  function MissedCount(logs: seq<MedicationLog>, medId: Value, doseIndex: int, date: string): nat
  {
    |Filter(logs, MissedDoseOf(medId, doseIndex, date))|
  }

  /** A key is logged as missed exactly when at least one row carries it. */
  lemma MissedCountPositive(logs: seq<MedicationLog>, medId: Value, doseIndex: int, date: string)
    ensures MissedCount(logs, medId, doseIndex, date) > 0 <==> IsMissedIn(logs, medId, doseIndex, date)
  {
    var p := MissedDoseOf(medId, doseIndex, date);
    var r := Filter(logs, p);
    FilterMembers(logs, p);
    if |r| > 0 {
      assert r[0] in r;
    }
    if IsMissedIn(logs, medId, doseIndex, date) {
      var log :| log in logs && MissedDose(log, medId, doseIndex, date);
      assert log in r;
    }
  }

  class MedicationStore {
    var medications: seq<Obj>
    var medicationLogs: seq<MedicationLog>

    /** The store starts from what was loaded from storage (an empty list
        when nothing was stored or it could not be read). */
    constructor (loadedMedications: seq<Obj>, loadedLogs: seq<MedicationLog>)
      ensures medications == loadedMedications && medicationLogs == loadedLogs
    {
      medications := loadedMedications;
      medicationLogs := loadedLogs;
    }

    method AddMedication(med: Obj, id: string, now: string)
      modifies this`medications
      ensures medications == old(medications) + [NewMedication(med, id, now)]
      ensures AllFlat(old(medications)) ==> AllFlat(medications)
    {
      medications := medications + [NewMedication(med, id, now)];
    }

    method UpdateMedication(id: Value, updates: Obj, now: string)
      modifies this`medications
      ensures |medications| == |old(medications)|
      ensures match FindIndex(old(medications), IdIs(id))
              case None => medications == old(medications)
              case Some(i) => medications == old(medications)[i := Updated(old(medications)[i], updates, now)]
      ensures AllFlat(old(medications)) ==> AllFlat(medications)
    {
      var index := FindIndex(medications, IdIs(id));
      if index.Some? {
        var i := index.value;
        medications := medications[i := Updated(medications[i], updates, now)];
      }
    }

    method StopMedication(id: Value, now: string)
      modifies this`medications
      ensures |medications| == |old(medications)|
      ensures match FindIndex(old(medications), IdIs(id))
              case None => medications == old(medications)
              case Some(i) => medications == old(medications)[i := Stopped(old(medications)[i], now)]
      ensures AllFlat(old(medications)) ==> AllFlat(medications)
    {
      var index := FindIndex(medications, IdIs(id));
      if index.Some? {
        var i := index.value;
        medications := medications[i := Stopped(medications[i], now)];
      }
    }

    /** The records with no end date, in their stored order. */
    function ActiveMedications(): (r: seq<Obj>)
      reads this
      ensures Subseq(r, medications)
      ensures forall m :: multiset(r)[m] == if IsActive(m) then multiset(medications)[m] else 0
    {
      FilterIsSubseq(medications, IsActive);
      FilterMultiplicity(medications, IsActive);
      Filter(medications, IsActive)
    }

    method LogMissedDose(medId: Value, doseIndex: int, date: string, id: string, now: string)
      modifies this`medicationLogs
      ensures medicationLogs == old(medicationLogs) + [MedicationLog(id, medId, doseIndex, date, MISSED, now)]
      ensures IsMissed(medId, doseIndex, date) && HasAnyMissedDose(medId, date)
    {
      medicationLogs := medicationLogs + [MedicationLog(id, medId, doseIndex, date, MISSED, now)];
      assert medicationLogs[|medicationLogs| - 1] in medicationLogs;
    }

    /** Whether the dose (medId, doseIndex) is recorded as missed on `date`:
        exactly when at least one missed row carries that key. */
    predicate IsMissed(medId: Value, doseIndex: int, date: string)
      reads this
      ensures IsMissed(medId, doseIndex, date) <==> MissedCount(medicationLogs, medId, doseIndex, date) > 0
    {
      MissedCountPositive(medicationLogs, medId, doseIndex, date);
      IsMissedIn(medicationLogs, medId, doseIndex, date)
    }

    /** Removes the first row recording the dose as missed. Logging does not
        deduplicate, so the dose stays missed unless that row was the only one. */
    method RemoveMissedDose(medId: Value, doseIndex: int, date: string)
      modifies this`medicationLogs
      ensures match FindIndex(old(medicationLogs), MissedDoseOf(medId, doseIndex, date))
              case None => medicationLogs == old(medicationLogs)
              case Some(i) => medicationLogs == RemoveAt(old(medicationLogs), i)
      ensures MissedCount(medicationLogs, medId, doseIndex, date)
           == if IsMissedIn(old(medicationLogs), medId, doseIndex, date)
              then MissedCount(old(medicationLogs), medId, doseIndex, date) - 1 else 0
      ensures IsMissed(medId, doseIndex, date) <==> MissedCount(old(medicationLogs), medId, doseIndex, date) >= 2
    {
      var p := MissedDoseOf(medId, doseIndex, date);
      ghost var before := medicationLogs;
      MissedCountPositive(before, medId, doseIndex, date);
      var index := FindIndex(medicationLogs, p);
      if index.Some? {
        FilterRemoveAt(medicationLogs, index.value, p);
        medicationLogs := RemoveAt(medicationLogs, index.value);
      } else {
        assert forall log :: log in before ==> !p(log);
      }
      MissedCountPositive(medicationLogs, medId, doseIndex, date);
    }

    /** Whether any dose of the medication is recorded as missed on `date`:
        exactly when some dose index of a logged row is missed that day. */
    predicate HasAnyMissedDose(medId: Value, date: string)
      reads this
      ensures HasAnyMissedDose(medId, date) <==>
        exists i :: 0 <= i < |medicationLogs| && IsMissed(medId, medicationLogs[i].doseIndex, date)
    {
      exists log :: log in medicationLogs && log.medId == medId && log.date == date && log.status == MISSED
    }

    /** A missed dose makes its day a missed day for the medication. */
    lemma IsMissedImpliesAnyMissed(medId: Value, doseIndex: int, date: string)
      ensures IsMissed(medId, doseIndex, date) ==> HasAnyMissedDose(medId, date)
    {
    }
  }

  /** Whether some row of `logs` records the dose (medId, doseIndex) as missed on `date`. */
  predicate IsMissedIn(logs: seq<MedicationLog>, medId: Value, doseIndex: int, date: string)
  {
    exists log :: log in logs && MissedDose(log, medId, doseIndex, date)
  }
}
