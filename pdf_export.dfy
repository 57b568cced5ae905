/** The data side of the medical report: which options apply, which
    episodes and missed doses fall in the date range, the table rows built
    from them, and where each section starts on the page. Drawing itself
    belongs to the layout library and is not modelled. */
module PdfExport {
  import opened Json
  import opened Collections
  import Medications

  type MedicationLog = Medications.MedicationLog

  // ---------------------------------------------------------------- options

  datatype ExportOptions = ExportOptions(
    includeEpisodes: bool,
    includeMissedMeds: bool,
    basicDetail: bool,
    includePatientInfo: bool,
    dateRange: Value)

  /** A destructuring default: it applies only when the property is `undefined`. */
  function OrDefault(v: Value, default: Value): Value
  {
    if v == Undefined then default else v
  }

  /** The options object with its defaults: episodes, missed doses and
      patient information are included and the detail level is 'full'
      unless the caller says otherwise; only the exact level 'basic'
      selects the short rows; the date range defaults to `null`. */
  function ResolveOptions(options: Obj): (r: ExportOptions)
    ensures r.includeEpisodes <==> Get(options, "includeEpisodes") == Undefined || Truthy(Get(options, "includeEpisodes"))
    ensures r.includeMissedMeds <==> Get(options, "includeMissedMeds") == Undefined || Truthy(Get(options, "includeMissedMeds"))
    ensures r.includePatientInfo <==> Get(options, "includePatientInfo") == Undefined || Truthy(Get(options, "includePatientInfo"))
    ensures r.basicDetail <==> Get(options, "episodeDetailLevel") == Str("basic")
    ensures Get(options, "dateRange") == Undefined ==> r.dateRange == Null
    ensures Get(options, "dateRange") != Undefined ==> r.dateRange == Get(options, "dateRange")
  {
    ExportOptions(
      Truthy(OrDefault(Get(options, "includeEpisodes"), Bool(true))),
      Truthy(OrDefault(Get(options, "includeMissedMeds"), Bool(true))),
      OrDefault(Get(options, "episodeDetailLevel"), Str("full")) == Str("basic"),
      Truthy(OrDefault(Get(options, "includePatientInfo"), Bool(true))),
      OrDefault(Get(options, "dateRange"), Null))
  }

  // ------------------------------------------------------------- date range

  /** One end of the date range: not given (falsy), given but not a date,
      or a point in time. */
  datatype Bound = Unset | Unparsable | At(time: int)

  /** `dateRange[key]`, parsed by `parseDate` (None stands for an invalid date). */
  function BoundOf(dateRange: Value, key: string, parseDate: Value -> Option<int>): (r: Bound)
    ensures r == Unset <==> !Truthy(Prop(dateRange, key))
    ensures r == Unparsable <==> Truthy(Prop(dateRange, key)) && parseDate(Prop(dateRange, key)).None?
    ensures r.At? ==> parseDate(Prop(dateRange, key)) == Some(r.time)
  {
    var v := Prop(dateRange, key);
    if !Truthy(v) then Unset
    else
      match parseDate(v)
      case None => Unparsable
      case Some(t) => At(t)
  }

  /** An item is dropped only by a bound it lies strictly outside of; an
      invalid date on either side compares false and drops nothing. */
  predicate WithinBounds(itemTime: Option<int>, from: Bound, to: Bound)
    ensures itemTime.None? ==> WithinBounds(itemTime, from, to)
    ensures !from.At? && !to.At? ==> WithinBounds(itemTime, from, to)
    ensures from.At? && to.At? && itemTime.Some? ==>
      (WithinBounds(itemTime, from, to) <==> from.time <= itemTime.value <= to.time)
  {
    && !(from.At? && itemTime.Some? && itemTime.value < from.time)
    && !(to.At? && itemTime.Some? && itemTime.value > to.time)
  }

  function InRangeOf<T>(dateOf: T -> Value, dateRange: Value, parseDate: Value -> Option<int>): T -> bool
  {
    x => WithinBounds(parseDate(dateOf(x)), BoundOf(dateRange, "from", parseDate), BoundOf(dateRange, "to", parseDate))
  }

  /** `filterByDateRange(items, field)`: with no range, or neither end
      given, the items as they are; otherwise, in order, every item whose
      date is not before `from` and not after `to`, both ends inclusive. */
  function FilterByDateRange<T(==, !new)>(items: seq<T>, dateOf: T -> Value, dateRange: Value, parseDate: Value -> Option<int>)
    : (r: seq<T>)
    ensures !Truthy(dateRange) ==> r == items
    ensures !Truthy(Prop(dateRange, "from")) && !Truthy(Prop(dateRange, "to")) ==> r == items
    ensures Subseq(r, items)
    ensures forall x :: multiset(r)[x] ==
                          if InRangeOf(dateOf, dateRange, parseDate)(x) then multiset(items)[x] else 0
  {
    if !Truthy(dateRange) || (!Truthy(Prop(dateRange, "from")) && !Truthy(Prop(dateRange, "to"))) then
      SubseqRefl(items);
      items
    else
      FilterIsSubseq(items, InRangeOf(dateOf, dateRange, parseDate));
      FilterMultiplicity(items, InRangeOf(dateOf, dateRange, parseDate));
      Filter(items, InRangeOf(dateOf, dateRange, parseDate))
  }

  /** With both ends given as dates, an item with a valid date is kept
      exactly when `from <= date <= to`. */
  lemma DateRangeInclusive<T(!new)>(items: seq<T>, dateOf: T -> Value, dateRange: Value,
                                        parseDate: Value -> Option<int>, x: T, from: int, to: int, t: int)
    requires BoundOf(dateRange, "from", parseDate) == At(from)
    requires BoundOf(dateRange, "to", parseDate) == At(to)
    requires parseDate(dateOf(x)) == Some(t)
    ensures x in FilterByDateRange(items, dateOf, dateRange, parseDate) <==> x in items && from <= t <= to
  {
    var r := FilterByDateRange(items, dateOf, dateRange, parseDate);
    assert multiset(r)[x] == if from <= t <= to then multiset(items)[x] else 0;
  }

  // ----------------------------------------------------------- missed logs

  predicate IsMissedLog(log: MedicationLog)
  {
    log.status == Medications.MISSED
  }

  /** `medicationLogs.filter(log => log.status === 'missed')`. */
  function MissedLogs(logs: seq<MedicationLog>): (r: seq<MedicationLog>)
    ensures Subseq(r, logs)
    ensures forall log :: multiset(r)[log] == if IsMissedLog(log) then multiset(logs)[log] else 0
  {
    FilterIsSubseq(logs, IsMissedLog);
    FilterMultiplicity(logs, IsMissedLog);
    Filter(logs, IsMissedLog)
  }

  // ----------------------------------------------------------------- cells

  /** A table cell, with translation and locale formatting left symbolic. */
  datatype Cell =
    | Field(v: Value)                          // a value of the record, as it is
    | Label(key: string)                       // t(key)
    | CodeLabel(prefix: string, code: Value)   // t(prefix + code)
    | DoseLabel(current: int, total: Value)    // t('pdf.report.dose_label', { current, total })
    | LocaleDate(v: Value)                     // the date part of `new Date(v)` in the locale
    | LocaleTime(v: Value)                     // its hour and minute in the locale
    | Joined(parts: seq<Cell>)                 // parts.join(', ')

  const PLACEHOLDER := Field(Str("-"))
  const TYPE_PREFIX := "common.episode_types."
  const CODE_PREFIX := "common."

  /** `v || '-'`. */
  function OrPlaceholder(v: Value): (r: Cell)
    ensures r == PLACEHOLDER <==> (!Truthy(v) || v == Str("-"))
    ensures r != PLACEHOLDER ==> r == Field(v)
  {
    if Truthy(v) then Field(v) else PLACEHOLDER
  }

  /** The elements an array field contributes; a missing field contributes none. */
  function Items(v: Value): seq<Value>
  {
    if v.Array? then v.items else []
  }

  function CodeLabels(codes: seq<Value>): (r: seq<Cell>)
    ensures |r| == |codes|
    ensures forall i :: 0 <= i < |r| ==> r[i] == CodeLabel(CODE_PREFIX, codes[i])
  {
    seq(|codes|, i requires 0 <= i < |codes| => CodeLabel(CODE_PREFIX, codes[i]))
  }

  /** The warning, then the during, then the after symptoms. */
  function Symptoms(ep: Obj): (r: seq<Value>)
    ensures var w, d := Items(Get(ep, "warningSymptoms")), Items(Get(ep, "duringSymptoms"));
      && |r| == |w| + |d| + |Items(Get(ep, "afterSymptoms"))|
      && r[..|w|] == w
      && r[|w|..|w| + |d|] == d
      && r[|w| + |d|..] == Items(Get(ep, "afterSymptoms"))
  {
    Items(Get(ep, "warningSymptoms")) + Items(Get(ep, "duringSymptoms")) + Items(Get(ep, "afterSymptoms"))
  }

  /** The translated symptoms joined in that order, or '-' when there are none. */
  function SymptomsCell(ep: Obj): (r: Cell)
    ensures Symptoms(ep) == [] <==> r == PLACEHOLDER
    ensures Symptoms(ep) != [] ==> r.Joined? && |r.parts| == |Symptoms(ep)|
    ensures Symptoms(ep) != [] ==> forall i :: 0 <= i < |r.parts| ==> r.parts[i] == CodeLabel(CODE_PREFIX, Symptoms(ep)[i])
  {
    var symptoms := Symptoms(ep);
    if |symptoms| > 0 then Joined(CodeLabels(symptoms)) else PLACEHOLDER
  }

  /** The translated triggers joined in order, or '-' for a missing or empty list. */
  function TriggersCell(ep: Obj): (r: Cell)
    ensures Items(Get(ep, "triggers")) == [] <==> r == PLACEHOLDER
    ensures Items(Get(ep, "triggers")) != [] ==> r.Joined? && |r.parts| == |Items(Get(ep, "triggers"))|
    ensures Items(Get(ep, "triggers")) != [] ==>
      forall i :: 0 <= i < |r.parts| ==> r.parts[i] == CodeLabel(CODE_PREFIX, Items(Get(ep, "triggers"))[i])
  {
    var triggers := Get(ep, "triggers");
    if triggers.Array? && |triggers.items| > 0 then Joined(CodeLabels(triggers.items)) else PLACEHOLDER
  }

  const WITNESSED := Label("pdf.report.someone_witnessed")
  const EMERGENCY_CALLED := Label("pdf.report.emergency_called")
  const WENT_TO_HOSPITAL := Label("pdf.report.went_to_hospital")

  /** Keeping any choice of the three labels keeps their order. */
  lemma EmergencyOrder(w: bool, e: bool, h: bool)
    ensures Subseq((if w then [WITNESSED] else []) + (if e then [EMERGENCY_CALLED] else [])
                   + (if h then [WENT_TO_HOSPITAL] else []),
                   [WITNESSED, EMERGENCY_CALLED, WENT_TO_HOSPITAL])
  {
    var s := [WITNESSED, EMERGENCY_CALLED, WENT_TO_HOSPITAL];
    assert s[1..] == [EMERGENCY_CALLED, WENT_TO_HOSPITAL] && s[1..][1..] == [WENT_TO_HOSPITAL];
    assert Subseq([WENT_TO_HOSPITAL], [WENT_TO_HOSPITAL]);
    assert Subseq([], [WENT_TO_HOSPITAL]);
  }

  /** The labels of the emergency flags that are set, in the order
      witnessed, emergency called, went to hospital. */
  function EmergencyLabels(ep: Obj): (r: seq<Cell>)
    ensures WITNESSED in r <==> Truthy(Get(ep, "someoneWitnessed"))
    ensures EMERGENCY_CALLED in r <==> Truthy(Get(ep, "emergencyCalled"))
    ensures WENT_TO_HOSPITAL in r <==> Truthy(Get(ep, "wentToHospital"))
    ensures Subseq(r, [WITNESSED, EMERGENCY_CALLED, WENT_TO_HOSPITAL])
  {
    EmergencyOrder(Truthy(Get(ep, "someoneWitnessed")), Truthy(Get(ep, "emergencyCalled")),
                   Truthy(Get(ep, "wentToHospital")));
    (if Truthy(Get(ep, "someoneWitnessed")) then [WITNESSED] else [])
    + (if Truthy(Get(ep, "emergencyCalled")) then [EMERGENCY_CALLED] else [])
    + (if Truthy(Get(ep, "wentToHospital")) then [WENT_TO_HOSPITAL] else [])
  }

  /** The set flags' labels joined, or '-' when no flag is set. */
  function EmergencyCell(ep: Obj): (r: Cell)
    ensures r == PLACEHOLDER <==> !Truthy(Get(ep, "someoneWitnessed")) && !Truthy(Get(ep, "emergencyCalled"))
                                  && !Truthy(Get(ep, "wentToHospital"))
    ensures r != PLACEHOLDER ==> r == Joined(EmergencyLabels(ep))
  {
    var flags := EmergencyLabels(ep);
    if |flags| > 0 then Joined(flags) else PLACEHOLDER
  }

  /** The column headers of the episode table. */
  function EpisodeHeaders(basic: bool): (r: seq<Cell>)
    ensures |r| == if basic then 3 else 9
    ensures r[..3] == [Label("pdf.report.date"), Label("pdf.report.time"), Label("pdf.report.type")]
  {
    var common := [Label("pdf.report.date"), Label("pdf.report.time"), Label("pdf.report.type")];
    if basic then common
    else common + [Label("pdf.report.severity"), Label("pdf.report.duration"), Label("pdf.report.triggers"),
                   Label("pdf.report.symptoms"), Label("pdf.report.emergency"), Label("pdf.report.notes")]
  }

  /** The columns every level has: date, time and type; a missing type
      reads as 'general'. */
  function BaseCells(ep: Obj): (r: seq<Cell>)
    ensures |r| == 3
    ensures r[0] == LocaleDate(Get(ep, "timestamp")) && r[1] == LocaleTime(Get(ep, "timestamp"))
    ensures Truthy(Get(ep, "type")) ==> r[2] == CodeLabel(TYPE_PREFIX, Get(ep, "type"))
    ensures !Truthy(Get(ep, "type")) ==> r[2] == CodeLabel(TYPE_PREFIX, Str("general"))
  {
    [LocaleDate(Get(ep, "timestamp")), LocaleTime(Get(ep, "timestamp")),
     CodeLabel(TYPE_PREFIX, if Truthy(Get(ep, "type")) then Get(ep, "type") else Str("general"))]
  }

  /** The columns the full level adds: severity, duration, triggers,
      symptoms, emergency response and notes, each '-' when the episode
      has none. */
  function DetailCells(ep: Obj): (r: seq<Cell>)
    ensures |r| == 6
    ensures r[0] == OrPlaceholder(Get(ep, "severity")) && r[1] == OrPlaceholder(Get(ep, "duration"))
    ensures r[5] == OrPlaceholder(Get(ep, "notes"))
    ensures !Truthy(Get(ep, "severity")) ==> r[0] == PLACEHOLDER
    ensures !Truthy(Get(ep, "duration")) ==> r[1] == PLACEHOLDER
    ensures r[2] == TriggersCell(ep) && r[3] == SymptomsCell(ep) && r[4] == EmergencyCell(ep)
  {
    [OrPlaceholder(Get(ep, "severity")), OrPlaceholder(Get(ep, "duration")),
     TriggersCell(ep), SymptomsCell(ep), EmergencyCell(ep), OrPlaceholder(Get(ep, "notes"))]
  }

  /** One row of the episode table: the base columns, followed at the full
      level by the detail columns, matching the headers one for one. */
  function EpisodeRow(ep: Obj, basic: bool): (r: seq<Cell>)
    ensures |r| == |EpisodeHeaders(basic)|
    ensures r[..3] == BaseCells(ep)
    ensures !basic ==> r[3..] == DetailCells(ep)
  {
    if basic then BaseCells(ep) else BaseCells(ep) + DetailCells(ep)
  }

  /** The detailed row's triggers, symptoms and emergency columns: each is
      '-' when the episode has none, and otherwise the translated values
      joined in order. */
  lemma EpisodeRowContents(ep: Obj)
    ensures var r := EpisodeRow(ep, false);
      && (Items(Get(ep, "triggers")) == [] ==> r[5] == PLACEHOLDER)
      && (Items(Get(ep, "triggers")) != [] ==> r[5] == Joined(CodeLabels(Items(Get(ep, "triggers")))))
      && (Symptoms(ep) == [] ==> r[6] == PLACEHOLDER)
      && (Symptoms(ep) != [] ==> r[6] == Joined(CodeLabels(Symptoms(ep))))
      && (EmergencyLabels(ep) == [] ==> r[7] == PLACEHOLDER)
      && (EmergencyLabels(ep) != [] ==> r[7] == Joined(EmergencyLabels(ep)))
  {
    var r := EpisodeRow(ep, false);
    assert r[5] == r[3..][2] && r[6] == r[3..][3] && r[7] == r[3..][4];
    var t := Items(Get(ep, "triggers"));
    if t != [] {
      var c := TriggersCell(ep);
      assert c.parts == CodeLabels(t);
    }
    if Symptoms(ep) != [] {
      var c := SymptomsCell(ep);
      assert c.parts == CodeLabels(Symptoms(ep));
    }
    if EmergencyLabels(ep) == [] {
      assert WITNESSED !in EmergencyLabels(ep);
      assert EMERGENCY_CALLED !in EmergencyLabels(ep);
      assert WENT_TO_HOSPITAL !in EmergencyLabels(ep);
    }
  }

  /** The column headers of the missed-medication table. */
  function MissedHeaders(): (r: seq<Cell>)
    ensures |r| == 4
  {
    [Label("pdf.report.date"), Label("pdf.report.medication"),
     Label("pdf.report.medication_dosage"), Label("pdf.report.medication_frequency")]
  }

  /** `med.frequency > 1` for a numeric frequency. */
  predicate SeveralDoses(frequency: Value)
  {
    frequency.Num? && frequency.n > 1
  }

  /** The first medication whose id is the log's `medId`. */
  function MedicationOf(meds: seq<Obj>, medId: Value): (r: Option<Obj>)
    ensures r.Some? ==> r.value in meds && HasId(r.value, medId)
    ensures r.Some? ==> exists i :: 0 <= i < |meds| && r.value == meds[i] && HasId(meds[i], medId)
                                    && forall j :: 0 <= j < i ==> !HasId(meds[j], medId)
    ensures r.None? ==> forall m :: m in meds ==> !HasId(m, medId)
  {
    match FindIndex(meds, IdIs(medId))
    case None => None
    case Some(i) => Some(meds[i])
  }

  /** One row of the missed-medication table: date, name, dosage and the
      dose label, "dose (index + 1) of frequency" for several doses a day
      and the single-dose label otherwise. */
  function MissedRow(log: MedicationLog, med: Obj): (r: seq<Cell>)
    ensures |r| == |MissedHeaders()|
    ensures r[0] == LocaleDate(Str(log.date))
    ensures r[1] == Field(Get(med, "name")) && r[2] == Field(Get(med, "dosage"))
    ensures SeveralDoses(Get(med, "frequency")) ==> r[3] == DoseLabel(log.doseIndex + 1, Get(med, "frequency"))
    ensures !SeveralDoses(Get(med, "frequency")) ==> r[3] == Label("pdf.report.single_dose")
  {
    var dose := if SeveralDoses(Get(med, "frequency"))
                 then DoseLabel(log.doseIndex + 1, Get(med, "frequency"))
                 else Label("pdf.report.single_dose");
    [LocaleDate(Str(log.date)), Field(Get(med, "name")), Field(Get(med, "dosage")), dose]
  }

  /** The row of one missed log, or None (the source's `null`) when its
      medication no longer exists. */
  function RowOf(log: MedicationLog, meds: seq<Obj>): (r: Option<seq<Cell>>)
    ensures r.Some? <==> MedicationOf(meds, log.medId).Some?
    ensures r.Some? ==> r.value == MissedRow(log, MedicationOf(meds, log.medId).value)
  {
    match MedicationOf(meds, log.medId)
    case None => None
    case Some(med) => Some(MissedRow(log, med))
  }

  function RowOfIn(meds: seq<Obj>): MedicationLog -> Option<seq<Cell>>
  {
    log => RowOf(log, meds)
  }

  /** The logs whose medication still exists. */
  function HasMedicationIn(meds: seq<Obj>): MedicationLog -> bool
  {
    IsSome(RowOfIn(meds))
  }

  /** The rows of the missed-medication table: the logs mapped to rows, with
      the logs of deleted medications dropped. Row `i` is the row of the
      `i`-th log whose medication exists, built from the first medication
      with its id. */
  function MissedMedRows(logs: seq<MedicationLog>, meds: seq<Obj>): (r: seq<seq<Cell>>)
    ensures |r| == |Filter(logs, HasMedicationIn(meds))| <= |logs|
    ensures forall i :: 0 <= i < |r| ==> Some(r[i]) == RowOf(Filter(logs, HasMedicationIn(meds))[i], meds)
    ensures forall i :: 0 <= i < |r| ==> |r[i]| == |MissedHeaders()|
  {
    var rows := Somes(MapSeq(logs, RowOfIn(meds)));
    SomesOfMap(logs, RowOfIn(meds));
    forall i | 0 <= i < |rows|
      ensures Some(rows[i]) == RowOf(Filter(logs, HasMedicationIn(meds))[i], meds)
      ensures |rows[i]| == |MissedHeaders()|
    {
      var log := Filter(logs, HasMedicationIn(meds))[i];
      assert RowOfIn(meds)(log) == RowOf(log, meds);
    }
    rows
  }

  // ---------------------------------------------------------------- report

  datatype EpisodeSection = EpisodeTable(head: seq<Cell>, body: seq<seq<Cell>>) | NoEpisodesRecorded

  /** A missed-medication section: a table, only its heading (the missed
      logs in range all belong to deleted medications), or the message that
      none were recorded. */
  datatype MissedSection = MissedTable(head: seq<Cell>, body: seq<seq<Cell>>) | MissedHeadingOnly | NoMissedRecorded

  datatype Report = Report(episodes: Option<EpisodeSection>, missed: Option<MissedSection>, fileName: string)

  /** `EpiFriend_Report_<first ten characters of the ISO time>.pdf`. */
  function FileName(nowIso: string): (r: string)
    ensures |nowIso| >= 10 ==> r == "EpiFriend_Report_" + nowIso[..10] + ".pdf"
    ensures |nowIso| < 10 ==> r == "EpiFriend_Report_" + nowIso + ".pdf"
    ensures |r| == 21 + Min(|nowIso|, 10) && r[..17] == "EpiFriend_Report_" && r[|r| - 4..] == ".pdf"
  {
    "EpiFriend_Report_" + (if |nowIso| >= 10 then nowIso[..10] else nowIso) + ".pdf"
  }

  function EpisodeTime(ep: Obj): Value
  {
    Get(ep, "timestamp")
  }

  /** The episodes the report covers. */
  function EpisodesInRange(episodes: seq<Obj>, o: ExportOptions, parseDate: Value -> Option<int>): seq<Obj>
  {
    FilterByDateRange(episodes, EpisodeTime, o.dateRange, parseDate)
  }

  /** The episode section: a table with one row per episode in range, in
      order, or the "no episodes" message when there is none. */
  function EpisodeSectionOf(episodes: seq<Obj>, o: ExportOptions, parseDate: Value -> Option<int>): (r: EpisodeSection)
    ensures r.EpisodeTable? <==> |EpisodesInRange(episodes, o, parseDate)| > 0
    ensures r.EpisodeTable? ==> r.head == EpisodeHeaders(o.basicDetail) && |r.head| == if o.basicDetail then 3 else 9
    ensures r.EpisodeTable? ==> |r.body| == |EpisodesInRange(episodes, o, parseDate)|
    ensures r.EpisodeTable? ==> forall i :: 0 <= i < |r.body| ==>
      r.body[i] == EpisodeRow(EpisodesInRange(episodes, o, parseDate)[i], o.basicDetail) && |r.body[i]| == |r.head|
  {
    var filtered := EpisodesInRange(episodes, o, parseDate);
    if |filtered| > 0 then
      EpisodeTable(EpisodeHeaders(o.basicDetail),
                   seq(|filtered|, i requires 0 <= i < |filtered| => EpisodeRow(filtered[i], o.basicDetail)))
    else NoEpisodesRecorded
  }

  function LogDate(log: MedicationLog): Value
  {
    Str(log.date)
  }

  /** The missed-dose rows the report covers. */
  function MissedInRange(logs: seq<MedicationLog>, o: ExportOptions, parseDate: Value -> Option<int>): seq<MedicationLog>
  {
    FilterByDateRange(MissedLogs(logs), LogDate, o.dateRange, parseDate)
  }

  /** The missed-medication section: the "none recorded" message when no
      missed row is in range; otherwise the heading, followed by a table of
      the rows of those logs whose medication still exists, if any. */
  function MissedSectionOf(logs: seq<MedicationLog>, meds: seq<Obj>, o: ExportOptions, parseDate: Value -> Option<int>)
    : (r: MissedSection)
    ensures r.NoMissedRecorded? <==> |MissedInRange(logs, o, parseDate)| == 0
    ensures r.MissedHeadingOnly? <==>
      |MissedInRange(logs, o, parseDate)| > 0 && MissedMedRows(MissedInRange(logs, o, parseDate), meds) == []
    ensures r.MissedTable? ==>
      && r.head == MissedHeaders()
      && r.body == MissedMedRows(MissedInRange(logs, o, parseDate), meds)
      && 0 < |r.body| <= |MissedInRange(logs, o, parseDate)| <= |logs|
    ensures r.MissedTable? ==> forall i :: 0 <= i < |r.body| ==> |r.body[i]| == |r.head|
  {
    var filtered := MissedInRange(logs, o, parseDate);
    SubseqLength(filtered, MissedLogs(logs));
    SubseqLength(MissedLogs(logs), logs);
    if |filtered| > 0 then
      var rows := MissedMedRows(filtered, meds);
      if |rows| > 0 then MissedTable(MissedHeaders(), rows) else MissedHeadingOnly
    else NoMissedRecorded
  }

  /** The report's content for the given options and store snapshots. */
  function BuildReport(options: Obj, episodes: seq<Obj>, meds: seq<Obj>, logs: seq<MedicationLog>,
                       parseDate: Value -> Option<int>, nowIso: string): (r: Report)
    ensures r.episodes.Some? <==> ResolveOptions(options).includeEpisodes
    ensures r.missed.Some? <==> ResolveOptions(options).includeMissedMeds
    ensures r.episodes.Some? ==> r.episodes.value == EpisodeSectionOf(episodes, ResolveOptions(options), parseDate)
    ensures r.missed.Some? ==> r.missed.value == MissedSectionOf(logs, meds, ResolveOptions(options), parseDate)
    ensures r.fileName == FileName(nowIso)
  {
    var o := ResolveOptions(options);
    Report(
      if o.includeEpisodes then Some(EpisodeSectionOf(episodes, o, parseDate)) else None,
      if o.includeMissedMeds then Some(MissedSectionOf(logs, meds, o, parseDate)) else None,
      FileName(nowIso))
  }

  // ---------------------------------------------------------------- layout

  const PAGE_TOP := 20
  const EPISODES_BREAK := 250
  const MISSED_BREAK := 220
  const NO_MISSED_BREAK := 270

  datatype SectionKind = EpisodesTableKind | EpisodesEmptyKind | MissedTableKind | MissedEmptyKind

  /** The position past which a section starts on a new page; the
      "no episodes" message has no such check. */
  function Threshold(kind: SectionKind): Option<int>
  {
    match kind
    case EpisodesTableKind => Some(EPISODES_BREAK)
    case EpisodesEmptyKind => None
    case MissedTableKind => Some(MISSED_BREAK)
    case MissedEmptyKind => Some(NO_MISSED_BREAK)
  }

  /** Where a section heading went: the position the section was reached
      at, the position its heading was drawn at, and whether a page was added. */
  datatype Placement = Placement(kind: SectionKind, reachedY: int, headingY: int, newPage: bool)

  /** The page-break rule: past the threshold a page is added and the
      heading goes to the top of the new page; otherwise it stays. */
  predicate FollowsBreakRule(p: Placement)
  {
    match Threshold(p.kind)
    case None => !p.newPage && p.headingY == p.reachedY
    case Some(limit) => p.newPage == (p.reachedY > limit) && p.headingY == if p.newPage then PAGE_TOP else p.reachedY
  }

  /** The running `yPosition` through the episode and missed-medication
      sections, from the position reached after the patient information.
      The layout library reports where each table ended. */
  method PlaceSections(report: Report, yAfterPatientInfo: int, episodesTableEnd: int, missedTableEnd: int)
    returns (placements: seq<Placement>, y: int)
    ensures forall p :: p in placements ==> FollowsBreakRule(p)
    ensures forall p :: p in placements && Threshold(p.kind).Some? ==> p.headingY <= Threshold(p.kind).value
    ensures |placements| == (if report.episodes.Some? then 1 else 0) + (if report.missed.Some? then 1 else 0)
    ensures report.episodes.Some? ==> placements[0].reachedY == yAfterPatientInfo + 10
    ensures report.episodes.Some? ==>
      placements[0].kind == if report.episodes.value.EpisodeTable? then EpisodesTableKind else EpisodesEmptyKind
    ensures report.episodes == Some(NoEpisodesRecorded) ==> placements[0].headingY == yAfterPatientInfo + 10
    ensures report.missed.Some? ==>
      var p := placements[|placements| - 1];
      && p.kind == (if report.missed.value.NoMissedRecorded? then MissedEmptyKind else MissedTableKind)
      && p.reachedY == match report.episodes
                       case None => yAfterPatientInfo + 10
                       case Some(EpisodeTable(_, _)) => episodesTableEnd + 15
                       case Some(NoEpisodesRecorded) => placements[0].headingY + 22
  {
    y := yAfterPatientInfo + 10;
    placements := [];
    if report.episodes.Some? {
      if report.episodes.value.EpisodeTable? {
        var reached := y;
        var newPage := y > EPISODES_BREAK;
        if newPage {
          y := PAGE_TOP;
        }
        placements := placements + [Placement(EpisodesTableKind, reached, y, newPage)];
        y := y + 7;
        y := episodesTableEnd + 15;
      } else {
        placements := placements + [Placement(EpisodesEmptyKind, y, y, false)];
        y := y + 7;
        y := y + 15;
      }
    }
    if report.missed.Some? {
      var reached := y;
      if !report.missed.value.NoMissedRecorded? {
        var newPage := y > MISSED_BREAK;
        if newPage {
          y := PAGE_TOP;
        }
        placements := placements + [Placement(MissedTableKind, reached, y, newPage)];
        y := y + 7;
        if report.missed.value.MissedTable? {
          y := missedTableEnd + 15;
        }
      } else {
        var newPage := y > NO_MISSED_BREAK;
        if newPage {
          y := PAGE_TOP;
        }
        placements := placements + [Placement(MissedEmptyKind, reached, y, newPage)];
        y := y + 7;
      }
    }
  }

  // -------------------------------------------------------------- examples

  /** A dose of medication m1 missed on 2024-01-01 shows up in a report
      for exactly that day... */
  lemma MissedDoseSameDayExample(parseDate: Value -> Option<int>, med: Obj, log: MedicationLog, day: int)
    requires Get(med, "id") == Str("m1")
    requires log == Medications.MedicationLog("l1", Str("m1"), 0, "2024-01-01", Medications.MISSED, "2024-01-01T08:00:00Z")
    requires parseDate(Str("2024-01-01")) == Some(day)
    ensures
      var options := map["dateRange" := Object(map["from" := Str("2024-01-01"), "to" := Str("2024-01-01")])];
      BuildReport(options, [], [med], [log], parseDate, "2024-01-01T09:00:00Z").missed
        == Some(MissedTable(MissedHeaders(), [MissedRow(log, med)]))
  {
    var range := Object(map["from" := Str("2024-01-01"), "to" := Str("2024-01-01")]);
    var o := ResolveOptions(map["dateRange" := range]);
    assert o.includeMissedMeds && o.dateRange == range;
    OnlyMissedLog(log);
    assert BoundOf(range, "from", parseDate) == At(day) && BoundOf(range, "to", parseDate) == At(day);
    assert parseDate(LogDate(log)) == Some(day);
    assert InRangeOf(LogDate, range, parseDate)(log) == WithinBounds(Some(day), At(day), At(day));
    assert [log][1..] == [];
    assert FilterByDateRange([log], LogDate, range, parseDate) == [log];
    assert MedicationOf([med], Str("m1")) == Some(med);
    assert RowOf(log, [med]) == Some(MissedRow(log, med));
    assert MissedMedRows([log], [med]) == [MissedRow(log, med)];
    assert MissedSectionOf([log], [med], o, parseDate) == MissedTable(MissedHeaders(), [MissedRow(log, med)]);
  }

  /** ...and not in one starting the day after. */
  lemma MissedDoseNextDayExample(parseDate: Value -> Option<int>, med: Obj, log: MedicationLog, day1: int, day2: int)
    requires Get(med, "id") == Str("m1")
    requires log == Medications.MedicationLog("l1", Str("m1"), 0, "2024-01-01", Medications.MISSED, "2024-01-01T08:00:00Z")
    requires parseDate(Str("2024-01-01")) == Some(day1) && parseDate(Str("2024-01-02")) == Some(day2) && day1 < day2
    ensures
      var options := map["dateRange" := Object(map["from" := Str("2024-01-02")])];
      BuildReport(options, [], [med], [log], parseDate, "2024-01-01T09:00:00Z").missed == Some(NoMissedRecorded)
  {
    var range := Object(map["from" := Str("2024-01-02")]);
    var o := ResolveOptions(map["dateRange" := range]);
    assert o.includeMissedMeds && o.dateRange == range;
    OnlyMissedLog(log);
    assert BoundOf(range, "from", parseDate) == At(day2) && BoundOf(range, "to", parseDate) == Unset;
    assert parseDate(LogDate(log)) == Some(day1);
    assert InRangeOf(LogDate, range, parseDate)(log) == WithinBounds(Some(day1), At(day2), Unset);
    assert [log][1..] == [];
    assert FilterByDateRange([log], LogDate, range, parseDate) == [];
    assert MissedSectionOf([log], [med], o, parseDate) == NoMissedRecorded;
  }

  lemma OnlyMissedLog(log: MedicationLog)
    requires IsMissedLog(log)
    ensures MissedLogs([log]) == [log]
  {
    assert [log][1..] == [];
  }
}
