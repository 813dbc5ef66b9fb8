// The staging half of logbook/imports.py: each tokenized record is split into
// typed core columns and extras, kept or refused on the three required
// columns, staged in batches, and later finalized into log entries.

module AdifStaging {
  import opened Wrappers
  import opened Text
  import opened Calendar
  import opened CoreColumns
  import opened AdifFields
  import opened AdifCatalog
  import opened AdifRecords
  import opened QsoValidation

  /** The typed core columns of a record, as `parse_adif_to_staged` builds its `data` dict. */
  type CoreData = map<Field, CoreValue>

  /** The tags kept aside, as the `extras` dict. */
  type Extras = map<string, string>

  /**
   * CORE_MAP as `parse_adif_to_staged` uses it (AdifFields.CoreTable). The
   * routing of one record is stated for any type of column key `K`; the
   * staged rows use `Field`.
   */
  type Columns<K> = map<string, Column<K>>

  /** No two tags of the table fill the same column, as holds for CORE_MAP. */
  ghost predicate Distinct<K>(core: Columns<K>) {
    forall t1, t2 :: t1 in core && t2 in core && core[t1].field == core[t2].field ==> t1 == t2
  }

  lemma CoreTableDistinct()
    ensures Distinct(CoreTable)
  {
    CoreTableHasShape();
  }

  // ---------------------------------------------------------------- one record

  /**
   * `normalize_extra_value(tag, val)`, passed in as a function; over the
   * ADIF catalog it is AdifCatalog.NormalizeExtraValue.
   */
  type Normalizer = (string, string) -> string

  /** Tag `t` of the record is a core tag whose caster returns a value. */
  predicate Filled<K>(core: Columns<K>, fields: map<string, string>, t: string) {
    t in fields && t in core && core[t].cast(fields[t]).Cast?
  }

  /** The two dicts the inner loop of `parse_adif_to_staged` fills for one record. */
  datatype Routed<K> = Routed(data: map<K, CoreValue>, extras: Extras)

  /**
   * One pass of the inner loop: a core tag goes to its column when its
   * caster returns, and to the extras as raw text when it raises; any other
   * tag goes to the extras, normalized through the catalog.
   */
  function Route<K>(core: Columns<K>, normalize: Normalizer, fields: map<string, string>, acc: Routed<K>, tag: string): Routed<K>
    requires tag in fields
  {
    var val := fields[tag];
    if tag in core then
      match core[tag].cast(val)
      case Cast(v) => acc.(data := acc.data[core[tag].field := v])
      case Raised => acc.(extras := acc.extras[tag := val])
    else acc.(extras := acc.extras[tag := normalize(tag, val)])
  }

  /** The two dicts after the loop has taken in the tags of `done`. */
  ghost function RouteAll<K>(core: Columns<K>, normalize: Normalizer, fields: map<string, string>, done: set<string>): Routed<K>
    requires done <= fields.Keys
    decreases done
  {
    if done == {} then Routed(map[], map[])
    else
      var t :| t in done;
      Route(core, normalize, fields, RouteAll(core, normalize, fields, done - {t}), t)
  }

  /** Two updates at different keys can be made in either order. */
  lemma UpdatesCommute<A, B>(m: map<A, B>, a: A, x: B, b: A, y: B)
    requires a != b
    ensures m[a := x][b := y] == m[b := y][a := x]
  {
  }

  /** What one tag adds: to the columns, to the extras, or neither. */
  lemma RouteShape<K>(core: Columns<K>, normalize: Normalizer, fields: map<string, string>, acc: Routed<K>, t: string)
    requires t in fields
    ensures var r := Route(core, normalize, fields, acc, t);
      if Filled(core, fields, t) then
        r == Routed(acc.data[core[t].field := core[t].cast(fields[t]).value], acc.extras)
      else
        r == Routed(acc.data, acc.extras[t := if t in core then fields[t] else normalize(t, fields[t])])
  {
  }

  /** Two different tags can be taken in either order, since they fill different columns. */
  lemma RouteCommutes<K>(core: Columns<K>, normalize: Normalizer, fields: map<string, string>, acc: Routed<K>, t1: string, t2: string)
    requires Distinct(core) && t1 in fields && t2 in fields && t1 != t2
    ensures Route(core, normalize, fields, Route(core, normalize, fields, acc, t1), t2) ==
      Route(core, normalize, fields, Route(core, normalize, fields, acc, t2), t1)
  {
    var r1, r2 := Route(core, normalize, fields, acc, t1), Route(core, normalize, fields, acc, t2);
    RouteShape(core, normalize, fields, acc, t1);
    RouteShape(core, normalize, fields, acc, t2);
    RouteShape(core, normalize, fields, r1, t2);
    RouteShape(core, normalize, fields, r2, t1);
    var f1, f2 := Filled(core, fields, t1), Filled(core, fields, t2);
    if f1 && f2 {
      assert core[t1].field != core[t2].field;
      UpdatesCommute(acc.data, core[t1].field, core[t1].cast(fields[t1]).value, core[t2].field, core[t2].cast(fields[t2]).value);
    } else if !f1 && !f2 {
      UpdatesCommute(acc.extras, t1, if t1 in core then fields[t1] else normalize(t1, fields[t1]),
        t2, if t2 in core then fields[t2] else normalize(t2, fields[t2]));
    }
  }

  /** Whichever tag the loop takes last, the dicts come out the same. */
  lemma {:induction false} RouteLast<K>(core: Columns<K>, normalize: Normalizer, fields: map<string, string>, done: set<string>, t: string)
    requires Distinct(core) && done <= fields.Keys && t in done
    ensures RouteAll(core, normalize, fields, done) ==
      Route(core, normalize, fields, RouteAll(core, normalize, fields, done - {t}), t)
    decreases |done|
  {
    var c :| c in done && RouteAll(core, normalize, fields, done) ==
      Route(core, normalize, fields, RouteAll(core, normalize, fields, done - {c}), c);
    if c != t {
      var rest := done - {c} - {t};
      assert done - {c} - {t} == done - {t} - {c};
      RouteLast(core, normalize, fields, done - {c}, t);
      RouteLast(core, normalize, fields, done - {t}, c);
      RouteCommutes(core, normalize, fields, RouteAll(core, normalize, fields, rest), t, c);
    }
  }

  /** The two dicts built for a whole record. */
  ghost function Classified<K>(core: Columns<K>, normalize: Normalizer, fields: map<string, string>): Routed<K> {
    RouteAll(core, normalize, fields, fields.Keys)
  }

  /** The inner loop of `parse_adif_to_staged`: every tag of one record routed to `data` or `extras`. */
  method ClassifyRecord<K>(core: Columns<K>, normalize: Normalizer, fields: map<string, string>)
    returns (data: map<K, CoreValue>, extras: Extras)
    requires Distinct(core)
    ensures Routed(data, extras) == Classified(core, normalize, fields)
  {
    data, extras := map[], map[];
    var todo := fields.Keys;
    ghost var done: set<string> := {};
    while todo != {}
      invariant todo <= fields.Keys && done == fields.Keys - todo
      invariant Routed(data, extras) == RouteAll(core, normalize, fields, done)
      decreases |todo|
    {
      var tag :| tag in todo;
      var val := fields[tag];
      RouteShape(core, normalize, fields, Routed(data, extras), tag);
      RouteLast(core, normalize, fields, done + {tag}, tag);
      assert done + {tag} - {tag} == done;
      if tag in core {
        var outcome := core[tag].cast(val);
        if outcome.Cast? {
          data := data[core[tag].field := outcome.value];
        } else {
          extras := extras[tag := val];
        }
      } else {
        extras := extras[tag := normalize(tag, val)];
      }
      assert fields.Keys - (todo - {tag}) == done + {tag};
      todo := todo - {tag};
      done := done + {tag};
    }
    assert done == fields.Keys;
  }

  /** Only tags taken in appear: an extra is a tag that fills no column, a column is filled by some tag. */
  lemma {:induction false} RouteKeys<K>(core: Columns<K>, normalize: Normalizer, fields: map<string, string>, done: set<string>)
    requires done <= fields.Keys
    ensures forall x :: x in RouteAll(core, normalize, fields, done).extras ==> x in done && !Filled(core, fields, x)
    ensures forall k :: k in RouteAll(core, normalize, fields, done).data ==>
      exists t :: t in done && Filled(core, fields, t) && core[t].field == k
    decreases |done|
  {
    if done != {} {
      var t :| t in done && RouteAll(core, normalize, fields, done) ==
        Route(core, normalize, fields, RouteAll(core, normalize, fields, done - {t}), t);
      var prev := RouteAll(core, normalize, fields, done - {t});
      RouteKeys(core, normalize, fields, done - {t});
      RouteShape(core, normalize, fields, prev, t);
      forall k | k in RouteAll(core, normalize, fields, done).data
        ensures exists u :: u in done && Filled(core, fields, u) && core[u].field == k
      {
        if k !in prev.data {
          assert t in done && Filled(core, fields, t) && core[t].field == k;
        } else {
          var u :| u in done - {t} && Filled(core, fields, u) && core[u].field == k;
          assert u in done;
        }
      }
    }
  }

  /**
   * Every tag of a record lands in exactly one place: its column when it is
   * a core tag whose caster returns, the extras otherwise. A raising cast
   * keeps the raw text; a non-core tag is normalized through the catalog.
   */
  lemma Partition<K>(core: Columns<K>, normalize: Normalizer, fields: map<string, string>, t: string)
    requires Distinct(core) && t in fields
    ensures var r := Classified(core, normalize, fields);
      && (t in r.extras <==> !Filled(core, fields, t))
      && (Filled(core, fields, t) ==> core[t].field in r.data && Cast(r.data[core[t].field]) == core[t].cast(fields[t]))
      && (t !in core ==> r.extras[t] == normalize(t, fields[t]))
      && (t in core && core[t].cast(fields[t]).Raised? ==> r.extras[t] == fields[t])
  {
    RouteLast(core, normalize, fields, fields.Keys, t);
    RouteKeys(core, normalize, fields, fields.Keys - {t});
  }

  /** Nothing but the record's own tags is stored: each column comes from one of its core tags, each extra is one of its tags. */
  lemma OnlyOwnTags<K>(core: Columns<K>, normalize: Normalizer, fields: map<string, string>, k: K)
    requires Distinct(core)
    ensures Classified(core, normalize, fields).extras.Keys <= fields.Keys
    ensures k in Classified(core, normalize, fields).data <==> exists t :: Filled(core, fields, t) && core[t].field == k
  {
    RouteKeys(core, normalize, fields, fields.Keys);
    if exists t :: Filled(core, fields, t) && core[t].field == k {
      var t :| Filled(core, fields, t) && core[t].field == k;
      Partition(core, normalize, fields, t);
    }
  }

  // ---------------------------------------------------------------- required columns

  /** `data.get(key)` is truthy: present and not empty, None or zero. */
  predicate Present(data: CoreData, f: Field) {
    f in data && Truthy(data[f])
  }

  /** The record is kept exactly when callsign, qso_date and time_on are all truthy. */
  predicate HasRequired(data: CoreData) {
    Present(data, Callsign) && Present(data, QsoDate) && Present(data, TimeOn)
  }

  /** YYYYMMDD of a valid day. */
  ghost predicate DateSpelling(s: string) {
    exists d: Date :: ValidDate(d) && FormatYmd(d) == s
  }

  /** HHMMSS, or HHMM, of a valid time of day. */
  ghost predicate TimeSpelling(s: string) {
    exists t: Time :: ValidTime(t) && (FormatHms(t) == s || (|s| == 4 && FormatHms(t) == s + "00"))
  }

  /** A core tag's column is filled exactly when the tag is in the record and its caster returns. */
  lemma ColumnFromTag<K>(core: Columns<K>, normalize: Normalizer, fields: map<string, string>, t: string)
    requires Distinct(core) && t in core
    ensures var data := Classified(core, normalize, fields).data;
      && (core[t].field in data <==> Filled(core, fields, t))
      && (Filled(core, fields, t) ==> Cast(data[core[t].field]) == core[t].cast(fields[t]))
  {
    OnlyOwnTags(core, normalize, fields, core[t].field);
    if t in fields {
      Partition(core, normalize, fields, t);
    }
  }

  /**
   * With the CALL, QSO_DATE and TIME_ON entries of CORE_MAP, a record is
   * kept exactly when CALL is non-empty, QSO_DATE spells a valid day as
   * YYYYMMDD and TIME_ON a valid time as HHMM or HHMMSS. An unreadable date
   * refuses the record, since `_to_date` returns None instead of raising.
   */
  lemma RequiredMeans(core: Columns<Field>, normalize: Normalizer, fields: map<string, string>)
    requires Distinct(core) && HasRequiredEntries(core)
    ensures HasRequired(Classified(core, normalize, fields).data) <==>
      && "CALL" in fields && fields["CALL"] != ""
      && "QSO_DATE" in fields && DateSpelling(fields["QSO_DATE"])
      && "TIME_ON" in fields && TimeSpelling(fields["TIME_ON"])
  {
    CallPresent(core, normalize, fields);
    DatePresent(core, normalize, fields);
    TimePresent(core, normalize, fields);
  }

  lemma CallPresent(core: Columns<Field>, normalize: Normalizer, fields: map<string, string>)
    requires Distinct(core) && HasRequiredEntries(core)
    ensures Present(Classified(core, normalize, fields).data, Callsign) <==> "CALL" in fields && fields["CALL"] != ""
  {
    ColumnFromTag(core, normalize, fields, "CALL");
  }

  lemma DatePresent(core: Columns<Field>, normalize: Normalizer, fields: map<string, string>)
    requires Distinct(core) && HasRequiredEntries(core)
    ensures Present(Classified(core, normalize, fields).data, QsoDate) <==>
      "QSO_DATE" in fields && DateSpelling(fields["QSO_DATE"])
  {
    ColumnFromTag(core, normalize, fields, "QSO_DATE");
    if "QSO_DATE" in fields {
      DateCastTruthy(fields["QSO_DATE"]);
    }
  }

  lemma TimePresent(core: Columns<Field>, normalize: Normalizer, fields: map<string, string>)
    requires Distinct(core) && HasRequiredEntries(core)
    ensures Present(Classified(core, normalize, fields).data, TimeOn) <==>
      "TIME_ON" in fields && TimeSpelling(fields["TIME_ON"])
  {
    ColumnFromTag(core, normalize, fields, "TIME_ON");
    if "TIME_ON" in fields {
      TimeCastTruthy(fields["TIME_ON"]);
    }
  }

  // ---------------------------------------------------------------- staging

  /** A StagedEntry row: its import, its core columns and its extras (set only when non-empty). */
  datatype StagedEntry = StagedEntry(imp: nat, data: CoreData, extras: Option<Extras>)

  /** The row staged for one record, or None when a required column is missing. */
  ghost function StageRecord(imp: nat, core: Columns<Field>, normalize: Normalizer, fields: map<string, string>): Option<StagedEntry>
  {
    var data, extras := Classified(core, normalize, fields).data, Classified(core, normalize, fields).extras;
    if !HasRequired(data) then None
    else Some(StagedEntry(imp, data, if extras == map[] then None else Some(extras)))
  }

  /** The rows staged for a sequence of records, in order. */
  ghost function StagedOf(imp: nat, core: Columns<Field>, normalize: Normalizer, recs: seq<map<string, string>>): seq<StagedEntry>
    decreases |recs|
  {
    if recs == [] then []
    else
      var last := StageRecord(imp, core, normalize, recs[|recs| - 1]);
      StagedOf(imp, core, normalize, recs[..|recs| - 1]) + if last.Some? then [last.value] else []
  }

  /** How many of the records were refused. */
  ghost function RejectedOf(imp: nat, core: Columns<Field>, normalize: Normalizer, recs: seq<map<string, string>>): nat
    decreases |recs|
  {
    if recs == [] then 0
    else
      RejectedOf(imp, core, normalize, recs[..|recs| - 1]) +
        if StageRecord(imp, core, normalize, recs[|recs| - 1]).None? then 1 else 0
  }

  /** One more record adds its row or one to the refused count. */
  lemma StageSnoc(imp: nat, core: Columns<Field>, normalize: Normalizer, recs: seq<map<string, string>>, i: nat)
    requires i < |recs|
    ensures var last := StageRecord(imp, core, normalize, recs[i]);
      && StagedOf(imp, core, normalize, recs[..i + 1]) == StagedOf(imp, core, normalize, recs[..i]) + (if last.Some? then [last.value] else [])
      && RejectedOf(imp, core, normalize, recs[..i + 1]) == RejectedOf(imp, core, normalize, recs[..i]) + (if last.None? then 1 else 0)
  {
    assert recs[..i + 1][..i] == recs[..i];
  }

  /** Every record is either staged or counted as an error. */
  lemma {:induction false} StagedCount(imp: nat, core: Columns<Field>, normalize: Normalizer, recs: seq<map<string, string>>)
    ensures |StagedOf(imp, core, normalize, recs)| + RejectedOf(imp, core, normalize, recs) == |recs|
    decreases |recs|
  {
    if recs != [] {
      StagedCount(imp, core, normalize, recs[..|recs| - 1]);
    }
  }

  /**
   * Every staged row belongs to the import, has its three required columns,
   * and carries extras only when there are some.
   */
  lemma {:induction false} StagedRowsWellFormed(imp: nat, core: Columns<Field>, normalize: Normalizer, recs: seq<map<string, string>>)
    ensures forall se :: se in StagedOf(imp, core, normalize, recs) ==>
      se.imp == imp && HasRequired(se.data) && (se.extras.Some? ==> se.extras.value != map[])
    decreases |recs|
  {
    if recs != [] {
      StagedRowsWellFormed(imp, core, normalize, recs[..|recs| - 1]);
    }
  }

  const BatchSize: nat := 500

  /** The outer loop of `parse_adif_to_staged`: the rows to create and the number of refused records. */
  method StageAll(imp: nat, core: Columns<Field>, normalize: Normalizer, recs: seq<map<string, string>>)
    returns (toCreate: seq<StagedEntry>, err: nat)
    requires Distinct(core)
    ensures toCreate == StagedOf(imp, core, normalize, recs) && err == RejectedOf(imp, core, normalize, recs)
  {
    toCreate, err := [], 0;
    var i := 0;
    while i < |recs|
      invariant 0 <= i <= |recs|
      invariant toCreate == StagedOf(imp, core, normalize, recs[..i])
      invariant err == RejectedOf(imp, core, normalize, recs[..i])
    {
      StageSnoc(imp, core, normalize, recs, i);
      var data, extras := ClassifyRecord(core, normalize, recs[i]);
      if !HasRequired(data) {
        err := err + 1;
      } else {
        var se := StagedEntry(imp, data, if extras == map[] then None else Some(extras));
        toCreate := toCreate + [se];
      }
      i := i + 1;
    }
    assert recs[..i] == recs;
  }

  // ---------------------------------------------------------------- finalizing

  /** A LogEntry row: its id, the import it came from and its core columns. */
  datatype LogEntry = LogEntry(id: nat, upload: nat, cols: CoreData)

  /** A LogEntryExtras row, linked to its entry by id. */
  datatype ExtrasRow = ExtrasRow(entry: nat, data: Extras)

  /** A text column as the model attribute reads it: "" when not set. */
  function StrCol(data: CoreData, f: Field): string {
    if f in data && data[f].Str? then data[f].s else ""
  }

  /** A Decimal column: None when not set. */
  function DecCol(data: CoreData, f: Field): Option<real> {
    if f in data && data[f].DecimalValue? then Some(data[f].dec) else None
  }

  /** The columns `clean()` looks at, read from a row's core columns. */
  function QsoOf(data: CoreData): QsoState {
    QsoState(StrCol(data, Callsign), StrCol(data, StationCallsign), StrCol(data, Operator), StrCol(data, Band),
      DecCol(data, Freq), StrCol(data, BandRx), DecCol(data, FreqRx), StrCol(data, PropMode), StrCol(data, SatName))
  }

  /** The columns `clean()` may rewrite, stored back into the row. */
  function WriteBack(data: CoreData, q: QsoState): CoreData {
    data[Callsign := Str(q.callsign)][StationCallsign := Str(q.stationCallsign)]
      [Operator := Str(q.operator)][Band := Str(q.band)][BandRx := Str(q.bandRx)]
  }

  /**
   * `entry.save()`, as a function from the columns it validates to the
   * outcome: the LogEntry model is not part of this model, so it is passed
   * in; SavedEntryClean and FinalizeWithClean take it to be QSO.clean().
   */
  type Save = QsoState -> CleanOutcome

  /** Saving one staged row: the entry as `save` leaves it, or the error it raises. */
  function SaveEntry(save: Save, se: StagedEntry, upload: nat, id: nat): Result<LogEntry, CleanError> {
    var c := save(QsoOf(se.data));
    if c.error.Some? then Err(c.error.value) else Ok(LogEntry(id, upload, WriteBack(se.data, c.state)))
  }

  /** `if se.extras:` */
  predicate CarriesExtras(se: StagedEntry) {
    se.extras.Some? && se.extras.value != map[]
  }

  /** The rows a finalize writes, before they are committed. */
  datatype Committed = Committed(entries: seq<LogEntry>, extrasRows: seq<ExtrasRow>)

  /** One pass of the loop of `finalize_import`: save the row with the next id and link its extras. */
  function FinalizeStep(save: Save, c: Committed, se: StagedEntry, upload: nat, firstId: nat): Result<Committed, CleanError> {
    match SaveEntry(save, se, upload, firstId + |c.entries|)
    case Err(e) => Err(e)
    case Ok(entry) =>
      Ok(Committed(c.entries + [entry], c.extrasRows + if CarriesExtras(se) then [ExtrasRow(entry.id, se.extras.value)] else []))
  }

  /** The loop of `finalize_import` over the pending rows, with ids handed out from `firstId`; the first error ends it. */
  function FinalizeAll(save: Save, pending: seq<StagedEntry>, upload: nat, firstId: nat): Result<Committed, CleanError>
    decreases |pending|
  {
    if pending == [] then Ok(Committed([], []))
    else
      match FinalizeAll(save, pending[..|pending| - 1], upload, firstId)
      case Err(e) => Err(e)
      case Ok(c) => FinalizeStep(save, c, pending[|pending| - 1], upload, firstId)
  }

  /** Finalizing one more row after a successful prefix is one more step. */
  lemma FinalizeSnoc(save: Save, p: seq<StagedEntry>, se: StagedEntry, upload: nat, firstId: nat, c: Committed)
    requires FinalizeAll(save, p, upload, firstId) == Ok(c)
    ensures FinalizeAll(save, p + [se], upload, firstId) == FinalizeStep(save, c, se, upload, firstId)
  {
    assert (p + [se])[..|p + [se]| - 1] == p;
  }

  /** The staged rows of import `imp`, in order. */
  function Pending(staged: seq<StagedEntry>, imp: nat): seq<StagedEntry>
    decreases |staged|
  {
    if staged == [] then []
    else Pending(staged[..|staged| - 1], imp) + if staged[|staged| - 1].imp == imp then [staged[|staged| - 1]] else []
  }

  /** The staged rows of every other import, in order. */
  function Others(staged: seq<StagedEntry>, imp: nat): seq<StagedEntry>
    decreases |staged|
  {
    if staged == [] then []
    else Others(staged[..|staged| - 1], imp) + if staged[|staged| - 1].imp != imp then [staged[|staged| - 1]] else []
  }

  /** The staged rows split into those of `imp` and the rest, with nothing lost or added. */
  lemma {:induction false} PendingPartition(staged: seq<StagedEntry>, imp: nat)
    ensures forall se :: se in Pending(staged, imp) ==> se.imp == imp
    ensures forall se :: se in Others(staged, imp) ==> se.imp != imp
    ensures multiset(Pending(staged, imp)) + multiset(Others(staged, imp)) == multiset(staged)
    decreases |staged|
  {
    if staged != [] {
      var init, last := staged[..|staged| - 1], staged[|staged| - 1];
      PendingPartition(init, imp);
      assert staged == init + [last];
    }
  }

  lemma {:induction false} PendingAppend(a: seq<StagedEntry>, b: seq<StagedEntry>, imp: nat)
    ensures Pending(a + b, imp) == Pending(a, imp) + Pending(b, imp)
    decreases |b|
  {
    if b == [] {
      assert a + b == a;
    } else {
      var init := b[..|b| - 1];
      assert (a + b)[..|a + b| - 1] == a + init;
      PendingAppend(a, init, imp);
    }
  }

  /** Taking in one more staged row. */
  lemma PendingSnoc(staged: seq<StagedEntry>, i: nat, imp: nat)
    requires i < |staged|
    ensures staged[i].imp == imp ==> Pending(staged[..i + 1], imp) == Pending(staged[..i], imp) + [staged[i]]
    ensures staged[i].imp != imp ==> Pending(staged[..i + 1], imp) == Pending(staged[..i], imp)
  {
    assert staged[..i + 1][..i] == staged[..i];
    assert Pending(staged[..i], imp) + [] == Pending(staged[..i], imp);
  }

  /** A failure among the first rows is the failure of the whole finalize. */
  lemma FinalizeStops(save: Save, staged: seq<StagedEntry>, i: nat, imp: nat, firstId: nat)
    requires i <= |staged| && FinalizeAll(save, Pending(staged[..i], imp), imp, firstId).Err?
    ensures FinalizeAll(save, Pending(staged, imp), imp, firstId) == FinalizeAll(save, Pending(staged[..i], imp), imp, firstId)
  {
    PendingAppend(staged[..i], staged[i..], imp);
    assert staged[..i] + staged[i..] == staged;
    FinalizeErrorSticks(save, Pending(staged[..i], imp), Pending(staged[i..], imp), imp, firstId);
  }

  /** Once a row fails, rows after it change nothing: the first error is the one reported. */
  lemma {:induction false} FinalizeErrorSticks(save: Save, p: seq<StagedEntry>, q: seq<StagedEntry>, upload: nat, firstId: nat)
    requires FinalizeAll(save, p, upload, firstId).Err?
    ensures FinalizeAll(save, p + q, upload, firstId) == FinalizeAll(save, p, upload, firstId)
    decreases |q|
  {
    if q == [] {
      assert p + q == p;
    } else {
      var init := q[..|q| - 1];
      assert (p + q)[..|p + q| - 1] == p + init;
      FinalizeErrorSticks(save, p, init, upload, firstId);
    }
  }

  /** The pending rows that carry extras. */
  function Carrying(p: seq<StagedEntry>): seq<StagedEntry>
    decreases |p|
  {
    if p == [] then [] else Carrying(p[..|p| - 1]) + if CarriesExtras(p[|p| - 1]) then [p[|p| - 1]] else []
  }

  /**
   * A successful finalize makes one entry per pending row, linked to the
   * import, with consecutive fresh ids, and one extras row per pending row
   * that carries extras, linked to an entry just made.
   */
  lemma {:induction false} FinalizeCounts(save: Save, p: seq<StagedEntry>, upload: nat, firstId: nat)
    requires FinalizeAll(save, p, upload, firstId).Ok?
    ensures var c := FinalizeAll(save, p, upload, firstId).value;
      && |c.entries| == |p|
      && (forall k :: 0 <= k < |c.entries| ==> c.entries[k].id == firstId + k && c.entries[k].upload == upload)
      && |c.extrasRows| == |Carrying(p)|
      && (forall k :: 0 <= k < |c.extrasRows| ==> firstId <= c.extrasRows[k].entry < firstId + |p|)
    decreases |p|
  {
    if p != [] {
      FinalizeCounts(save, p[..|p| - 1], upload, firstId);
    }
  }

  /** Finalizing fails exactly when saving some pending row fails. */
  lemma {:induction false} FinalizeFailsIff(save: Save, p: seq<StagedEntry>, upload: nat, firstId: nat)
    ensures FinalizeAll(save, p, upload, firstId).Err? <==> exists k :: 0 <= k < |p| && save(QsoOf(p[k].data)).error.Some?
    decreases |p|
  {
    if p != [] {
      var init := p[..|p| - 1];
      FinalizeFailsIff(save, init, upload, firstId);
      if exists k :: 0 <= k < |init| && save(QsoOf(init[k].data)).error.Some? {
        var k :| 0 <= k < |init| && save(QsoOf(init[k].data)).error.Some?;
        assert p[k] == init[k];
      }
      if exists k :: 0 <= k < |p| && save(QsoOf(p[k].data)).error.Some? {
        var k :| 0 <= k < |p| && save(QsoOf(p[k].data)).error.Some?;
        if k < |init| {
          assert init[k] == p[k];
        }
      }
    }
  }

  /** The five columns `clean()` may rewrite. */
  const CleanedFields: set<Field> := {Callsign, StationCallsign, Operator, Band, BandRx}

  /**
   * With `save` as QSO.clean(), a saved entry keeps every column of its
   * staged row except the five `clean()` rewrites, and passes `clean()`
   * again unchanged.
   */
  lemma SavedEntryClean(se: StagedEntry, upload: nat, id: nat)
    requires SaveEntry(CleanSpec, se, upload, id).Ok?
    ensures var cols := SaveEntry(CleanSpec, se, upload, id).value.cols;
      && (forall f :: f !in CleanedFields ==> (f in cols <==> f in se.data) && (f in cols ==> cols[f] == se.data[f]))
      && CleanSpec(QsoOf(cols)) == CleanOutcome(None, QsoOf(cols))
  {
    var q := QsoOf(se.data);
    var s := CleanSpec(q).state;
    CleanSuccess(q);
    CleanIdempotent(q);
    WriteBackRead(se.data, s);
  }

  /** Writing back a state that keeps the frequencies, mode and satellite reads that state again. */
  lemma WriteBackRead(data: CoreData, s: QsoState)
    requires s.freq == QsoOf(data).freq && s.freqRx == QsoOf(data).freqRx
    requires s.propMode == QsoOf(data).propMode && s.satName == QsoOf(data).satName
    ensures QsoOf(WriteBack(data, s)) == s
  {
  }

  // ---------------------------------------------------------------- the database

  /** The tables `parse_adif_to_staged` and `finalize_import` write, with the next entry id. */
  class Logbook {
    var staged: seq<StagedEntry>
    var entries: seq<LogEntry>
    var extrasRows: seq<ExtrasRow>
    var nextId: nat

    constructor ()
      ensures staged == [] && entries == [] && extrasRows == [] && nextId == 0
    {
      staged, entries, extrasRows, nextId := [], [], [], 0;
    }

    /**
     * `parse_adif_to_staged(imp, text)`: the kept records are appended to
     * the staged rows in batches of 500; `ok` counts them and `err` the
     * refused ones.
     */
    method ParseAdifToStaged(imp: nat, core: Columns<Field>, normalize: Normalizer, text: string) returns (ok: nat, err: nat)
      requires Distinct(core)
      modifies this
      ensures staged == old(staged) + StagedOf(imp, core, normalize, Records(text))
      ensures ok == |StagedOf(imp, core, normalize, Records(text))|
      ensures err == RejectedOf(imp, core, normalize, Records(text))
      ensures entries == old(entries) && extrasRows == old(extrasRows) && nextId == old(nextId)
    {
      var recs := ParseAdifRecords(text);
      var toCreate;
      toCreate, err := StageAll(imp, core, normalize, recs);
      BulkCreate(toCreate);
      ok := |toCreate|;
    }

    /** `bulk_create(to_create, batch_size=...)`: the rows appended in batches, in order. */
    method BulkCreate(toCreate: seq<StagedEntry>)
      modifies this
      ensures staged == old(staged) + toCreate
      ensures entries == old(entries) && extrasRows == old(extrasRows) && nextId == old(nextId)
    {
      var b := 0;
      assert toCreate[..0] == [];
      while b < |toCreate|
        invariant 0 <= b <= |toCreate|
        invariant staged == old(staged) + toCreate[..b]
        invariant entries == old(entries) && extrasRows == old(extrasRows) && nextId == old(nextId)
      {
        var end := if b + BatchSize < |toCreate| then b + BatchSize else |toCreate|;
        assert toCreate[..end] == toCreate[..b] + toCreate[b..end];
        staged := staged + toCreate[b..end];
        b := end;
      }
      assert toCreate[..b] == toCreate;
    }

    /**
     * `finalize_import(imp)`: every staged row of the import is saved as a
     * log entry, with an extras row when it carries extras, and the staged
     * rows of the import are deleted. The function is atomic: when a save
     * raises, the error is returned and no table changes.
     */
    method FinalizeImport(imp: nat, save: Save) returns (r: Result<nat, CleanError>)
      modifies this
      ensures match FinalizeAll(save, Pending(old(staged), imp), imp, old(nextId))
        case Err(e) =>
          r == Err(e) && staged == old(staged) && entries == old(entries) &&
          extrasRows == old(extrasRows) && nextId == old(nextId)
        case Ok(c) =>
          r == Ok(|c.entries|) && staged == Others(old(staged), imp) && entries == old(entries) + c.entries &&
          extrasRows == old(extrasRows) + c.extrasRows && nextId == old(nextId) + |c.entries|
    {
      var made: seq<LogEntry> := [];
      var rows: seq<ExtrasRow> := [];
      var i := 0;
      assert staged[..0] == [];
      while i < |staged|
        invariant 0 <= i <= |staged|
        invariant staged == old(staged) && entries == old(entries) && extrasRows == old(extrasRows) && nextId == old(nextId)
        invariant FinalizeAll(save, Pending(staged[..i], imp), imp, nextId) == Ok(Committed(made, rows))
      {
        var se := staged[i];
        PendingSnoc(staged, i, imp);
        if se.imp == imp {
          FinalizeSnoc(save, Pending(staged[..i], imp), se, imp, nextId, Committed(made, rows));
          var next := FinalizeStep(save, Committed(made, rows), se, imp, nextId);
          if next.Err? {
            FinalizeStops(save, staged, i + 1, imp, nextId);
            return Err(next.error);
          }
          made, rows := next.value.entries, next.value.extrasRows;
        }
        i := i + 1;
      }
      assert staged[..i] == staged;
      staged := Others(staged, imp);
      entries := entries + made;
      extrasRows := extrasRows + rows;
      nextId := nextId + |made|;
      r := Ok(|made|);
    }
  }
}
