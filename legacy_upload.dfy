// The legacy upload endpoint of logbook/views.py: its own ADIF tokenizer
// (`parse_adif`, which differs from the staging one of logbook/imports.py) and
// the all-or-nothing validation and QSO creation of `upload_adif`.

module LegacyUpload {
  import opened Wrappers
  import opened Text
  import opened Calendar

  /** The record separator `parse_adif` splits on; only this lower-case spelling separates. */
  const RecordEnd: string := "<eor>"

  /** One parsed record: upper-cased tag to stripped value. */
  type Fields = map<string, string>

  predicate Lacks(s: string, c: char) {
    forall k :: 0 <= k < |s| ==> s[k] != c
  }

  // ---------------------------------------------------------------- one specifier

  /** `tag_def.split(":", 2)[0]`: the text before the first ':'. */
  function TagPart(def: string): (r: string)
    ensures Lacks(def, ':') ==> r == def
  {
    match IndexOfChar(def, ':', 0)
    case None => def
    case Some(i) => def[..i]
  }

  /** `parts[1]` of `tag_def.split(":", 2)`, if there is one: the text between the first and the second ':'. */
  function LengthPart(def: string): (r: Option<string>)
    ensures r.None? <==> Lacks(def, ':')
  {
    match IndexOfChar(def, ':', 0)
    case None => None
    case Some(i) =>
      match IndexOfChar(def, ':', i + 1)
      case None => Some(def[i + 1..])
      case Some(j) => Some(def[i + 1..j])
  }

  /** `int(parts[1]) if len(parts) > 1 and parts[1].isdigit() else None` */
  function DeclaredLength(def: string): Option<nat> {
    match LengthPart(def)
    case Some(p) => if |p| > 0 && AllDigits(p) then Some(DigitsValue(p)) else None
    case None => None
  }

  /** What one pass of the scanning loop reads: the tag, the raw value and what remains. */
  datatype Token = Token(tag: string, value: string, rest: string)

  /**
   * One pass of the loop: from the first '<' to the first '>' after it is the
   * tag definition, and the value is read from what follows. `None` when there
   * is no '<', or no '>' after it.
   */
  function NextToken(raw: string): (r: Option<Token>)
    ensures r.Some? ==> |r.value.rest| < |raw|
  {
    match IndexOfChar(raw, '<', 0)
    case None => None
    case Some(start) =>
      match IndexOfChar(raw, '>', start)
      case None => None
      case Some(end) => Some(ReadValue(raw[start + 1..end], raw[end + 1..]))
  }

  /**
   * The value after the tag definition `def`: with a declared length exactly
   * that many characters (fewer at the end of the text), otherwise everything
   * up to the next '<'.
   */
  function ReadValue(def: string, after: string): (t: Token)
    ensures |t.rest| <= |after|
  {
    var tag := Upper(TagPart(def));
    match DeclaredLength(def)
    case Some(n) =>
      var k := if n <= |after| then n else |after|;
      Token(tag, after[..k], after[k..])
    case None =>
      match IndexOfChar(after, '<', 0)
      case Some(idx) => Token(tag, after[..idx], after[idx..])
      case None => Token(tag, after, "")
  }

  /** The fields read from `raw` on top of `data`; a later duplicate tag overwrites an earlier one. */
  function ScanFields(raw: string, data: Fields): Fields
    decreases |raw|
  {
    match NextToken(raw)
    case None => data
    case Some(t) => ScanFields(t.rest, data[t.tag := Strip(t.value)])
  }

  /** The record one `<eor>`-separated chunk holds. */
  function RecordOf(chunk: string): Fields {
    ScanFields(Strip(chunk), map[])
  }

  /**
   * The non-empty records of the chunks, in order, each chunk read by `read`
   * (which is `RecordOf` for `parse_adif`).
   */
  function RecordsOf(read: string -> Fields, chunks: seq<string>): seq<Fields> {
    if chunks == [] then []
    else
      var d := read(chunks[|chunks| - 1]);
      RecordsOf(read, chunks[..|chunks| - 1]) + if d != map[] then [d] else []
  }

  /** `parse_adif(content)` */
  function ParseAdif(content: string): seq<Fields> {
    RecordsOf(RecordOf, Split(content, RecordEnd))
  }

  /** The scanning loop of `parse_adif` over one stripped chunk: re-slice `raw` while it holds a '<'. */
  method ScanRecord(chunk: string) returns (data: Fields)
    ensures data == ScanFields(chunk, map[])
  {
    var raw := chunk;
    data := map[];
    while '<' in raw
      invariant ScanFields(raw, data) == ScanFields(chunk, map[])
      decreases |raw|
    {
      var start := IndexOfChar(raw, '<', 0).value;
      var end := IndexOfChar(raw, '>', start);
      if end.None? {
        break;
      }
      var def := raw[start + 1..end.value];
      var tag := Upper(TagPart(def));
      var length := DeclaredLength(def);
      ghost var before := raw;
      raw := raw[end.value + 1..];
      ghost var after := raw;
      var value;
      if length.Some? {
        var k := if length.value <= |raw| then length.value else |raw|;
        value := raw[..k];
        raw := raw[k..];
      } else {
        var idx := IndexOfChar(raw, '<', 0);
        value := if idx.Some? then raw[..idx.value] else raw;
        raw := if idx.Some? then raw[idx.value..] else "";
      }
      assert ReadValue(def, after) == Token(tag, value, raw);
      data := data[tag := Strip(value)];
    }
  }

  /** `parse_adif`: split on "<eor>", skip blank chunks and keep the records that have a field. */
  method ParseLegacyAdif(content: string) returns (records: seq<Fields>)
    ensures records == ParseAdif(content)
  {
    var chunks := Split(content, RecordEnd);
    records := [];
    for i := 0 to |chunks|
      invariant records == RecordsOf(RecordOf, chunks[..i])
    {
      assert chunks[..i + 1][..i] == chunks[..i];
      var raw := Strip(chunks[i]);
      if raw == [] {
        continue;
      }
      var data := ScanRecord(raw);
      if data != map[] {
        records := records + [data];
      }
    }
    assert chunks[..|chunks|] == chunks;
  }

  // ---------------------------------------------------------------- tokenizer properties

  /** `s.find(c)` is `i` when `s[i]` is the first `c`. */
  lemma FirstAt(s: string, c: char, i: nat)
    requires i < |s| && s[i] == c && Lacks(s[..i], c)
    ensures IndexOfChar(s, c, 0) == Some(i)
  {
    assert forall k :: 0 <= k < i ==> s[k] == s[..i][k];
  }

  /** `<def>` followed by anything: the definition is `def` and the value is read from what follows. */
  lemma Header(def: string, after: string)
    requires Lacks(def, '>')
    ensures NextToken("<" + def + ">" + after) == Some(ReadValue(def, after))
  {
    var raw := "<" + def + ">" + after;
    var e := |def| + 1;
    FirstAt(raw, '<', 0);
    assert raw[..e] == "<" + def;
    FirstAt(raw, '>', e);
    assert raw[1..e] == def && raw[e + 1..] == after;
  }

  /** What one specifier `<def>` adds to the fields read so far. */
  lemma FieldStep(def: string, after: string, data: Fields)
    requires Lacks(def, '>')
    ensures var t := ReadValue(def, after);
      ScanFields("<" + def + ">" + after, data) == ScanFields(t.rest, data[t.tag := Strip(t.value)])
  {
    Header(def, after);
  }

  /** The definition `tag:n` names `tag` and declares the length `n`. */
  lemma SizedDefinition(tag: string, n: nat)
    requires Lacks(tag, ':') && Lacks(tag, '>')
    ensures Lacks(tag + ":" + NatToString(n), '>')
    ensures TagPart(tag + ":" + NatToString(n)) == tag
    ensures DeclaredLength(tag + ":" + NatToString(n)) == Some(n)
  {
    var len := NatToString(n);
    var def := tag + ":" + len;
    assert def[..|tag|] == tag;
    FirstAt(def, ':', |tag|);
    assert def[|tag| + 1..] == len;
    assert forall k :: |tag| + 1 <= k < |def| ==> def[k] == len[k - |tag| - 1];
    NatToStringRoundTrip(n);
  }

  /** A length-prefixed field `<tag:n>` followed by its `n` characters. */
  function Sized(tag: string, v: string): string {
    "<" + tag + ":" + NatToString(|v|) + ">" + v
  }

  /**
   * A declared length takes exactly that many characters, whatever they are
   * (even '<'), or all that is left when the text is shorter; the tag is
   * upper-cased and the value stripped.
   */
  lemma SizedField(tag: string, n: nat, v: string, rest: string, data: Fields)
    requires Lacks(tag, ':') && Lacks(tag, '>')
    requires |v| == n || (|v| < n && rest == [])
    ensures ScanFields("<" + tag + ":" + NatToString(n) + ">" + v + rest, data) ==
      ScanFields(rest, data[Upper(tag) := Strip(v)])
  {
    var def := tag + ":" + NatToString(n);
    SizedDefinition(tag, n);
    FieldStep(def, v + rest, data);
    assert (v + rest)[..|v|] == v && (v + rest)[|v|..] == rest;
    assert ReadValue(def, v + rest) == Token(Upper(tag), v, rest);
    assert "<" + tag + ":" + NatToString(n) + ">" + v + rest == "<" + def + ">" + (v + rest);
  }

  /** `Sized` writes a field that reads back with its own length. */
  lemma SizedRoundTrip(tag: string, v: string, rest: string, data: Fields)
    requires Lacks(tag, ':') && Lacks(tag, '>')
    ensures ScanFields(Sized(tag, v) + rest, data) == ScanFields(rest, data[Upper(tag) := Strip(v)])
  {
    SizedField(tag, |v|, v, rest, data);
  }

  /** Without a length, the value of `<tag>` stops at the next '<'. */
  lemma ReadUnsized(tag: string, v: string, rest: string)
    requires Lacks(tag, ':') && Lacks(v, '<')
    requires rest == [] || rest[0] == '<'
    ensures ReadValue(tag, v + rest) == Token(Upper(tag), v, rest)
  {
    var after := v + rest;
    if rest != [] {
      assert after[..|v|] == v && after[|v|..] == rest;
      FirstAt(after, '<', |v|);
    } else {
      assert after == v;
    }
  }

  /** Without a declared length the value runs up to the next '<' (or the end), and is stripped. */
  lemma UnsizedField(tag: string, v: string, rest: string, data: Fields)
    requires Lacks(tag, ':') && Lacks(tag, '>') && Lacks(v, '<')
    requires rest == [] || rest[0] == '<'
    ensures ScanFields("<" + tag + ">" + v + rest, data) == ScanFields(rest, data[Upper(tag) := Strip(v)])
  {
    FieldStep(tag, v + rest, data);
    ReadUnsized(tag, v, rest);
    assert "<" + tag + ">" + v + rest == "<" + tag + ">" + (v + rest);
  }

  /** A '<' with no '>' after it ends the record: nothing from there on is read. */
  lemma UnclosedEnds(s: string, data: Fields)
    requires Lacks(s, '>')
    ensures ScanFields("<" + s, data) == data
  {
    var raw := "<" + s;
    FirstAt(raw, '<', 0);
    assert forall k :: 1 <= k < |raw| ==> raw[k] == s[k - 1];
  }

  lemma Overwrite<K, V>(m: map<K, V>, k: K, a: V, b: V)
    ensures m[k := a][k := b] == m[k := b]
  {
  }

  /** Of two fields with the same tag, the later one is kept. */
  lemma LaterDuplicateWins(tag: string, v1: string, v2: string, rest: string, data: Fields)
    requires Lacks(tag, ':') && Lacks(tag, '>')
    ensures ScanFields(Sized(tag, v1) + (Sized(tag, v2) + rest), data) ==
      ScanFields(rest, data[Upper(tag) := Strip(v2)])
  {
    SizedRoundTrip(tag, v1, Sized(tag, v2) + rest, data);
    SizedRoundTrip(tag, v2, rest, data[Upper(tag) := Strip(v1)]);
    Overwrite(data, Upper(tag), Strip(v1), Strip(v2));
  }

  /** The upper-case end-of-record marker does not separate: it reads as a field EOR with an empty value. */
  lemma UpperEorIsAField(rest: string, data: Fields)
    requires rest == [] || rest[0] == '<'
    ensures ScanFields("<EOR>" + rest, data) == ScanFields(rest, data["EOR" := ""])
  {
    UnsizedField("EOR", "", rest, data);
    assert "<" + "EOR" + ">" + "" + rest == "<EOR>" + rest;
    assert Upper("EOR") == "EOR";
    assert Strip("") == "";
  }

  /** Every tag read is in upper case and every value has no white space at its ends. */
  predicate WellFormed(d: Fields) {
    forall k :: k in d ==> Upper(k) == k && NoSpaceEnds(d[k])
  }

  lemma {:induction false} ScanWellFormed(raw: string, data: Fields)
    requires WellFormed(data)
    ensures WellFormed(ScanFields(raw, data))
    ensures data.Keys <= ScanFields(raw, data).Keys
    decreases |raw|
  {
    match NextToken(raw)
    case None =>
    case Some(t) =>
      forall s: string ensures Upper(Upper(s)) == Upper(s) {
        UpperIdempotent(s);
      }
      StripShape(t.value);
      ScanWellFormed(t.rest, data[t.tag := Strip(t.value)]);
  }

  lemma RecordWellFormed(chunk: string)
    ensures WellFormed(RecordOf(chunk))
  {
    ScanWellFormed(Strip(chunk), map[]);
  }

  lemma {:induction false} RecordsOfAppend(read: string -> Fields, x: seq<string>, y: seq<string>)
    ensures RecordsOf(read, x + y) == RecordsOf(read, x) + RecordsOf(read, y)
    decreases |y|
  {
    if y == [] {
      assert x + y == x;
    } else {
      var y' := y[..|y| - 1];
      RecordsOfAppend(read, x, y');
      assert (x + y)[..|x + y| - 1] == x + y';
    }
  }

  /** Splitting on the lower-case marker: the first chunk is one record (or none), the rest is parsed on. */
  lemma SplitsOnLowerEor(a: string, b: string)
    requires !Contains(a, RecordEnd)
    ensures ParseAdif(a + RecordEnd + b) ==
      (if RecordOf(a) != map[] then [RecordOf(a)] else []) + ParseAdif(b)
  {
    var s := a + RecordEnd + b;
    assert OccursAt(s, RecordEnd, |a|) by {
      assert s[|a|..|a| + 5] == RecordEnd;
    }
    forall j | 0 <= j < |a| ensures !OccursAt(s, RecordEnd, j) {
      if j + 5 <= |a| {
        assert a[j..j + 5] == s[j..j + 5];
        assert !OccursAt(a, RecordEnd, j);
      } else {
        assert s[j..j + 5][|a| - j] == s[|a|] == '<';
        assert RecordEnd[|a| - j] != '<';
      }
    }
    assert IndexOf(s, RecordEnd, 0) == Some(|a|);
    assert s[..|a|] == a;
    assert s[|a| + 5..] == b;
    assert Split(s, RecordEnd) == [a] + Split(b, RecordEnd);
    RecordsOfAppend(RecordOf, [a], Split(b, RecordEnd));
    assert [a][..0] == [];
  }

  /** Every record kept has at least one field, when every chunk reads well formed. */
  lemma {:induction false} RecordsKept(read: string -> Fields, chunks: seq<string>)
    requires forall c :: WellFormed(read(c))
    ensures forall r :: r in RecordsOf(read, chunks) ==> r != map[] && WellFormed(r)
  {
    if chunks != [] {
      RecordsKept(read, chunks[..|chunks| - 1]);
    }
  }

  /** Every record `parse_adif` returns has at least one field, upper-case tags and stripped values. */
  lemma ParsedRecords(content: string)
    ensures forall r :: r in ParseAdif(content) ==> r != map[] && WellFormed(r)
  {
    forall c ensures WellFormed(RecordOf(c)) {
      RecordWellFormed(c);
    }
    RecordsKept(RecordOf, Split(content, RecordEnd));
  }

  // ---------------------------------------------------------------- upload_adif

  /** The parts of the request `upload_adif` reads: the method, the decoded file and the form value. */
  datatype Request = Request(isPost: bool, adif: Option<string>, stationCallsign: Option<string>)

  /** The rejections, in the order they are checked (405 for the first, 400 for the rest). */
  datatype UploadError =
    | MethodNotAllowed
    | AdifFileRequired
    | NoQsosFound
    | StationCallsignRequired
    | MissingRequiredQsoFields

  /** A row `QSO.objects.create` writes. */
  datatype LegacyQso = LegacyQso(
    upload: nat, call: string, stationCallsign: string,
    qsoDate: Option<Date>, timeOn: Option<Time>, freq: Option<real>,
    band: string, mode: string)

  const RequiredTags: seq<string> := ["CALL", "QSO_DATE", "TIME_ON", "MODE"]

  /** The tag is present with a non-empty value. */
  predicate Given(r: Fields, tag: string) {
    tag in r && r[tag] != ""
  }

  predicate Complete(r: Fields) {
    (forall tag :: tag in RequiredTags ==> Given(r, tag)) && ("BAND" in r || "FREQ" in r)
  }

  /** A truthy form value. */
  predicate Truthy(s: Option<string>) {
    s.Some? && s.value != ""
  }

  /** The checks `upload_adif` makes on the parsed records, in order; `None` when they all pass. */
  function Check(records: seq<Fields>, form: Option<string>): Option<UploadError> {
    if records == [] then Some(NoQsosFound)
    else if (exists k :: 0 <= k < |records| && "STATION_CALLSIGN" !in records[k]) && !Truthy(form) then
      Some(StationCallsignRequired)
    else if exists k :: 0 <= k < |records| && !Complete(records[k]) then Some(MissingRequiredQsoFields)
    else None
  }

  /** Everything `upload_adif` checks before it creates anything; `Ok` holds the records to create. */
  function Admit(req: Request): Result<seq<Fields>, UploadError> {
    if !req.isPost then Err(MethodNotAllowed)
    else if req.adif.None? then Err(AdifFileRequired)
    else
      var records := ParseAdif(req.adif.value);
      match Check(records, req.stationCallsign)
      case Some(e) => Err(e)
      case None => Ok(records)
  }

  /** The checks of `upload_adif`, the last one a loop over the records that returns at the first incomplete one. */
  method Validate(records: seq<Fields>, form: Option<string>) returns (e: Option<UploadError>)
    ensures e == Check(records, form)
  {
    if records == [] {
      return Some(NoQsosFound);
    }
    var lacking := exists k :: 0 <= k < |records| && "STATION_CALLSIGN" !in records[k];
    if lacking && !Truthy(form) {
      return Some(StationCallsignRequired);
    }
    for i := 0 to |records|
      invariant forall k :: 0 <= k < i ==> Complete(records[k])
    {
      if !Complete(records[i]) {
        return Some(MissingRequiredQsoFields);
      }
    }
    return None;
  }

  function Get(r: Fields, tag: string, default: Option<string>): Option<string> {
    if tag in r then Some(r[tag]) else default
  }

  /** `fmt = "%H%M%S" if len(time_str) == 6 else "%H%M"` */
  function ParseTimeOn(s: string): Option<Time> {
    if |s| == 6 then ParseHms(s) else ParseHm(s)
  }

  /** The QSO created for one record; an unparseable date, time or frequency is stored as null. */
  function QsoFrom(upload: nat, form: Option<string>, r: Fields): LegacyQso {
    var sc := Get(r, "STATION_CALLSIGN", form);
    LegacyQso(
      upload,
      if "CALL" in r then r["CALL"] else "",
      if sc.Some? then sc.value else "",
      if Given(r, "QSO_DATE") then ParseYmd(r["QSO_DATE"]) else None,
      if Given(r, "TIME_ON") then ParseTimeOn(r["TIME_ON"]) else None,
      if Given(r, "FREQ") then ParseDecimal(r["FREQ"]) else None,
      if "BAND" in r then r["BAND"] else "",
      if "MODE" in r then r["MODE"] else "")
  }

  /** The QSOs created for the records, in order. */
  function QsosFrom(upload: nat, form: Option<string>, records: seq<Fields>): (qs: seq<LegacyQso>)
    ensures |qs| == |records|
  {
    if records == [] then []
    else QsosFrom(upload, form, records[..|records| - 1]) + [QsoFrom(upload, form, records[|records| - 1])]
  }

  /** One QSO per record, in the order of the records. */
  lemma {:induction false} QsosFromAt(upload: nat, form: Option<string>, records: seq<Fields>)
    ensures forall i :: 0 <= i < |records| ==> QsosFrom(upload, form, records)[i] == QsoFrom(upload, form, records[i])
  {
    if records != [] {
      QsosFromAt(upload, form, records[..|records| - 1]);
    }
  }

  lemma QsosSnoc(upload: nat, form: Option<string>, records: seq<Fields>, i: nat, done: seq<LegacyQso>)
    requires i < |records|
    ensures done + QsosFrom(upload, form, records[..i + 1]) ==
      (done + QsosFrom(upload, form, records[..i])) + [QsoFrom(upload, form, records[i])]
  {
    assert records[..i + 1][..i] == records[..i];
  }

  /** The QSOs of an accepted upload: one per record, each with a call, a mode and a station callsign. */
  lemma AcceptedQsos(req: Request, upload: nat)
    requires Admit(req).Ok?
    ensures var records := Admit(req).value;
      |records| > 0 && records == ParseAdif(req.adif.value) &&
      forall i :: 0 <= i < |records| ==>
        var q := QsosFrom(upload, req.stationCallsign, records)[i];
        && q.call != "" && q.mode != ""
        && q.stationCallsign == (if "STATION_CALLSIGN" in records[i] then records[i]["STATION_CALLSIGN"] else req.stationCallsign.value)
        && ("STATION_CALLSIGN" !in records[i] ==> q.stationCallsign != "")
  {
    var records := Admit(req).value;
    QsosFromAt(upload, req.stationCallsign, records);
    forall i | 0 <= i < |records|
      ensures Given(records[i], "CALL") && Given(records[i], "MODE")
    {
      assert Complete(records[i]);
      assert "CALL" in RequiredTags && "MODE" in RequiredTags;
    }
  }

  /** An upload is accepted exactly when every parsed record is complete and has a station callsign from somewhere. */
  lemma AdmitIff(req: Request)
    requires req.isPost && req.adif.Some?
    ensures var records := ParseAdif(req.adif.value);
      Admit(req).Ok? <==>
        && records != []
        && (forall r :: r in records ==> Complete(r))
        && (Truthy(req.stationCallsign) || forall r :: r in records ==> "STATION_CALLSIGN" in r)
  {
    var records := ParseAdif(req.adif.value);
    if Admit(req).Ok? {
      forall r | r in records ensures Complete(r) {
        var k :| 0 <= k < |records| && records[k] == r;
      }
    }
  }

  /** A date and a time written by strftime are read back as they were; a 4-character time has no seconds. */
  lemma DateTimeRoundTrip(upload: nat, form: Option<string>, r: Fields, d: Date, t: Time)
    requires ValidDate(d) && ValidTime(t)
    requires "QSO_DATE" in r && r["QSO_DATE"] == FormatYmd(d)
    requires "TIME_ON" in r && r["TIME_ON"] == FormatHms(t)
    ensures QsoFrom(upload, form, r).qsoDate == Some(d)
    ensures QsoFrom(upload, form, r).timeOn == Some(t)
  {
    YmdRoundTrip(d);
    HmsRoundTrip(t);
  }

  /** The tables `upload_adif` writes: uploads (by id) and QSOs. */
  class UploadStore {
    var uploads: seq<nat>
    var qsos: seq<LegacyQso>
    var nextId: nat

    constructor()
      ensures uploads == [] && qsos == [] && nextId == 1
    {
      uploads, qsos, nextId := [], [], 1;
    }

    /**
     * `upload_adif`: either a rejection with nothing written, or one new
     * upload and one QSO per record; the result is (upload_id, created_qsos).
     */
    method UploadAdif(req: Request) returns (r: Result<(nat, nat), UploadError>)
      modifies this
      ensures Admit(req).Err? ==>
        r == Err(Admit(req).error) && uploads == old(uploads) && qsos == old(qsos) && nextId == old(nextId)
      ensures Admit(req).Ok? ==>
        && r == Ok((old(nextId), |Admit(req).value|))
        && uploads == old(uploads) + [old(nextId)] && nextId == old(nextId) + 1
        && qsos == old(qsos) + QsosFrom(old(nextId), req.stationCallsign, Admit(req).value)
    {
      if !req.isPost {
        return Err(MethodNotAllowed);
      }
      if req.adif.None? {
        return Err(AdifFileRequired);
      }
      var records := ParseLegacyAdif(req.adif.value);
      var e := Validate(records, req.stationCallsign);
      if e.Some? {
        return Err(e.value);
      }
      var upload := nextId;
      uploads := uploads + [upload];
      nextId := nextId + 1;
      var created := 0;
      for i := 0 to |records|
        invariant created == i
        invariant uploads == old(uploads) + [upload] && nextId == upload + 1
        invariant qsos == old(qsos) + QsosFrom(upload, req.stationCallsign, records[..i])
      {
        QsosSnoc(upload, req.stationCallsign, records, i, old(qsos));
        qsos := qsos + [QsoFrom(upload, req.stationCallsign, records[i])];
        created := created + 1;
      }
      assert records[..|records|] == records;
      r := Ok((upload, created));
    }
  }
}
