// The staging tokenizer of logbook/imports.py: the ADIF_TAG_RE header pattern,
// the <EOH>/<EOR> split of the file and the per-record scan for data specifiers.

module AdifRecords {
  import opened Wrappers
  import opened Text

  const Eoh: string := "<EOH>"
  const Eor: string := "<EOR>"

  /** The tag-name class `[A-Za-z0-9_]`. */
  predicate NameChar(c: char) {
    IsLetter(c) || IsDigit(c) || c == '_'
  }

  predicate TagName(t: string) {
    |t| > 0 && forall k :: 0 <= k < |t| ==> NameChar(t[k])
  }

  function Min(a: int, b: int): int {
    if a <= b then a else b
  }

  /** The end of the run of name characters that starts at `i`. */
  function NameEnd(s: string, i: nat): (r: nat)
    requires i <= |s|
    ensures i <= r <= |s| && (r == |s| || !NameChar(s[r]))
    ensures forall k :: i <= k < r ==> NameChar(s[k])
    decreases |s| - i
  {
    if i < |s| && NameChar(s[i]) then NameEnd(s, i + 1) else i
  }

  /** The end of the run of ASCII digits that starts at `i`. */
  function DigitEnd(s: string, i: nat): (r: nat)
    requires i <= |s|
    ensures i <= r <= |s| && (r == |s| || !IsDigit(s[r]))
    ensures forall k :: i <= k < r ==> IsDigit(s[k])
    decreases |s| - i
  {
    if i < |s| && IsDigit(s[i]) then DigitEnd(s, i + 1) else i
  }

  /** A header found by ADIF_TAG_RE: where it starts, group 1, int(group 2) and `m.end()`. */
  datatype TagMatch = TagMatch(start: nat, name: string, length: nat, valStart: nat)

  /** The group of ADIF_TAG_RE being read: group 1 (the name) or group 2 (the length). */
  datatype Group = NameGroup | LengthGroup

  /**
   * `ADIF_TAG_RE.match(s, p)`: a `<NAME:LEN>` or `<NAME:LEN:T>` header starting at `p`.
   * Greedy matching never needs to backtrack here, because the character that
   * ends the name (':') is not a name character and the one that ends the
   * length (':' or '>') is not a digit.
   */
  function MatchAt(s: string, p: nat): (r: Option<TagMatch>)
    ensures r.Some? ==> r.value.start == p && p < r.value.valStart <= |s|
  {
    if p < |s| && s[p] == '<' then MatchFrom(s, p, p + 1, NameGroup, 0, 0) else None
  }

  /**
   * The pattern from index `i` on: in the name group, name characters until
   * ':'; in the length group (the name ended at `ne`), digits read into `len`
   * until the closing part.
   */
  function MatchFrom(s: string, p: nat, i: nat, g: Group, ne: nat, len: nat): (r: Option<TagMatch>)
    requires p < i <= |s| && (g == LengthGroup ==> p < ne < i)
    ensures r.Some? ==> r.value.start == p && p < r.value.valStart <= |s|
    decreases |s| - i
  {
    match g
    case NameGroup =>
      if i < |s| && NameChar(s[i]) then MatchFrom(s, p, i + 1, NameGroup, 0, 0)
      else if p + 1 < i < |s| && s[i] == ':' then MatchFrom(s, p, i + 1, LengthGroup, i, 0)
      else None
    case LengthGroup =>
      if i < |s| && IsDigit(s[i]) then MatchFrom(s, p, i + 1, LengthGroup, ne, len * 10 + DigitValue(s[i]))
      else CloseHeader(s, p, ne, i, len)
  }

  /** After the digits ending at `j`: '>' or the optional `:T` type letter and '>'. */
  function CloseHeader(s: string, p: nat, ne: nat, j: nat, len: nat): (r: Option<TagMatch>)
    requires p < ne < j <= |s|
    ensures r.Some? ==> r.value.start == p && p < r.value.valStart <= |s|
  {
    if ne + 1 < j < |s| && s[j] == '>' then
      Some(TagMatch(p, s[p + 1..ne], len, j + 1))
    else if ne + 1 < j && j + 2 < |s| && s[j] == ':' && IsLetter(s[j + 1]) && s[j + 2] == '>' then
      Some(TagMatch(p, s[p + 1..ne], len, j + 3))
    else
      None
  }

  /** The name scan runs to the first character outside the name class. */
  lemma {:induction false} NameRun(s: string, p: nat, i: nat, ne: nat)
    requires p < i <= ne <= |s|
    requires forall k :: i <= k < ne ==> NameChar(s[k])
    requires ne == |s| || !NameChar(s[ne])
    ensures MatchFrom(s, p, i, NameGroup, 0, 0) ==
      if p + 1 < ne < |s| && s[ne] == ':' then MatchFrom(s, p, ne + 1, LengthGroup, ne, 0) else None
    decreases ne - i
  {
    if i < ne {
      NameRun(s, p, i + 1, ne);
    }
  }

  /** The length scan runs to the first non-digit, reading the digits as a decimal number. */
  lemma {:induction false} DigitRun(s: string, p: nat, ne: nat, j: nat, de: nat)
    requires p < ne < j <= de <= |s|
    requires forall k :: ne < k < de ==> IsDigit(s[k])
    requires de == |s| || !IsDigit(s[de])
    ensures AllDigits(s[ne + 1..j]) && AllDigits(s[ne + 1..de])
    ensures MatchFrom(s, p, j, LengthGroup, ne, DigitsValue(s[ne + 1..j])) ==
      CloseHeader(s, p, ne, de, DigitsValue(s[ne + 1..de]))
    decreases de - j
  {
    var x, y := s[ne + 1..j], s[ne + 1..de];
    assert forall k :: 0 <= k < |x| ==> x[k] == s[ne + 1 + k];
    assert forall k :: 0 <= k < |y| ==> y[k] == s[ne + 1 + k];
    if j < de {
      DigitRun(s, p, ne, j + 1, de);
      assert s[ne + 1..j + 1][..j - ne - 1] == s[ne + 1..j];
    }
  }

  /**
   * What a match consists of: '<', the name, ':', the decimal length, an
   * optional ':' and type letter, and '>' just before the value.
   */
  lemma MatchAtShape(s: string, p: nat) returns (ds: nat, de: nat)
    requires MatchAt(s, p).Some?
    ensures var m := MatchAt(s, p).value;
      ds == p + 2 + |m.name| && ds < de < m.valStart && TagName(m.name) &&
      s[p] == '<' && s[p + 1..ds - 1] == m.name && s[ds - 1] == ':' && s[m.valStart - 1] == '>'
    ensures var m := MatchAt(s, p).value;
      AllDigits(s[ds..de]) && DigitsValue(s[ds..de]) == m.length &&
      (de == m.valStart - 1 || (de == m.valStart - 3 && s[de] == ':' && IsLetter(s[de + 1])))
  {
    var ne := NameEnd(s, p + 1);
    NameRun(s, p, p + 1, ne);
    de := DigitEnd(s, ne + 1);
    DigitRun(s, p, ne, ne + 1, de);
    assert s[ne + 1..ne + 1] == [];
    ds := ne + 1;
    var name := s[p + 1..ne];
    assert forall k :: 0 <= k < |name| ==> name[k] == s[p + 1 + k];
  }

  /** `ADIF_TAG_RE.search(s, pos)`: the leftmost header at or after `pos`. */
  function SearchTag(s: string, pos: nat): (r: Option<TagMatch>)
    ensures r.Some? ==> pos <= r.value.start && MatchAt(s, r.value.start) == r
    decreases |s| - pos
  {
    if pos >= |s| then None
    else
      match MatchAt(s, pos)
      case Some(m) => Some(m)
      case None => SearchTag(s, pos + 1)
  }

  /** The search finds the leftmost header, and nothing when there is none. */
  lemma {:induction false} SearchTagLeftmost(s: string, pos: nat)
    ensures SearchTag(s, pos).Some? ==> forall k :: pos <= k < SearchTag(s, pos).value.start ==> MatchAt(s, k).None?
    ensures SearchTag(s, pos).None? ==> forall k :: pos <= k ==> MatchAt(s, k).None?
    decreases |s| - pos
  {
    if pos < |s| && MatchAt(s, pos).None? {
      SearchTagLeftmost(s, pos + 1);
    }
  }

  /** `rec[val_start : val_start + length]`: cut short when the record ends first. */
  function ValueOf(rec: string, m: TagMatch): string
    requires m.valStart <= |rec|
  {
    rec[m.valStart..Min(m.valStart + m.length, |rec|)]
  }

  function ScanMeasure(rec: string, pos: nat): nat {
    |rec| + 1 - Min(pos, |rec| + 1)
  }

  /**
   * The headers the scan loop of `parse_adif_records` finds in `rec` from
   * `pos` on, in order, each with the value cut after it.
   */
  function Matches(rec: string, pos: nat): seq<(string, string)>
    decreases ScanMeasure(rec, pos)
  {
    match SearchTag(rec, pos)
    case None => []
    case Some(m) => [(m.name, ValueOf(rec, m))] + Matches(rec, m.valStart + m.length)
  }

  /** Storing the fields of `fs` one after another: a later name overwrites an earlier one. */
  function Store(acc: map<string, string>, fs: seq<(string, string)>): map<string, string>
    decreases |fs|
  {
    if fs == [] then acc else Store(acc[Upper(fs[0].0) := fs[0].1], fs[1..])
  }

  /** The `fields` dict of one stripped record: every match stored under its upper-cased name. */
  function Fields(rec: string): map<string, string> {
    Store(map[], Matches(rec, 0))
  }

  lemma StoreCons(acc: map<string, string>, f: (string, string), fs: seq<(string, string)>)
    ensures Store(acc, [f] + fs) == Store(acc[Upper(f.0) := f.1], fs)
  {
    assert ([f] + fs)[1..] == fs;
  }

  /** The scan loop of `parse_adif_records` over one stripped record. */
  method ScanRecord(rec: string) returns (fields: map<string, string>)
    ensures fields == Fields(rec)
  {
    var pos: nat := 0;
    fields := map[];
    while true
      invariant Store(fields, Matches(rec, pos)) == Fields(rec)
      decreases ScanMeasure(rec, pos)
    {
      var m := SearchTag(rec, pos);
      if m.None? {
        break;
      }
      var tag := Upper(m.value.name);
      var length := m.value.length;
      var valStart := m.value.valStart;
      var value := rec[valStart..Min(valStart + length, |rec|)];
      assert Matches(rec, pos) == [(m.value.name, value)] + Matches(rec, valStart + length);
      StoreCons(fields, (m.value.name, value), Matches(rec, valStart + length));
      fields := fields[tag := value];
      pos := valStart + length;
    }
  }

  // ---------------------------------------------------------------- records

  /** The text after the first <EOH> and before the next one, or the whole text without one. */
  function Body(data: string): string {
    var parts := Split(data, Eoh);
    if |parts| > 1 then parts[1] else parts[0]
  }

  /** The records kept from the chunks between <EOR> markers: each stripped, blank ones dropped. */
  function Kept(chunks: seq<string>): seq<string>
    decreases |chunks|
  {
    if chunks == [] then []
    else
      var rec := Strip(chunks[|chunks| - 1]);
      Kept(chunks[..|chunks| - 1]) + if rec == "" then [] else [rec]
  }

  function FieldsOfAll(recs: seq<string>): (r: seq<map<string, string>>)
    ensures |r| == |recs|
  {
    seq(|recs|, k requires 0 <= k < |recs| => Fields(recs[k]))
  }

  /** Everything `parse_adif_records(data)` yields, in order. */
  function Records(data: string): seq<map<string, string>> {
    FieldsOfAll(Kept(Split(Body(data), Eor)))
  }

  /** `parse_adif_records`: the generator's output collected into a sequence. */
  method ParseAdifRecords(data: string) returns (records: seq<map<string, string>>)
    ensures records == Records(data)
  {
    var parts := Split(data, Eoh);
    var body := if |parts| > 1 then parts[1] else parts[0];
    var chunks := Split(body, Eor);
    records := [];
    var i := 0;
    while i < |chunks|
      invariant 0 <= i <= |chunks|
      invariant records == FieldsOfAll(Kept(chunks[..i]))
    {
      assert chunks[..i + 1][..i] == chunks[..i];
      var rec := Strip(chunks[i]);
      if rec != "" {
        var fields := ScanRecord(rec);
        FieldsOfAllSnoc(Kept(chunks[..i]), rec);
        records := records + [fields];
      }
      i := i + 1;
    }
    assert chunks[..i] == chunks;
  }

  lemma FieldsOfAllSnoc(recs: seq<string>, rec: string)
    ensures FieldsOfAll(recs + [rec]) == FieldsOfAll(recs) + [Fields(rec)]
  {
  }

  // ---------------------------------------------------------------- splitting

  /**
   * A separator whose first character does not recur in it cannot overlap a
   * prefix free of it, so the split takes that prefix as its first part.
   */
  lemma SplitAfterFirst(h: string, sep: string, b: string)
    requires |sep| > 0 && !Contains(h, sep)
    requires forall k :: 0 < k < |sep| ==> sep[k] != sep[0]
    ensures Split(h + sep + b, sep) == [h] + Split(b, sep)
  {
    var s := h + sep + b;
    assert OccursAt(s, sep, |h|) by {
      assert s[|h|..|h| + |sep|] == sep;
    }
    forall j | 0 <= j < |h|
      ensures !OccursAt(s, sep, j)
    {
      if j + |sep| <= |h| {
        assert s[j..j + |sep|] == h[j..j + |sep|];
        assert !OccursAt(h, sep, j);
      } else {
        assert s[|h|] == sep[0];
        assert sep[|h| - j] != sep[0];
      }
    }
    assert IndexOf(s, sep, 0) == Some(|h|);
    assert s[..|h|] == h;
    assert s[|h| + |sep|..] == b;
  }

  /** With no <EOH> the whole text is scanned. */
  lemma BodyWithoutHeader(data: string)
    requires !Contains(data, Eoh)
    ensures Body(data) == data
  {
    SplitWithout(data, Eoh);
  }

  /**
   * After the first <EOH>, only the text up to a second <EOH> is scanned; a
   * header that is not followed by a second marker leaves the rest as body.
   */
  lemma BodyAfterHeader(h: string, b: string)
    requires !Contains(h, Eoh)
    ensures !Contains(b, Eoh) ==> Body(h + Eoh + b) == b
    ensures forall m, t :: b == m + Eoh + t && !Contains(m, Eoh) ==> Body(h + Eoh + b) == m
  {
    SplitAfterFirst(h, Eoh, b);
    var rest := Split(b, Eoh);
    assert Split(h + Eoh + b, Eoh) == [h] + rest;
    assert Body(h + Eoh + b) == rest[0];
    if !Contains(b, Eoh) {
      SplitWithout(b, Eoh);
    }
    forall m, t | b == m + Eoh + t && !Contains(m, Eoh)
      ensures Body(h + Eoh + b) == m
    {
      SplitAfterFirst(m, Eoh, t);
      assert rest == [m] + Split(t, Eoh);
    }
  }

  /** Lower-case markers are not markers: text without upper-case ones is one record. */
  lemma NoMarkersOneChunk(data: string)
    requires !Contains(data, Eoh) && !Contains(data, Eor)
    ensures Records(data) == if Strip(data) == "" then [] else [Fields(Strip(data))]
  {
    BodyWithoutHeader(data);
    SplitWithout(data, Eor);
    assert Split(Body(data), Eor) == [data];
    assert [data][..0] == [];
    assert Kept([data]) == if Strip(data) == "" then [] else [Strip(data)];
  }

  lemma {:induction false} KeptAppend(a: seq<string>, b: seq<string>)
    ensures Kept(a + b) == Kept(a) + Kept(b)
    decreases |b|
  {
    if b == [] {
      assert a + b == a;
    } else {
      var b' := b[..|b| - 1];
      assert (a + b)[..|a + b| - 1] == a + b';
      KeptAppend(a, b');
    }
  }

  /**
   * A chunk that is blank after strip yields nothing; any other chunk yields
   * exactly one record, in its place, whether or not it holds a header.
   */
  lemma ChunkContributes(a: seq<string>, c: string, b: seq<string>)
    ensures Kept(a + [c] + b) == Kept(a) + (if Strip(c) == "" then [] else [Strip(c)]) + Kept(b)
  {
    KeptAppend(a + [c], b);
    KeptAppend(a, [c]);
    assert [c][..0] == [];
  }

  /** A record without any '<' yields the empty map rather than being dropped. */
  lemma HeaderlessRecord(rec: string)
    requires forall k :: 0 <= k < |rec| ==> rec[k] != '<'
    ensures Fields(rec) == map[]
  {
    NoAngleNoMatch(rec, 0, |rec|);
    ScanEnd(rec, 0);
  }

  // ---------------------------------------------------------------- scanning

  /** Positions where no header starts do not change where the next search lands. */
  lemma SearchSkip(s: string, q: nat, r: nat)
    requires q <= r
    requires forall k :: q <= k < r ==> MatchAt(s, k).None?
    ensures SearchTag(s, q) == SearchTag(s, r)
  {
    var a, b := SearchTag(s, q), SearchTag(s, r);
    SearchTagLeftmost(s, q);
    SearchTagLeftmost(s, r);
    if a.Some? {
      assert r <= a.value.start;
      if b.Some? {
        assert b.value.start == a.value.start;
      }
    } else if b.Some? {
      assert MatchAt(s, b.value.start).Some?;
    }
  }

  /** Text that holds no header is skipped over. */
  lemma ScanSkip(s: string, q: nat, r: nat)
    requires q <= r
    requires forall k :: q <= k < r ==> MatchAt(s, k).None?
    ensures Matches(s, q) == Matches(s, r)
  {
    SearchSkip(s, q, r);
  }

  /** With no header left, the scan ends with the fields it has. */
  lemma ScanEnd(s: string, q: nat)
    requires forall k :: q <= k < |s| ==> MatchAt(s, k).None?
    ensures Matches(s, q) == []
  {
    if q < |s| {
      SearchSkip(s, q, |s|);
    }
  }

  /** Text without '<' is skipped over. */
  lemma ScanGap(s: string, q: nat, gap: string)
    requires q + |gap| <= |s| && s[q..q + |gap|] == gap
    requires forall k :: 0 <= k < |gap| ==> gap[k] != '<'
    ensures Matches(s, q) == Matches(s, q + |gap|)
  {
    forall k | q <= k < q + |gap|
      ensures s[k] != '<'
    {
      assert s[k] == gap[k - q];
    }
    NoAngleNoMatch(s, q, q + |gap|);
    ScanSkip(s, q, q + |gap|);
  }

  /** A character other than '<' starts no header. */
  lemma NoAngleNoMatch(s: string, q: nat, r: nat)
    requires q <= r <= |s|
    requires forall k :: q <= k < r ==> s[k] != '<'
    ensures forall k :: q <= k < r ==> MatchAt(s, k).None?
  {
  }

  /** `<T:n>`: the data-specifier header written for a value of length `n`. */
  function Header(t: string, n: nat): string {
    "<" + t + ":" + NatToString(n) + ">"
  }

  /** A data specifier whose declared length is the length of its value. */
  function FieldText(t: string, v: string): string {
    Header(t, |v|) + v
  }

  /** The characters of a header written at `p`, position by position. */
  lemma HeaderChars(s: string, p: nat, t: string, n: nat)
    requires TagName(t)
    requires p + |Header(t, n)| <= |s| && s[p..p + |Header(t, n)|] == Header(t, n)
    ensures var ne, de := p + 1 + |t|, p + |Header(t, n)| - 1;
      ne + 1 < de && s[p] == '<' && s[ne] == ':' && s[de] == '>' &&
      (forall k :: p + 1 <= k < ne ==> NameChar(s[k])) && (forall k :: ne < k < de ==> IsDigit(s[k])) &&
      s[p + 1..ne] == t && s[ne + 1..de] == NatToString(n)
  {
    var d := NatToString(n);
    var ne := p + 1 + |t|;
    var de := ne + 1 + |d|;
    var w := s[p..de + 1];
    assert w == "<" + t + ":" + d + ">";
    assert s[p] == w[0];
    forall k | p + 1 <= k < ne
      ensures NameChar(s[k])
    {
      assert s[k] == w[k - p] == t[k - p - 1];
    }
    assert s[ne] == w[|t| + 1];
    forall k | ne < k < de
      ensures IsDigit(s[k])
    {
      assert s[k] == w[k - p] == d[k - ne - 1];
    }
    assert s[de] == w[|w| - 1];
    var a, b := s[p + 1..ne], s[ne + 1..de];
    assert forall k :: 0 <= k < |a| ==> a[k] == w[k + 1] == t[k];
    assert forall k :: 0 <= k < |b| ==> b[k] == w[k + |t| + 2] == d[k];
  }

  /** A well-formed header is matched, with its name and length read back exactly. */
  lemma MatchHeader(s: string, p: nat, t: string, n: nat)
    requires TagName(t)
    requires p + |Header(t, n)| <= |s| && s[p..p + |Header(t, n)|] == Header(t, n)
    ensures MatchAt(s, p) == Some(TagMatch(p, t, n, p + |Header(t, n)|))
  {
    var ne, de := p + 1 + |t|, p + |Header(t, n)| - 1;
    HeaderChars(s, p, t, n);
    NatToStringRoundTrip(n);
    MatchParts(s, p, ne, de);
  }

  /** '<', a run of name characters, ':', a run of digits and '>' make a match. */
  lemma MatchParts(s: string, p: nat, ne: nat, de: nat)
    requires p + 1 < ne && ne + 1 < de < |s|
    requires s[p] == '<' && s[ne] == ':' && s[de] == '>'
    requires forall k :: p + 1 <= k < ne ==> NameChar(s[k])
    requires forall k :: ne < k < de ==> IsDigit(s[k])
    ensures MatchAt(s, p) == Some(TagMatch(p, s[p + 1..ne], DigitsValue(s[ne + 1..de]), de + 1))
  {
    NameRun(s, p, p + 1, ne);
    DigitRun(s, p, ne, ne + 1, de);
    assert s[ne + 1..ne + 1] == [];
  }


  /** The header of a data specifier is matched with the value's length. */
  lemma MatchFieldText(s: string, p: nat, t: string, v: string)
    requires TagName(t)
    requires p + |FieldText(t, v)| <= |s| && s[p..p + |FieldText(t, v)|] == FieldText(t, v)
    ensures MatchAt(s, p) == Some(TagMatch(p, t, |v|, p + |Header(t, |v|)|))
  {
    var h := Header(t, |v|);
    assert s[p..p + |h|] == s[p..p + |FieldText(t, v)|][..|h|] == h;
    MatchHeader(s, p, t, |v|);
  }

  /** A data specifier is read as one field, and the scan resumes right after its value. */
  lemma ScanField(s: string, p: nat, t: string, v: string)
    requires TagName(t)
    requires p + |FieldText(t, v)| <= |s| && s[p..p + |FieldText(t, v)|] == FieldText(t, v)
    ensures Matches(s, p) == [(t, v)] + Matches(s, p + |FieldText(t, v)|)
  {
    MatchFieldText(s, p, t, v);
    var m := TagMatch(p, t, |v|, p + |Header(t, |v|)|);
    assert SearchTag(s, p) == Some(m);
    var hl, fl := |Header(t, |v|)|, |FieldText(t, v)|;
    assert ValueOf(s, m) == s[p + hl..p + fl];
    assert s[p + hl..p + fl] == s[p..p + fl][hl..];
    assert FieldText(t, v)[hl..] == v;
  }

  /** The data specifiers of `fs`, each followed by `gap`. */
  function Joined(fs: seq<(string, string)>, gap: string): string
    decreases |fs|
  {
    if fs == [] then "" else FieldText(fs[0].0, fs[0].1) + gap + Joined(fs[1..], gap)
  }

  predicate TagNames(fs: seq<(string, string)>) {
    forall i :: 0 <= i < |fs| ==> TagName(fs[i].0)
  }

  /** Scanning a run of data specifiers separated by text without '<' finds exactly those fields. */
  lemma {:induction false} ScanJoined(s: string, pos: nat, fs: seq<(string, string)>, gap: string, end: nat)
    requires TagNames(fs)
    requires forall k :: 0 <= k < |gap| ==> gap[k] != '<'
    requires end == pos + |Joined(fs, gap)| && end <= |s| && s[pos..end] == Joined(fs, gap)
    ensures Matches(s, pos) == fs + Matches(s, end)
    decreases |fs|
  {
    if fs != [] {
      var next := JoinedStep(s, pos, fs, gap);
      ScanJoined(s, next, fs[1..], gap, end);
      Chain(Matches(s, pos), fs, Matches(s, next), Matches(s, end));
    } else {
      assert end == pos;
    }
  }

  lemma Chain<T>(all: seq<T>, fs: seq<T>, mid: seq<T>, end: seq<T>)
    requires fs != [] && all == [fs[0]] + mid && mid == fs[1..] + end
    ensures all == fs + end
  {
    assert fs == [fs[0]] + fs[1..];
  }

  lemma JoinedStep(s: string, pos: nat, fs: seq<(string, string)>, gap: string) returns (next: nat)
    requires fs != [] && TagNames(fs)
    requires forall k :: 0 <= k < |gap| ==> gap[k] != '<'
    requires pos + |Joined(fs, gap)| <= |s| && s[pos..pos + |Joined(fs, gap)|] == Joined(fs, gap)
    ensures next + |Joined(fs[1..], gap)| == pos + |Joined(fs, gap)|
    ensures s[next..next + |Joined(fs[1..], gap)|] == Joined(fs[1..], gap)
    ensures Matches(s, pos) == [fs[0]] + Matches(s, next)
  {
    var t, v := fs[0].0, fs[0].1;
    var f, rest := FieldText(t, v), Joined(fs[1..], gap);
    assert Joined(fs, gap) == f + gap + rest;
    assert TagName(t);
    next := pos + |f| + |gap|;
    Windows(s, pos, f, gap, rest);
    FieldThenGap(s, pos, t, v, gap);
  }

  /** A data specifier followed by text without '<' is read as its one field. */
  lemma FieldThenGap(s: string, pos: nat, t: string, v: string, gap: string)
    requires TagName(t) && forall k :: 0 <= k < |gap| ==> gap[k] != '<'
    requires pos + |FieldText(t, v)| + |gap| <= |s| && s[pos..pos + |FieldText(t, v)|] == FieldText(t, v)
    requires s[pos + |FieldText(t, v)|..pos + |FieldText(t, v)| + |gap|] == gap
    ensures Matches(s, pos) == [(t, v)] + Matches(s, pos + |FieldText(t, v)| + |gap|)
  {
    ScanField(s, pos, t, v);
    ScanGap(s, pos + |FieldText(t, v)|, gap);
  }

  /** Where the three parts of a window `a + b + c` of `s` lie. */
  lemma Windows(s: string, pos: nat, a: string, b: string, c: string)
    requires pos + |a + b + c| <= |s| && s[pos..pos + |a + b + c|] == a + b + c
    ensures s[pos..pos + |a|] == a
    ensures s[pos + |a|..pos + |a| + |b|] == b
    ensures s[pos + |a| + |b|..pos + |a| + |b| + |c|] == c
  {
    var w := s[pos..pos + |a + b + c|];
    var x, y, z := s[pos..pos + |a|], s[pos + |a|..pos + |a| + |b|], s[pos + |a| + |b|..pos + |a| + |b| + |c|];
    assert forall k :: 0 <= k < |a| ==> x[k] == w[k] == a[k];
    assert forall k :: 0 <= k < |b| ==> y[k] == w[|a| + k] == b[k];
    assert forall k :: 0 <= k < |c| ==> z[k] == w[|a| + |b| + k] == c[k];
  }

  /** The stored map holds each name, upper-cased, with the value of its last occurrence. */
  lemma {:induction false} StoreLastWins(acc: map<string, string>, fs: seq<(string, string)>, i: nat)
    requires i < |fs|
    requires forall j :: i < j < |fs| ==> Upper(fs[j].0) != Upper(fs[i].0)
    ensures Upper(fs[i].0) in Store(acc, fs) && Store(acc, fs)[Upper(fs[i].0)] == fs[i].1
    decreases |fs|
  {
    if i == 0 {
      StoreKeeps(acc[Upper(fs[0].0) := fs[0].1], fs[1..], Upper(fs[0].0));
    } else {
      StoreLastWins(acc[Upper(fs[0].0) := fs[0].1], fs[1..], i - 1);
    }
  }

  /** A name that no later field writes keeps its value. */
  lemma {:induction false} StoreKeeps(acc: map<string, string>, fs: seq<(string, string)>, key: string)
    requires key in acc
    requires forall j :: 0 <= j < |fs| ==> Upper(fs[j].0) != key
    ensures key in Store(acc, fs) && Store(acc, fs)[key] == acc[key]
    decreases |fs|
  {
    if fs != [] {
      StoreKeeps(acc[Upper(fs[0].0) := fs[0].1], fs[1..], key);
    }
  }

  /** The stored map's keys are those it started with plus the upper-cased names. */
  lemma {:induction false} StoreKeys(acc: map<string, string>, fs: seq<(string, string)>)
    ensures Store(acc, fs).Keys == acc.Keys + set j | 0 <= j < |fs| :: Upper(fs[j].0)
    decreases |fs|
  {
    if fs != [] {
      StoreKeys(acc[Upper(fs[0].0) := fs[0].1], fs[1..]);
      var tail := set j | 0 <= j < |fs[1..]| :: Upper(fs[1..][j].0);
      var all := set j | 0 <= j < |fs| :: Upper(fs[j].0);
      assert all == {Upper(fs[0].0)} + tail by {
        forall x | x in all ensures x in {Upper(fs[0].0)} + tail {
          var j :| 0 <= j < |fs| && Upper(fs[j].0) == x;
          if j > 0 {
            assert Upper(fs[1..][j - 1].0) == x;
          }
        }
        forall x | x in tail ensures x in all {
          var j :| 0 <= j < |fs[1..]| && Upper(fs[1..][j].0) == x;
          assert Upper(fs[j + 1].0) == x;
        }
      }
    }
  }

  // ---------------------------------------------------------------- round trip

  /** Neither marker occurs in a header: its only '<' is its first character. */
  lemma HeaderHasNoMarker(t: string, n: nat, marker: string)
    requires TagName(t) && (marker == Eor || marker == Eoh)
    ensures !Contains(Header(t, n), marker)
  {
    var d := NatToString(n);
    var h := Header(t, n);
    assert h == "<" + t + ":" + d + ">";
    assert |h| == |t| + |d| + 3;
    forall i | 0 <= i <= |h|
      ensures !OccursAt(h, marker, i)
    {
      if i + |marker| <= |h| {
        if i == 0 {
          if |t| >= 4 {
            assert h[4] == t[3];
          } else if |t| == 3 {
            assert h[4] == ':';
          } else {
            assert h[|t| + 1] == ':';
            assert marker[|t| + 1] != ':';
          }
        } else if i <= |t| {
          assert h[i] == t[i - 1];
        } else if i == |t| + 1 {
          assert h[i] == ':';
        } else {
          assert h[i] == d[i - |t| - 2];
        }
      }
    }
  }

  /**
   * A string free of a marker followed by another cannot hold it across the
   * join when the join's first or last character rules that out.
   */
  lemma ConcatWithout(x: string, y: string, p: string)
    requires |p| > 0 && !Contains(x, p) && !Contains(y, p)
    requires (|x| > 0 && forall k :: 0 <= k < |p| - 1 ==> p[k] != x[|x| - 1]) ||
             (|y| > 0 && forall k :: 0 < k < |p| ==> p[k] != y[0])
    ensures !Contains(x + y, p)
  {
    var s := x + y;
    forall i | 0 <= i <= |s|
      ensures !OccursAt(s, p, i)
    {
      if i + |p| <= |s| {
        if i + |p| <= |x| {
          assert s[i..i + |p|] == x[i..i + |p|];
          assert !OccursAt(x, p, i);
        } else if i >= |x| {
          assert s[i..i + |p|] == y[i - |x|..i - |x| + |p|];
          assert !OccursAt(y, p, i - |x|);
        } else if |x| > 0 && forall k :: 0 <= k < |p| - 1 ==> p[k] != x[|x| - 1] {
          assert s[|x| - 1] == x[|x| - 1];
          assert p[|x| - 1 - i] != x[|x| - 1];
        } else {
          assert s[|x|] == y[0];
          assert p[|x| - i] != y[0];
        }
      }
    }
  }

  /** A data specifier holds a marker only if its value does. */
  lemma FieldTextHasNoMarker(t: string, v: string, marker: string)
    requires TagName(t) && (marker == Eor || marker == Eoh) && !Contains(v, marker)
    ensures !Contains(FieldText(t, v), marker)
  {
    HeaderHasNoMarker(t, |v|, marker);
    var h := Header(t, |v|);
    assert h[|h| - 1] == '>';
    ConcatWithout(h, v, marker);
  }

  /**
   * `<T:n>v` with n = |v| is read back as the single record {upper(T): v},
   * provided the value holds neither marker and does not end in whitespace
   * that the record's strip would remove.
   */
  lemma SingleFieldRoundTrip(t: string, v: string)
    requires TagName(t)
    requires !Contains(v, Eor) && !Contains(v, Eoh)
    requires v == [] || !IsSpace(v[|v| - 1])
    ensures Records(FieldText(t, v)) == [map[Upper(t) := v]]
  {
    var s := FieldText(t, v);
    FieldTextHasNoMarker(t, v, Eor);
    FieldTextHasNoMarker(t, v, Eoh);
    NoMarkersOneChunk(s);
    assert s[0] == '<';
    assert !IsSpace(s[|s| - 1]);
    StripNoSpaceEnds(s);
    FieldTextFields(t, v);
  }

  /** A lone data specifier is read as exactly its one field. */
  lemma FieldTextFields(t: string, v: string)
    requires TagName(t)
    ensures Fields(FieldText(t, v)) == map[Upper(t) := v]
  {
    var s := FieldText(t, v);
    assert s[0..|s|] == s;
    ScanField(s, 0, t, v);
    ScanEnd(s, |s|);
    assert Matches(s, 0) == [(t, v)];
    assert Store(map[], [(t, v)]) == Store(map[Upper(t) := v], []);
  }
}
