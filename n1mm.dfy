// The N1MM Logger+ bridge of n1mm.py: `to_adif_field` writes one ADIF data
// specifier, `xml_to_adif_field` takes its data from the contact's XML unless
// given, and `contact_to_adif` writes the fields of a contact in a fixed order
// and ends the record with a lower-case <eor>. The XML document is given as
// the text of each element, `fromisoformat` as the date and time it read, and
// `freq_to_adif` as a function.

module N1mm {
  import opened Wrappers
  import opened Text
  import opened Calendar
  import opened AdifRecords

  /** The text of the contact's child element with a given name; `None` for an empty element. */
  type Xml = string -> Option<string>

  /** `freq_to_adif`: N1MM's frequency (tens of hertz) as megahertz; `None` where `int()` raises. */
  type FreqToAdif = string -> Option<string>

  datatype N1mmError = NotAnN1mmMessage | BadFrequency

  /** The end of the record `contact_to_adif` writes. */
  const RecordTail: string := "\n<eor>\n"

  /**
   * `to_adif_field`: nothing for missing or empty data, otherwise `<field:n>data`
   * and a newline, where `n` is the length of the data: the data specifier the
   * staging tokenizer reads.
   */
  function ToAdifField(field: string, data: Option<string>): (r: string)
    ensures r == [] <==> data.None? || data.value == []
    ensures r != [] ==> r == FieldText(field, data.value) + "\n"
  {
    if data.None? || |data.value| <= 0 then ""
    else "<" + field + ":" + NatToString(|data.value|) + ">" + data.value + "\n"
  }

  /** `xml_to_adif_field`: the element `xmlField` supplies the data only when none is given. */
  function XmlToAdifField(root: Xml, xmlField: string, adifField: string, data: Option<string>): string {
    ToAdifField(adifField, if data.None? then root(xmlField) else data)
  }

  /** Given data, the XML document and the element name play no part. */
  lemma ExplicitDataSkipsLookup(root: Xml, other: Xml, xmlField: string, otherField: string, adifField: string, v: string)
    ensures XmlToAdifField(root, xmlField, adifField, Some(v)) == XmlToAdifField(other, otherField, adifField, Some(v))
    ensures XmlToAdifField(root, xmlField, adifField, Some(v)) == ToAdifField(adifField, Some(v))
  {
  }

  /**
   * The (ADIF name, data) pairs `contact_to_adif` writes, in order: date, time,
   * operator, call, mode, freq, freq_rx (only when the receive frequency's text
   * differs from the transmit one's), the reports, power, name, QTH and comment.
   */
  function Pairs(root: Xml, date: Date, time: Time, txAdif: string, rxAdif: Option<string>): seq<(string, Option<string>)>
    requires ValidDate(date) && ValidTime(time)
  {
    [("qso_date", Some(FormatYmd(date))), ("time_on", Some(FormatHms(time))),
     ("operator", root("mycall")), ("call", root("call")), ("mode", root("mode")),
     ("freq", Some(txAdif))]
    + (if rxAdif.Some? then [("freq_rx", rxAdif)] else [])
    + [("rst_sent", root("snt")), ("rst_rcvd", root("rcv")), ("rx_power", root("power")),
       ("name", root("name")), ("qth", root("qth")), ("comment", root("comment"))]
  }

  /** `adif += to_adif_field(name, data)` for each pair in order. */
  function Emit(ps: seq<(string, Option<string>)>): string {
    if ps == [] then "" else ToAdifField(ps[0].0, ps[0].1) + Emit(ps[1..])
  }

  /**
   * `contact_to_adif` over the contact's element texts and its parsed
   * timestamp: an error unless the app is N1MM, or when a frequency that is
   * converted cannot be; otherwise the fields and the record end.
   */
  function ContactToAdif(root: Xml, date: Date, time: Time, freqToAdif: FreqToAdif): Result<string, N1mmError>
    requires ValidDate(date) && ValidTime(time)
  {
    if root("app") != Some("N1MM") then Err(NotAnN1mmMessage)
    else
      var tx, rx := root("txfreq"), root("rxfreq");
      if tx.None? || freqToAdif(tx.value).None? then Err(BadFrequency)
      else if tx != rx && (rx.None? || freqToAdif(rx.value).None?) then Err(BadFrequency)
      else
        var rxAdif := if tx != rx then freqToAdif(rx.value) else None;
        Ok(Emit(Pairs(root, date, time, freqToAdif(tx.value).value, rxAdif)) + RecordTail)
  }

  // ---------------------------------------------------------------- properties

  /** The pairs that are written: those whose data is present and non-empty. */
  function Written(ps: seq<(string, Option<string>)>): seq<(string, string)> {
    if ps == [] then []
    else (if ps[0].1.Some? && ps[0].1.value != [] then [(ps[0].0, ps[0].1.value)] else []) + Written(ps[1..])
  }

  /** What `contact_to_adif` writes is the data specifiers of the written pairs, each followed by a newline. */
  lemma {:induction false} EmitJoined(ps: seq<(string, Option<string>)>)
    ensures Emit(ps) == Joined(Written(ps), "\n")
  {
    if ps != [] {
      EmitJoined(ps[1..]);
      var w := Written(ps[1..]);
      if ps[0].1.Some? && ps[0].1.value != [] {
        var f := (ps[0].0, ps[0].1.value);
        assert Written(ps) == [f] + w;
        assert ([f] + w)[1..] == w;
      } else {
        assert Written(ps) == w;
      }
    }
  }

  /** The transmit frequency converted, when the contact can be written. */
  function TxAdif(root: Xml, freqToAdif: FreqToAdif): string
    requires root("txfreq").Some? && freqToAdif(root("txfreq").value).Some?
  {
    freqToAdif(root("txfreq").value).value
  }

  /** The receive frequency converted, only when its text differs from the transmit one's. */
  function RxAdif(root: Xml, freqToAdif: FreqToAdif): Option<string>
    requires root("rxfreq").Some?
  {
    if root("txfreq") != root("rxfreq") then freqToAdif(root("rxfreq").value) else None
  }

  /** Only a message from N1MM is converted. */
  lemma OnlyN1mm(root: Xml, date: Date, time: Time, freqToAdif: FreqToAdif)
    requires ValidDate(date) && ValidTime(time)
    ensures ContactToAdif(root, date, time, freqToAdif).Ok? ==> root("app") == Some("N1MM")
    ensures root("app") != Some("N1MM") ==> ContactToAdif(root, date, time, freqToAdif) == Err(NotAnN1mmMessage)
  {
  }

  /**
   * A converted contact is the data specifiers of its non-empty fields, each
   * followed by a newline, and then the record end "\n<eor>\n".
   */
  lemma ContactWritten(root: Xml, date: Date, time: Time, freqToAdif: FreqToAdif)
    requires ValidDate(date) && ValidTime(time)
    requires ContactToAdif(root, date, time, freqToAdif).Ok?
    ensures root("rxfreq").Some?
    ensures ContactToAdif(root, date, time, freqToAdif).value ==
      Joined(Written(Pairs(root, date, time, TxAdif(root, freqToAdif), RxAdif(root, freqToAdif))), "\n") + RecordTail
  {
    if root("txfreq") == root("rxfreq") {
      assert root("rxfreq").Some?;
    }
    EmitJoined(Pairs(root, date, time, TxAdif(root, freqToAdif), RxAdif(root, freqToAdif)));
  }

  /**
   * A converted contact carries freq_rx exactly when the receive frequency's
   * text differs from the transmit one's (`str` of a float is never empty).
   */
  lemma ContactFreqRx(root: Xml, date: Date, time: Time, freqToAdif: FreqToAdif)
    requires ValidDate(date) && ValidTime(time)
    requires ContactToAdif(root, date, time, freqToAdif).Ok?
    requires forall t :: freqToAdif(t) != Some("")
    ensures root("rxfreq").Some?
    ensures (exists p :: p in Written(Pairs(root, date, time, TxAdif(root, freqToAdif), RxAdif(root, freqToAdif)))
               && p.0 == "freq_rx")
      <==> root("txfreq") != root("rxfreq")
  {
    ContactWritten(root, date, time, freqToAdif);
    var rx := RxAdif(root, freqToAdif);
    assert rx.Some? ==> rx.value != [] by {
      if rx.Some? {
        assert freqToAdif(root("rxfreq").value) != Some("");
      }
    }
    FreqRxWritten(root, date, time, TxAdif(root, freqToAdif), rx);
  }

  /** freq_rx is among the written pairs exactly when a receive frequency is given. */
  lemma FreqRxWritten(root: Xml, date: Date, time: Time, txAdif: string, rxAdif: Option<string>)
    requires ValidDate(date) && ValidTime(time)
    requires rxAdif.Some? ==> rxAdif.value != []
    ensures (exists p :: p in Written(Pairs(root, date, time, txAdif, rxAdif)) && p.0 == "freq_rx") <==> rxAdif.Some?
  {
    var ps := Pairs(root, date, time, txAdif, rxAdif);
    WrittenNames(ps);
    if rxAdif.Some? {
      assert ps[6] == ("freq_rx", rxAdif);
      WrittenHas(ps, 6);
    } else {
      forall i | 0 <= i < |ps| ensures ps[i].0 != "freq_rx" {
      }
    }
  }

  /** Every written pair comes from a pair with the same name. */
  lemma {:induction false} WrittenNames(ps: seq<(string, Option<string>)>)
    ensures forall p :: p in Written(ps) ==> exists i :: 0 <= i < |ps| && ps[i].0 == p.0
  {
    if ps != [] {
      WrittenNames(ps[1..]);
      forall p | p in Written(ps) ensures exists i :: 0 <= i < |ps| && ps[i].0 == p.0 {
        if p !in Written(ps[1..]) {
          assert ps[0].0 == p.0;
        } else {
          var i :| 0 <= i < |ps[1..]| && ps[1..][i].0 == p.0;
          assert ps[i + 1].0 == p.0;
        }
      }
    }
  }

  /** A pair with non-empty data is written. */
  lemma {:induction false} WrittenHas(ps: seq<(string, Option<string>)>, i: nat)
    requires i < |ps| && ps[i].1.Some? && ps[i].1.value != []
    ensures (ps[i].0, ps[i].1.value) in Written(ps)
  {
    if i > 0 {
      WrittenHas(ps[1..], i - 1);
    }
  }

  // ------------------------------------------------------------ read back

  /** A trailing newline is all the record's strip removes from text with no space at either end. */
  lemma StripNewline(x: string)
    requires |x| > 0 && NoSpaceEnds(x)
    ensures Strip(x + "\n") == x
  {
    var s := x + "\n";
    assert TrimLeft(s) == s;
    assert s[..|s| - 1] == x;
    assert TrimRight(s) == TrimRight(x);
  }

  /** One field `to_adif_field` writes is read back by the staging tokenizer as a record of that one field. */
  lemma ToAdifFieldReadBack(field: string, v: string)
    requires TagName(field) && v != []
    requires !Contains(v, Eor) && !Contains(v, Eoh)
    requires !IsSpace(v[|v| - 1])
    ensures Records(ToAdifField(field, Some(v))) == [map[Upper(field) := v]]
  {
    var x := FieldText(field, v);
    NewlineAfter(x, Eor);
    NewlineAfter(x, Eoh);
    FieldTextHasNoMarker(field, v, Eor);
    FieldTextHasNoMarker(field, v, Eoh);
    NewlineWithout(Eor);
    NewlineWithout(Eoh);
    ConcatWithout(x, "\n", Eor);
    ConcatWithout(x, "\n", Eoh);
    NoMarkersOneChunk(x + "\n");
    assert x[0] == '<' && x[|x| - 1] == v[|v| - 1];
    StripNewline(x);
    FieldTextFields(field, v);
  }

  lemma NewlineWithout(marker: string)
    requires marker == Eor || marker == Eoh
    ensures !Contains("\n", marker)
  {
  }

  /** Neither marker has a newline after its first character. */
  lemma NewlineAfter(x: string, marker: string)
    requires marker == Eor || marker == Eoh
    ensures forall k :: 0 < k < |marker| ==> marker[k] != "\n"[0]
    ensures forall k :: 0 <= k < |marker| - 1 ==> marker[k] != (x + "\n")[|x|]
  {
  }

  /** The data of the written fields never holds a marker, and the field names are tag names. */
  lemma {:induction false} JoinedWithout(fs: seq<(string, string)>, marker: string)
    requires marker == Eor || marker == Eoh
    requires TagNames(fs)
    requires forall i :: 0 <= i < |fs| ==> !Contains(fs[i].1, marker)
    ensures !Contains(Joined(fs, "\n"), marker)
  {
    if fs != [] {
      var x := FieldText(fs[0].0, fs[0].1);
      FieldTextHasNoMarker(fs[0].0, fs[0].1, marker);
      NewlineWithout(marker);
      NewlineAfter(x, marker);
      ConcatWithout(x, "\n", marker);
      JoinedWithout(fs[1..], marker);
      ConcatWithout(x + "\n", Joined(fs[1..], "\n"), marker);
    }
  }

  /** The record end has neither marker: its "<eor>" is lower-case. */
  lemma TailWithout(marker: string)
    requires marker == Eor || marker == Eoh
    ensures !Contains(RecordTail, marker)
  {
    forall i | 0 <= i <= |RecordTail| ensures !OccursAt(RecordTail, marker, i) {
      if i + |marker| <= |RecordTail| {
        assert RecordTail[i..i + |marker|][1] != marker[1];
      }
    }
  }

  /** The staging tokenizer finds no data specifier in "\n<eor>" after the fields. */
  lemma TailHasNoField(j: string)
    ensures Matches(j + "\n<eor>", |j|) == []
  {
    var r := j + "\n<eor>";
    var q := |j| + 1;
    assert r[q] == '<' && r[q + 1] == 'e' && r[q + 2] == 'o' && r[q + 3] == 'r' && r[q + 4] == '>';
    NameRun(r, q, q + 1, q + 4);
    forall k | |j| <= k < |r| ensures MatchAt(r, k).None? {
      if k != q {
        assert r[k] != '<';
      }
    }
    ScanEnd(r, |j|);
  }

  /** Every name `contact_to_adif` writes is a tag name. */
  lemma PairNames(root: Xml, date: Date, time: Time, txAdif: string, rxAdif: Option<string>)
    requires ValidDate(date) && ValidTime(time)
    ensures TagNames(Written(Pairs(root, date, time, txAdif, rxAdif)))
  {
    var ps := Pairs(root, date, time, txAdif, rxAdif);
    forall i | 0 <= i < |ps| ensures TagName(ps[i].0) {
    }
    WrittenNames(ps);
    var w := Written(ps);
    forall i | 0 <= i < |w| ensures TagName(w[i].0) {
      assert w[i] in w;
    }
  }

  /**
   * A converted contact is read back by the staging tokenizer as one record
   * holding its non-empty fields, provided no field's data holds a marker.
   */
  lemma ContactReadBack(root: Xml, date: Date, time: Time, freqToAdif: FreqToAdif)
    requires ValidDate(date) && ValidTime(time)
    requires ContactToAdif(root, date, time, freqToAdif).Ok?
    requires root("rxfreq").Some?
    requires var w := Written(Pairs(root, date, time, TxAdif(root, freqToAdif), RxAdif(root, freqToAdif)));
      forall i :: 0 <= i < |w| ==> !Contains(w[i].1, Eor) && !Contains(w[i].1, Eoh)
    ensures Records(ContactToAdif(root, date, time, freqToAdif).value) ==
      [Store(map[], Written(Pairs(root, date, time, TxAdif(root, freqToAdif), RxAdif(root, freqToAdif))))]
  {
    ContactWritten(root, date, time, freqToAdif);
    var ps := Pairs(root, date, time, TxAdif(root, freqToAdif), RxAdif(root, freqToAdif));
    var w := Written(ps);
    var j := Joined(w, "\n");
    PairNames(root, date, time, TxAdif(root, freqToAdif), RxAdif(root, freqToAdif));
    FirstWritten(ps, date);
    OneRecord(w, j);
  }

  /** The first field written is the date, which is never empty. */
  lemma FirstWritten(ps: seq<(string, Option<string>)>, date: Date)
    requires ValidDate(date)
    requires |ps| > 0 && ps[0] == ("qso_date", Some(FormatYmd(date)))
    ensures |Written(ps)| > 0 && Written(ps)[0] == ("qso_date", FormatYmd(date))
  {
    YmdLength(date);
  }

  lemma YmdLength(date: Date)
    requires ValidDate(date)
    ensures FormatYmd(date) != []
  {
    YmdRoundTrip(date);
  }

  /** Fields joined by newlines, then the record end, are one record of those fields. */
  lemma OneRecord(w: seq<(string, string)>, j: string)
    requires |w| > 0 && TagNames(w) && j == Joined(w, "\n")
    requires forall i :: 0 <= i < |w| ==> !Contains(w[i].1, Eor) && !Contains(w[i].1, Eoh)
    ensures Records(j + RecordTail) == [Store(map[], w)]
  {
    JoinedWithout(w, Eor);
    JoinedWithout(w, Eoh);
    assert j[0] == '<';
    OneChunk(j);
    var r := j + "\n<eor>";
    ScansToFields(w, r);
    TailHasNoField(j);
    assert Matches(r, 0) == w + [] == w;
  }

  /** The fields at the front of a record are the ones the scan finds there. */
  lemma ScansToFields(w: seq<(string, string)>, r: string)
    requires TagNames(w) && |Joined(w, "\n")| <= |r| && r[..|Joined(w, "\n")|] == Joined(w, "\n")
    ensures Matches(r, 0) == w + Matches(r, |Joined(w, "\n")|)
  {
    assert r[0..|Joined(w, "\n")|] == r[..|Joined(w, "\n")|];
    ScanJoined(r, 0, w, "\n", |Joined(w, "\n")|);
  }

  /** Text with no marker, then the record end, is one chunk: the text and "\n<eor>". */
  lemma OneChunk(j: string)
    requires |j| > 0 && j[0] == '<' && !Contains(j, Eor) && !Contains(j, Eoh)
    ensures Records(j + RecordTail) == [Fields(j + "\n<eor>")]
  {
    TailWithout(Eor);
    TailWithout(Eoh);
    ConcatWithout(j, RecordTail, Eor);
    ConcatWithout(j, RecordTail, Eoh);
    NoMarkersOneChunk(j + RecordTail);
    var r := j + "\n<eor>";
    assert j + RecordTail == r + "\n";
    StripNewline(r);
  }
}
