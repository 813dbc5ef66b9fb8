/**
 * The validation rules of the QSO model in qsos/models.py: callsign syntax
 * (`_validate_callsign`), the band plan (`_derive_band_from_freq`) and
 * `clean()`, which normalizes the callsigns, derives the band, checks the
 * satellite fields and falls back from station callsign to operator.
 *
 * Frequencies are exact reals in MHz; a missing Decimal is `None`.
 */
module QsoValidation {
  import opened Wrappers
  import opened Text

  // ---------------------------------------------------------------- callsigns

  /** Why `_validate_callsign` raises, one reason per check, in the order they are made. */
  datatype CallsignError =
    | BadLength
    | BadCharacters
    | SlashAtEnd
    | NeedsLetterAndDigit
    | LeadingZero
    | BadOnePrefix

  predicate CallsignChar(c: char) {
    IsUpperLetter(c) || IsDigit(c) || c == '/'
  }

  predicate HasLetter(v: string) {
    exists i :: 0 <= i < |v| && IsUpperLetter(v[i])
  }

  predicate HasDigit(v: string) {
    exists i :: 0 <= i < |v| && IsDigit(v[i])
  }

  /** The callsign rules, all at once, on the normalized spelling. */
  predicate AcceptedCallsign(v: string) {
    && 3 <= |v| <= 20
    && (forall i :: 0 <= i < |v| ==> CallsignChar(v[i]))
    && v[0] != '/' && v[|v| - 1] != '/'
    && HasLetter(v) && HasDigit(v)
    && v[0] != '0'
    && (v[0] == '1' ==> v[1] == 'A' || v[1] == 'M' || v[1] == 'S')
  }

  /** `QSO._validate_callsign(value, field)`: an empty value passes unchanged; otherwise the stripped, upper-cased callsign or the first rule it breaks. */
  function ValidateCallsign(value: string): (r: Result<string, CallsignError>)
    ensures value == "" ==> r == Ok("")
    ensures value != "" ==> (r.Ok? <==> AcceptedCallsign(Upper(Strip(value))))
    ensures value != "" && r.Ok? ==> r.value == Upper(Strip(value))
  {
    if value == "" then Ok(value)
    else
      var v := Upper(Strip(value));
      if |v| < 3 || |v| > 20 then Err(BadLength)
      else if !(forall i :: 0 <= i < |v| ==> CallsignChar(v[i])) then Err(BadCharacters)
      else if v[0] == '/' || v[|v| - 1] == '/' then Err(SlashAtEnd)
      else if !HasLetter(v) || !HasDigit(v) then Err(NeedsLetterAndDigit)
      else if v[0] == '0' then Err(LeadingZero)
      else if v[0] == '1' && !(v[1] == 'A' || v[1] == 'M' || v[1] == 'S') then Err(BadOnePrefix)
      else Ok(v)
  }

  /** A callsign the rules accept is returned as it is when validated again. */
  lemma CallsignIdempotent(value: string)
    requires ValidateCallsign(value).Ok?
    ensures ValidateCallsign(ValidateCallsign(value).value) == ValidateCallsign(value)
  {
    var v := ValidateCallsign(value).value;
    if v != "" {
      assert forall i :: 0 <= i < |v| ==> !IsSpace(v[i]) && !IsLowerLetter(v[i]);
      StripNoSpaceEnds(v);
      assert Upper(v) == v;
    }
  }

  /** "/BAD/" breaks the slash rule (tests/test_qso_validation.py). */
  lemma SlashedCallsignRejected()
    ensures ValidateCallsign("/BAD/") == Err(SlashAtEnd)
  {
    StripNoSpaceEnds("/BAD/");
    assert Upper("/BAD/") == "/BAD/";
  }

  /** " k1abc" is accepted as "K1ABC". */
  lemma LowerCaseCallsignAccepted()
    ensures ValidateCallsign(" k1abc") == Ok("K1ABC")
  {
    assert Strip(" k1abc") == "k1abc" by {
      assert " k1abc"[1..] == "k1abc";
      StripNoSpaceEnds("k1abc");
    }
    assert Upper("k1abc") == "K1ABC";
    assert IsUpperLetter("K1ABC"[0]) && IsDigit("K1ABC"[1]);
  }

  /** A callsign may not start with 0. */
  lemma LeadingZeroRejected()
    ensures ValidateCallsign("0AB1") == Err(LeadingZero)
  {
    StripNoSpaceEnds("0AB1");
    assert Upper("0AB1") == "0AB1";
    assert IsUpperLetter("0AB1"[1]) && IsDigit("0AB1"[0]);
  }

  /** A callsign starting with 1 must go on with A, M or S. */
  lemma LeadingOneRule()
    ensures ValidateCallsign("1X1AB") == Err(BadOnePrefix)
    ensures ValidateCallsign("1A0X") == Ok("1A0X")
  {
    StripNoSpaceEnds("1X1AB");
    assert Upper("1X1AB") == "1X1AB";
    assert IsUpperLetter("1X1AB"[1]) && IsDigit("1X1AB"[0]);
    StripNoSpaceEnds("1A0X");
    assert Upper("1A0X") == "1A0X";
    assert IsUpperLetter("1A0X"[1]) && IsDigit("1A0X"[0]);
  }

  // ---------------------------------------------------------------- band plan

  /** One amateur band: `lo <= f <= hi` MHz, both edges included. */
  datatype BandRange = BandRange(lo: real, hi: real, band: string)

  /** The ranges of `_derive_band_from_freq`, in the order they are tried. */
  const BandPlan: seq<BandRange> := [
    BandRange(1.8, 2.0, "160m"),
    BandRange(3.5, 4.0, "80m"),
    BandRange(5.2, 5.5, "60m"),
    BandRange(7.0, 7.3, "40m"),
    BandRange(10.1, 10.15, "30m"),
    BandRange(14.0, 14.35, "20m"),
    BandRange(18.068, 18.168, "17m"),
    BandRange(21.0, 21.45, "15m"),
    BandRange(24.89, 24.99, "12m"),
    BandRange(28.0, 29.7, "10m"),
    BandRange(50.0, 54.0, "6m"),
    BandRange(70.0, 71.0, "4m"),
    BandRange(144.0, 148.0, "2m"),
    BandRange(222.0, 225.0, "1.25m"),
    BandRange(420.0, 450.0, "70cm"),
    BandRange(902.0, 928.0, "33cm"),
    BandRange(1240.0, 1300.0, "23cm")
  ]

  predicate InRange(r: BandRange, f: real) {
    r.lo <= f <= r.hi
  }

  /** The label of the first range of `plan` holding `f`: the loop of `_derive_band_from_freq`. */
  function FirstBand(plan: seq<BandRange>, f: real): Option<string>
  {
    if plan == [] then None
    else if InRange(plan[0], f) then Some(plan[0].band)
    else FirstBand(plan[1..], f)
  }

  /** No band is found exactly when no range holds `f`. */
  lemma {:induction false} FirstBandNone(plan: seq<BandRange>, f: real)
    ensures FirstBand(plan, f).None? <==> forall i :: 0 <= i < |plan| ==> !InRange(plan[i], f)
  {
    if plan != [] {
      FirstBandNone(plan[1..], f);
      assert forall i :: 1 <= i < |plan| ==> plan[i] == plan[1..][i - 1];
    }
  }

  /** A band found is the label of a range holding `f`, and no earlier range holds it. */
  lemma {:induction false} FirstBandSome(plan: seq<BandRange>, f: real)
    requires FirstBand(plan, f).Some?
    ensures exists i :: (0 <= i < |plan| && InRange(plan[i], f) && plan[i].band == FirstBand(plan, f).value &&
      forall j :: 0 <= j < i ==> !InRange(plan[j], f))
  {
    if !InRange(plan[0], f) {
      FirstBandSome(plan[1..], f);
      var i :| 0 <= i < |plan[1..]| && InRange(plan[1..][i], f) && plan[1..][i].band == FirstBand(plan[1..], f).value &&
        forall j :: 0 <= j < i ==> !InRange(plan[1..][j], f);
      assert InRange(plan[i + 1], f) && forall j :: 0 <= j < i + 1 ==> !InRange(plan[j], f);
    }
  }

  /** Python's truth value of an optional Decimal: present and not zero. */
  predicate FreqTruthy(f: Option<real>) {
    f.Some? && f.value != 0.0
  }

  /** `QSO._derive_band_from_freq(freq)` */
  function DeriveBand(freq: Option<real>): (r: Option<string>)
    ensures !FreqTruthy(freq) ==> r.None?
  {
    if !FreqTruthy(freq) then None else FirstBand(BandPlan, freq.value)
  }

  /** Each range is proper and ends below the next one starts. */
  lemma BandPlanAscending()
    ensures forall i :: 0 <= i < |BandPlan| ==> BandPlan[i].lo < BandPlan[i].hi
    ensures forall i :: 0 <= i < |BandPlan| - 1 ==> BandPlan[i].hi < BandPlan[i + 1].lo
  {
  }

  /** So no two ranges overlap. */
  lemma {:induction false} BandPlanDisjoint(i: int, j: int)
    requires 0 <= i < j < |BandPlan|
    ensures BandPlan[i].hi < BandPlan[j].lo
    decreases j - i
  {
    BandPlanAscending();
    if j > i + 1 {
      BandPlanDisjoint(i, j - 1);
    }
  }

  /** At most one range holds a frequency, so the first match is the only one. */
  lemma DeriveBandExact(f: real, i: int)
    requires f != 0.0 && 0 <= i < |BandPlan| && InRange(BandPlan[i], f)
    ensures DeriveBand(Some(f)) == Some(BandPlan[i].band)
  {
    FirstBandNone(BandPlan, f);
    FirstBandSome(BandPlan, f);
    var r := DeriveBand(Some(f));
    var k :| 0 <= k < |BandPlan| && InRange(BandPlan[k], f) && BandPlan[k].band == r.value &&
      forall j :: 0 <= j < k ==> !InRange(BandPlan[j], f);
    if k < i {
      BandPlanDisjoint(k, i);
    } else if i < k {
      BandPlanDisjoint(i, k);
    }
  }

  /** 14.074 MHz is on 20 m. */
  lemma DeriveBandOn20m()
    ensures DeriveBand(Some(14.074)) == Some("20m")
  {
    DeriveBandExact(14.074, 5);
  }

  /** Between the 20 m and 17 m bands no range holds a frequency. */
  lemma GapAbove20m(f: real)
    requires 14.35 < f < 18.068
    ensures forall i :: 0 <= i < |BandPlan| ==> !InRange(BandPlan[i], f)
  {
    forall i | 0 <= i < |BandPlan|
      ensures !InRange(BandPlan[i], f)
    {
      if i < 5 {
        BandPlanDisjoint(i, 5);
      } else if i > 6 {
        BandPlanDisjoint(6, i);
      }
    }
  }

  /** 14.5 MHz, above the 20 m band, is on no band; zero is no frequency. */
  lemma DeriveBandOffPlan()
    ensures DeriveBand(Some(14.5)) == None
    ensures DeriveBand(Some(0.0)) == None
  {
    GapAbove20m(14.5);
    FirstBandNone(BandPlan, 14.5);
  }

  // ---------------------------------------------------------------- clean()

  /** The columns `clean()` reads or writes; the QSO's other columns are left alone. */
  datatype QsoState = QsoState(
    callsign: string,
    stationCallsign: string,
    operator: string,
    band: string,
    freq: Option<real>,
    bandRx: string,
    freqRx: Option<real>,
    propMode: string,
    satName: string)

  /** The ValidationError `clean()` raises. */
  datatype CleanError =
    | CallsignInvalid(reason: CallsignError)
    | StationCallsignInvalid(reason: CallsignError)
    | OperatorInvalid(reason: CallsignError)
    | BandOrFreqMissing
    | BandNotDerived
    | SatNameMissing
    | SatNameNotAllowed

  /** Where `clean()` stopped (`error`) and the columns as it left them. */
  datatype CleanOutcome = CleanOutcome(error: Option<CleanError>, state: QsoState)

  /** The callsign step: validate callsign, then a non-empty station callsign, then a non-empty operator. */
  function CleanCallsigns(q: QsoState): CleanOutcome {
    match ValidateCallsign(q.callsign)
    case Err(e) => CleanOutcome(Some(CallsignInvalid(e)), q)
    case Ok(c) =>
      var q1 := q.(callsign := c);
      if q1.stationCallsign == "" then CleanOperator(q1)
      else
        match ValidateCallsign(q1.stationCallsign)
        case Err(e) => CleanOutcome(Some(StationCallsignInvalid(e)), q1)
        case Ok(s) => CleanOperator(q1.(stationCallsign := s))
  }

  function CleanOperator(q: QsoState): CleanOutcome {
    if q.operator == "" then CleanOutcome(None, q)
    else
      match ValidateCallsign(q.operator)
      case Err(e) => CleanOutcome(Some(OperatorInvalid(e)), q)
      case Ok(o) => CleanOutcome(None, q.(operator := o))
  }

  /** The band step: a missing band is derived from freq, or the QSO is refused. */
  function CleanBand(q: QsoState): CleanOutcome {
    if q.band == "" && !FreqTruthy(q.freq) then CleanOutcome(Some(BandOrFreqMissing), q)
    else if q.band == "" then
      match DeriveBand(q.freq)
      case Some(b) => CleanOutcome(None, q.(band := b))
      case None => CleanOutcome(Some(BandNotDerived), q)
    else CleanOutcome(None, q)
  }

  /** The receive band is derived when missing and derivable; this step never refuses. */
  function CleanBandRx(q: QsoState): QsoState {
    if q.bandRx == "" && FreqTruthy(q.freqRx) then
      match DeriveBand(q.freqRx)
      case Some(b) => q.(bandRx := b)
      case None => q
    else q
  }

  /** The satellite rule: PROP_MODE "SAT" (any case) needs SAT_NAME; any other mode forbids it. */
  function SatCheck(q: QsoState): Option<CleanError> {
    if Upper(q.propMode) == "SAT" then (if q.satName == "" then Some(SatNameMissing) else None)
    else if q.satName != "" then Some(SatNameNotAllowed)
    else None
  }

  /** `clean()`: each step in turn, stopping at the first ValidationError. */
  function CleanSpec(q: QsoState): CleanOutcome {
    var a := CleanCallsigns(q);
    if a.error.Some? then a else CleanAfterCallsigns(a.state)
  }

  function CleanAfterCallsigns(q: QsoState): CleanOutcome {
    var b := CleanBand(q);
    if b.error.Some? then b else CleanAfterBand(b.state)
  }

  function CleanAfterBand(q: QsoState): CleanOutcome {
    var c := CleanBandRx(q);
    match SatCheck(c)
    case Some(e) => CleanOutcome(Some(e), c)
    case None =>
      CleanOutcome(None, if c.stationCallsign == "" && c.operator != "" then c.(stationCallsign := c.operator) else c)
  }

  predicate CallsignOk(v: string) {
    v == "" || AcceptedCallsign(Upper(Strip(v)))
  }

  predicate SatConsistent(q: QsoState) {
    if Upper(q.propMode) == "SAT" then q.satName != "" else q.satName == ""
  }

  /** The spelling `_validate_callsign` gives a callsign it accepts. */
  function Normalized(v: string): string {
    if ValidateCallsign(v).Ok? then ValidateCallsign(v).value else v
  }

  /** The callsign step passes exactly when all three callsigns do, and then rewrites only them. */
  lemma CallsignsStep(q: QsoState)
    ensures CleanCallsigns(q).error.None? <==> CallsignOk(q.callsign) && CallsignOk(q.stationCallsign) && CallsignOk(q.operator)
    ensures CleanCallsigns(q).error.None? ==> (CleanCallsigns(q).state ==
      q.(callsign := Normalized(q.callsign), stationCallsign := Normalized(q.stationCallsign), operator := Normalized(q.operator)))
  {
  }

  /** The band step passes exactly when a band is given or derivable, and then writes only the band. */
  lemma BandStep(q: QsoState)
    ensures CleanBand(q).error.None? <==> q.band != "" || DeriveBand(q.freq).Some?
    ensures CleanBand(q).error.None? ==> (CleanBand(q).state ==
      q.(band := if q.band != "" then q.band else DeriveBand(q.freq).value))
  {
  }

  /** The receive band, as the band_rx step leaves it. */
  function RxBand(q: QsoState): string {
    if q.bandRx == "" && DeriveBand(q.freqRx).Some? then DeriveBand(q.freqRx).value else q.bandRx
  }

  lemma BandRxStep(q: QsoState)
    ensures CleanBandRx(q) == q.(bandRx := RxBand(q))
  {
  }

  /** `clean()` as one formula once every check has passed. */
  lemma CleanSpecPasses(q: QsoState)
    ensures var a := CleanCallsigns(q); var b := CleanBand(a.state); var c := CleanBandRx(b.state);
      CleanSpec(q).error.None? <==> a.error.None? && b.error.None? && SatCheck(c).None?
    ensures var a := CleanCallsigns(q); var b := CleanBand(a.state); var c := CleanBandRx(b.state);
      CleanSpec(q).error.None? ==>
        CleanSpec(q).state == if c.stationCallsign == "" && c.operator != "" then c.(stationCallsign := c.operator) else c
  {
  }

  /** `clean()` succeeds exactly when all three callsigns pass, a band is given or derivable, and the satellite rule holds. */
  lemma CleanAcceptsExactly(q: QsoState)
    ensures CleanSpec(q).error.None? <==>
      CallsignOk(q.callsign) && CallsignOk(q.stationCallsign) && CallsignOk(q.operator) &&
      (q.band != "" || DeriveBand(q.freq).Some?) && SatConsistent(q)
  {
    CleanSpecPasses(q);
    CallsignsStep(q);
    var a := CleanCallsigns(q);
    if a.error.None? {
      BandStep(a.state);
      var b := CleanBand(a.state);
      if b.error.None? {
        BandRxStep(b.state);
      }
    }
  }

  /** What a successful `clean()` leaves behind. */
  lemma CleanSuccess(q: QsoState)
    requires CleanSpec(q).error.None?
    ensures var s := CleanSpec(q).state;
      && s.band != ""
      && (q.band != "" ==> s.band == q.band)
      && (q.band == "" ==> DeriveBand(q.freq) == Some(s.band))
      && s.callsign == ValidateCallsign(q.callsign).value
      && s.operator == ValidateCallsign(q.operator).value
      && (q.stationCallsign != "" ==> s.stationCallsign == ValidateCallsign(q.stationCallsign).value)
      && (q.stationCallsign == "" ==> s.stationCallsign == s.operator)
      && (q.bandRx != "" ==> s.bandRx == q.bandRx)
      && (q.bandRx == "" ==> s.bandRx == (if DeriveBand(q.freqRx).Some? then DeriveBand(q.freqRx).value else ""))
      && s.freq == q.freq && s.freqRx == q.freqRx && s.propMode == q.propMode && s.satName == q.satName
  {
    CleanSpecPasses(q);
    CallsignsStep(q);
    var a := CleanCallsigns(q);
    BandStep(a.state);
    var b := CleanBand(a.state);
    BandRxStep(b.state);
    if q.band == "" {
      BandLabelsNonEmpty(q.freq);
    }
  }

  /** Whatever the receive frequency, it never decides whether `clean()` raises. */
  lemma BandRxNeverRaises(q: QsoState, x: Option<real>)
    ensures CleanSpec(q.(freqRx := x)).error == CleanSpec(q).error
  {
    var q' := q.(freqRx := x);
    CallsignsIgnoreFreqRx(q, x);
    var a, a' := CleanCallsigns(q), CleanCallsigns(q');
    if a.error.None? {
      BandIgnoresFreqRx(a.state, x);
      var b, b' := CleanBand(a.state), CleanBand(a'.state);
      if b.error.None? {
        BandRxStep(b.state);
        BandRxStep(b'.state);
        assert SatCheck(CleanBandRx(b'.state)) == SatCheck(CleanBandRx(b.state));
      }
    }
  }

  lemma CallsignsIgnoreFreqRx(q: QsoState, x: Option<real>)
    ensures CleanCallsigns(q.(freqRx := x)) == CleanOutcome(CleanCallsigns(q).error, CleanCallsigns(q).state.(freqRx := x))
  {
  }

  lemma BandIgnoresFreqRx(q: QsoState, x: Option<real>)
    ensures CleanBand(q.(freqRx := x)) == CleanOutcome(CleanBand(q).error, CleanBand(q).state.(freqRx := x))
  {
  }

  /** Cleaning a cleaned QSO changes nothing. */
  lemma CleanIdempotent(q: QsoState)
    requires CleanSpec(q).error.None?
    ensures CleanSpec(CleanSpec(q).state) == CleanOutcome(None, CleanSpec(q).state)
  {
    var s := CleanSpec(q).state;
    CleanSuccess(q);
    CleanAcceptsExactly(q);
    CallsignIdempotent(q.callsign);
    CallsignIdempotent(q.operator);
    if q.stationCallsign != "" {
      CallsignIdempotent(q.stationCallsign);
    }
    if q.bandRx == "" && DeriveBand(q.freqRx).Some? {
      BandLabelsNonEmpty(q.freqRx);
    }
    CleanSpecPasses(s);
    CallsignsStep(s);
    var a := CleanCallsigns(s);
    assert a.state == s;
    BandStep(s);
    BandRxStep(s);
  }

  lemma BandLabelsNonEmpty(f: Option<real>)
    requires DeriveBand(f).Some?
    ensures DeriveBand(f).value != ""
  {
    FirstBandSome(BandPlan, f.value);
    BandPlanLabels();
  }

  lemma BandPlanLabels()
    ensures forall i :: 0 <= i < |BandPlan| ==> BandPlan[i].band != ""
  {
  }

  lemma PlainCallsignAccepted(v: string)
    requires 3 <= |v| <= 20 && forall i :: 0 <= i < |v| ==> IsUpperLetter(v[i]) || IsDigit(v[i])
    requires IsUpperLetter(v[0]) && IsDigit(v[1])
    ensures ValidateCallsign(v) == Ok(v)
  {
    StripNoSpaceEnds(v);
    assert Upper(v) == v;
  }

  /** tests/test_qso_validation.py: a QSO with only a frequency of 14.074 MHz is filed on 20 m. */
  lemma BandDerivedExample()
    ensures var q := QsoState("K1ABC", "", "", "", Some(14.074), "", None, "", "");
      CleanSpec(q).error.None? && CleanSpec(q).state.band == "20m"
  {
    var q := QsoState("K1ABC", "", "", "", Some(14.074), "", None, "", "");
    PlainCallsignAccepted("K1ABC");
    DeriveBandOn20m();
    assert Upper("") != "SAT";
    CleanAcceptsExactly(q);
    CleanSuccess(q);
  }

  /** tests/test_qso_validation.py: PROP_MODE "SAT" without SAT_NAME is refused. */
  lemma SatelliteExample()
    ensures CleanSpec(QsoState("F4JAW", "", "", "2m", None, "", None, "SAT", "")).error == Some(SatNameMissing)
  {
    var q := QsoState("F4JAW", "", "", "2m", None, "", None, "SAT", "");
    PlainCallsignAccepted("F4JAW");
    assert Upper("SAT") == "SAT";
    CallsignsStep(q);
    BandStep(CleanCallsigns(q).state);
  }

  /** tests/test_qso_validation.py: "/BAD/" is refused before anything else is looked at. */
  lemma BadCallsignExample()
    ensures CleanSpec(QsoState("/BAD/", "", "", "20m", None, "", None, "", "")).error == Some(CallsignInvalid(SlashAtEnd))
  {
    SlashedCallsignRejected();
  }

  /** A QSO's columns as `clean()` sees them, updated in place. */
  class Qso {
    var callsign: string
    var stationCallsign: string
    var operator: string
    var band: string
    var freq: Option<real>
    var bandRx: string
    var freqRx: Option<real>
    var propMode: string
    var satName: string

    function State(): QsoState
      reads this
    {
      QsoState(callsign, stationCallsign, operator, band, freq, bandRx, freqRx, propMode, satName)
    }

    constructor (s: QsoState)
      ensures State() == s
    {
      callsign, stationCallsign, operator := s.callsign, s.stationCallsign, s.operator;
      band, freq, bandRx, freqRx := s.band, s.freq, s.bandRx, s.freqRx;
      propMode, satName := s.propMode, s.satName;
    }

    /** `QSO.clean()`: `err` is the ValidationError raised, if any; the columns keep what was assigned before it. */
    method Clean() returns (err: Option<CleanError>)
      modifies this
      ensures CleanOutcome(err, State()) == CleanSpec(old(State()))
    {
      err := NormalizeCallsigns();
      if err.Some? {
        return;
      }
      err := RequireBand();
      if err.Some? {
        return;
      }
      DeriveBandRx();
      err := CheckSatellite();
      if err.Some? {
        return;
      }
      if stationCallsign == "" && operator != "" {
        stationCallsign := operator;
      }
    }

    /** The first part of `clean()`: normalize and validate the three callsigns. */
    method NormalizeCallsigns() returns (err: Option<CleanError>)
      modifies this
      ensures CleanOutcome(err, State()) == CleanCallsigns(old(State()))
    {
      var r := ValidateCallsign(callsign);
      if r.Err? {
        return Some(CallsignInvalid(r.error));
      }
      callsign := r.value;
      if stationCallsign != "" {
        r := ValidateCallsign(stationCallsign);
        if r.Err? {
          return Some(StationCallsignInvalid(r.error));
        }
        stationCallsign := r.value;
      }
      if operator != "" {
        r := ValidateCallsign(operator);
        if r.Err? {
          return Some(OperatorInvalid(r.error));
        }
        operator := r.value;
      }
      err := None;
    }

    /** BAND/FREQ presence and derivation. */
    method RequireBand() returns (err: Option<CleanError>)
      modifies this
      ensures CleanOutcome(err, State()) == CleanBand(old(State()))
    {
      if band == "" && !FreqTruthy(freq) {
        return Some(BandOrFreqMissing);
      }
      if band == "" && FreqTruthy(freq) {
        var derived := DeriveBand(freq);
        if derived.Some? {
          band := derived.value;
        } else {
          return Some(BandNotDerived);
        }
      }
      err := None;
    }

    /** band_rx is derived from freq_rx when missing; this never raises. */
    method DeriveBandRx()
      modifies this
      ensures State() == CleanBandRx(old(State()))
    {
      if bandRx == "" && FreqTruthy(freqRx) {
        var drx := DeriveBand(freqRx);
        if drx.Some? {
          bandRx := drx.value;
        }
      }
    }

    /** The propagation/satellite constraint; changes nothing. */
    method CheckSatellite() returns (err: Option<CleanError>)
      ensures err == SatCheck(State())
    {
      if Upper(propMode) == "SAT" {
        if satName == "" {
          return Some(SatNameMissing);
        }
      } else if satName != "" {
        return Some(SatNameNotAllowed);
      }
      err := None;
    }
  }
}
