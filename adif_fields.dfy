/**
 * The columns of CORE_MAP in logbook/adif_fields.py: each column's ADIF tag,
 * attribute name and caster, and the lookups from a tag or a name back to
 * its column.
 */
module CoreColumns {
  import opened Wrappers

  /** The core columns of a log entry. */
  datatype Field =
    | Callsign | QsoDate | TimeOn | QsoDateOff | TimeOff | Band | Freq | BandRx | FreqRx
    | Mode | Submode | PropMode | SatName | StationCallsign | Operator | RstRcvd | RstSent
    | Srx | SrxString | Stx | StxString | Gridsquare | Sig | SigInfo | MySig | MySigInfo
    | SotaRef | MySotaRef | Name | TxPwr | Country | Dxcc | Iota | CqZone | ItuZone | MyDxcc
    | MyState | MyCnty | MyGridsquare | MyVuccGrids | MyCqZone | MyItuZone | MyName
    | LotwQslRcvd | LotwQslRcvdDate | LotwQslSent | LotwQslSentDate | Notes

  const AllFields: set<Field> := {
    Callsign, QsoDate, TimeOn, QsoDateOff, TimeOff, Band, Freq, BandRx, FreqRx,
    Mode, Submode, PropMode, SatName, StationCallsign, Operator, RstRcvd, RstSent,
    Srx, SrxString, Stx, StxString, Gridsquare, Sig, SigInfo, MySig, MySigInfo,
    SotaRef, MySotaRef, Name, TxPwr, Country, Dxcc, Iota, CqZone, ItuZone, MyDxcc,
    MyState, MyCnty, MyGridsquare, MyVuccGrids, MyCqZone, MyItuZone, MyName,
    LotwQslRcvd, LotwQslRcvdDate, LotwQslSent, LotwQslSentDate, Notes
  }

  lemma AllFieldsComplete(f: Field)
    ensures f in AllFields
  {
  }

  /** The model attribute name of a core column. */
  function FieldName(f: Field): string {
    match f
    case Callsign => "callsign"
    case QsoDate => "qso_date"
    case TimeOn => "time_on"
    case QsoDateOff => "qso_date_off"
    case TimeOff => "time_off"
    case Band => "band"
    case Freq => "freq"
    case BandRx => "band_rx"
    case FreqRx => "freq_rx"
    case Mode => "mode"
    case Submode => "submode"
    case PropMode => "prop_mode"
    case SatName => "sat_name"
    case StationCallsign => "station_callsign"
    case Operator => "operator"
    case RstRcvd => "rst_rcvd"
    case RstSent => "rst_sent"
    case Srx => "srx"
    case SrxString => "srx_string"
    case Stx => "stx"
    case StxString => "stx_string"
    case Gridsquare => "gridsquare"
    case Sig => "sig"
    case SigInfo => "sig_info"
    case MySig => "my_sig"
    case MySigInfo => "my_sig_info"
    case SotaRef => "sota_ref"
    case MySotaRef => "my_sota_ref"
    case Name => "name"
    case TxPwr => "tx_pwr"
    case Country => "country"
    case Dxcc => "dxcc"
    case Iota => "iota"
    case CqZone => "cq_zone"
    case ItuZone => "itu_zone"
    case MyDxcc => "my_dxcc"
    case MyState => "my_state"
    case MyCnty => "my_cnty"
    case MyGridsquare => "my_gridsquare"
    case MyVuccGrids => "my_vucc_grids"
    case MyCqZone => "my_cq_zone"
    case MyItuZone => "my_itu_zone"
    case MyName => "my_name"
    case LotwQslRcvd => "lotw_qsl_rcvd"
    case LotwQslRcvdDate => "lotw_qsl_rcvd_date"
    case LotwQslSent => "lotw_qsl_sent"
    case LotwQslSentDate => "lotw_qsl_sent_date"
    case Notes => "notes"
  }

  /** The ADIF tag that CORE_MAP sends to a column: the inverse of the table. */
  function TagOf(f: Field): string {
    match f
    case Callsign => "CALL"
    case QsoDate => "QSO_DATE"
    case TimeOn => "TIME_ON"
    case QsoDateOff => "QSO_DATE_OFF"
    case TimeOff => "TIME_OFF"
    case Band => "BAND"
    case Freq => "FREQ"
    case BandRx => "BAND_RX"
    case FreqRx => "FREQ_RX"
    case Mode => "MODE"
    case Submode => "SUBMODE"
    case PropMode => "PROP_MODE"
    case SatName => "SAT_NAME"
    case StationCallsign => "STATION_CALLSIGN"
    case Operator => "OPERATOR"
    case RstRcvd => "RST_RCVD"
    case RstSent => "RST_SENT"
    case Srx => "SRX"
    case SrxString => "SRX_STRING"
    case Stx => "STX"
    case StxString => "STX_STRING"
    case Gridsquare => "GRIDSQUARE"
    case Sig => "SIG"
    case SigInfo => "SIG_INFO"
    case MySig => "MY_SIG"
    case MySigInfo => "MY_SIG_INFO"
    case SotaRef => "SOTA_REF"
    case MySotaRef => "MY_SOTA_REF"
    case Name => "NAME"
    case TxPwr => "TX_PWR"
    case Country => "COUNTRY"
    case Dxcc => "DXCC"
    case Iota => "IOTA"
    case CqZone => "CQZ"
    case ItuZone => "ITUZ"
    case MyDxcc => "MY_DXCC"
    case MyState => "MY_STATE"
    case MyCnty => "MY_CNTY"
    case MyGridsquare => "MY_GRIDSQUARE"
    case MyVuccGrids => "MY_VUCC_GRIDS"
    case MyCqZone => "MY_CQ_ZONE"
    case MyItuZone => "MY_ITU_ZONE"
    case MyName => "MY_NAME"
    case LotwQslRcvd => "LOTW_QSL_RCVD"
    case LotwQslRcvdDate => "LOTW_QSLRDATE"
    case LotwQslSent => "LOTW_QSL_SENT"
    case LotwQslSentDate => "LOTW_QSLSDATE"
    case Notes => "NOTES"
  }

  /** `_to_date`, `_to_time`, `Decimal`, `int`, or none (the raw string is stored). */
  datatype Caster = NoCast | DateCaster | TimeCaster | DecimalCaster | IntCaster

  /** The caster CORE_MAP pairs with each column. */
  function CasterOf(f: Field): Caster {
    match f
    case Callsign => NoCast
    case QsoDate => DateCaster
    case TimeOn => TimeCaster
    case QsoDateOff => DateCaster
    case TimeOff => TimeCaster
    case Band => NoCast
    case Freq => DecimalCaster
    case BandRx => NoCast
    case FreqRx => DecimalCaster
    case Mode => NoCast
    case Submode => NoCast
    case PropMode => NoCast
    case SatName => NoCast
    case StationCallsign => NoCast
    case Operator => NoCast
    case RstRcvd => NoCast
    case RstSent => NoCast
    case Srx => IntCaster
    case SrxString => NoCast
    case Stx => IntCaster
    case StxString => NoCast
    case Gridsquare => NoCast
    case Sig => NoCast
    case SigInfo => NoCast
    case MySig => NoCast
    case MySigInfo => NoCast
    case SotaRef => NoCast
    case MySotaRef => NoCast
    case Name => NoCast
    case TxPwr => DecimalCaster
    case Country => NoCast
    case Dxcc => IntCaster
    case Iota => NoCast
    case CqZone => IntCaster
    case ItuZone => IntCaster
    case MyDxcc => IntCaster
    case MyState => NoCast
    case MyCnty => NoCast
    case MyGridsquare => NoCast
    case MyVuccGrids => NoCast
    case MyCqZone => IntCaster
    case MyItuZone => IntCaster
    case MyName => NoCast
    case LotwQslRcvd => NoCast
    case LotwQslRcvdDate => DateCaster
    case LotwQslSent => NoCast
    case LotwQslSentDate => DateCaster
    case Notes => NoCast
  }

  /**
   * `CORE_MAP.get(tag)`: the column a tag is stored in, if the tag is a core
   * tag. The table is searched among the tags of the same length.
   */
  function FieldOfTag(tag: string): (r: Option<Field>)
    ensures r.Some? ==> TagOf(r.value) == tag
  {
    match |tag|
    case 3 => CoreTagOfLength3(tag)
    case 4 => CoreTagOfLength4(tag)
    case 5 => CoreTagOfLength5(tag)
    case 6 => CoreTagOfLength6(tag)
    case 7 => CoreTagOfLength7(tag)
    case 8 => CoreTagOfLength8(tag)
    case 9 => CoreTagOfLength9(tag)
    case 10 => CoreTagOfLength10(tag)
    case 11 => CoreTagOfLength11(tag)
    case 12 => CoreTagOfLength12(tag)
    case 13 => CoreTagOfLength13(tag)
    case 16 => CoreTagOfLength16(tag)
    case _ => None
  }

  function CoreTagOfLength3(tag: string): (r: Option<Field>)
    ensures r.Some? ==> TagOf(r.value) == tag
  {
    match tag
    case "SRX" => Some(Srx)
    case "STX" => Some(Stx)
    case "SIG" => Some(Sig)
    case "CQZ" => Some(CqZone)
    case _ => None
  }

  function CoreTagOfLength4(tag: string): (r: Option<Field>)
    ensures r.Some? ==> TagOf(r.value) == tag
  {
    match tag
    case "CALL" => Some(Callsign)
    case "BAND" => Some(Band)
    case "FREQ" => Some(Freq)
    case "MODE" => Some(Mode)
    case "NAME" => Some(Name)
    case "DXCC" => Some(Dxcc)
    case "IOTA" => Some(Iota)
    case "ITUZ" => Some(ItuZone)
    case _ => None
  }

  function CoreTagOfLength5(tag: string): (r: Option<Field>)
    ensures r.Some? ==> TagOf(r.value) == tag
  {
    match tag
    case "NOTES" => Some(Notes)
    case _ => None
  }

  function CoreTagOfLength6(tag: string): (r: Option<Field>)
    ensures r.Some? ==> TagOf(r.value) == tag
  {
    match tag
    case "MY_SIG" => Some(MySig)
    case "TX_PWR" => Some(TxPwr)
    case _ => None
  }

  function CoreTagOfLength7(tag: string): (r: Option<Field>)
    ensures r.Some? ==> TagOf(r.value) == tag
  {
    match tag
    case "TIME_ON" => Some(TimeOn)
    case "BAND_RX" => Some(BandRx)
    case "FREQ_RX" => Some(FreqRx)
    case "SUBMODE" => Some(Submode)
    case "COUNTRY" => Some(Country)
    case "MY_DXCC" => Some(MyDxcc)
    case "MY_CNTY" => Some(MyCnty)
    case "MY_NAME" => Some(MyName)
    case _ => None
  }

  function CoreTagOfLength8(tag: string): (r: Option<Field>)
    ensures r.Some? ==> TagOf(r.value) == tag
  {
    match tag
    case "QSO_DATE" => Some(QsoDate)
    case "TIME_OFF" => Some(TimeOff)
    case "SAT_NAME" => Some(SatName)
    case "OPERATOR" => Some(Operator)
    case "RST_RCVD" => Some(RstRcvd)
    case "RST_SENT" => Some(RstSent)
    case "SIG_INFO" => Some(SigInfo)
    case "SOTA_REF" => Some(SotaRef)
    case "MY_STATE" => Some(MyState)
    case _ => None
  }

  function CoreTagOfLength9(tag: string): (r: Option<Field>)
    ensures r.Some? ==> TagOf(r.value) == tag
  {
    match tag
    case "PROP_MODE" => Some(PropMode)
    case _ => None
  }

  function CoreTagOfLength10(tag: string): (r: Option<Field>)
    ensures r.Some? ==> TagOf(r.value) == tag
  {
    match tag
    case "SRX_STRING" => Some(SrxString)
    case "STX_STRING" => Some(StxString)
    case "GRIDSQUARE" => Some(Gridsquare)
    case "MY_CQ_ZONE" => Some(MyCqZone)
    case _ => None
  }

  function CoreTagOfLength11(tag: string): (r: Option<Field>)
    ensures r.Some? ==> TagOf(r.value) == tag
  {
    match tag
    case "MY_SIG_INFO" => Some(MySigInfo)
    case "MY_SOTA_REF" => Some(MySotaRef)
    case "MY_ITU_ZONE" => Some(MyItuZone)
    case _ => None
  }

  function CoreTagOfLength12(tag: string): (r: Option<Field>)
    ensures r.Some? ==> TagOf(r.value) == tag
  {
    match tag
    case "QSO_DATE_OFF" => Some(QsoDateOff)
    case _ => None
  }

  function CoreTagOfLength13(tag: string): (r: Option<Field>)
    ensures r.Some? ==> TagOf(r.value) == tag
  {
    match tag
    case "MY_GRIDSQUARE" => Some(MyGridsquare)
    case "MY_VUCC_GRIDS" => Some(MyVuccGrids)
    case _ => LotwTag(tag)
  }

  /** The four LoTW tags, all 13 characters long. */
  function LotwTag(tag: string): (r: Option<Field>)
    ensures r.Some? ==> TagOf(r.value) == tag
  {
    match tag
    case "LOTW_QSL_RCVD" => Some(LotwQslRcvd)
    case "LOTW_QSLRDATE" => Some(LotwQslRcvdDate)
    case "LOTW_QSL_SENT" => Some(LotwQslSent)
    case "LOTW_QSLSDATE" => Some(LotwQslSentDate)
    case _ => None
  }


  function CoreTagOfLength16(tag: string): (r: Option<Field>)
    ensures r.Some? ==> TagOf(r.value) == tag
  {
    match tag
    case "STATION_CALLSIGN" => Some(StationCallsign)
    case _ => None
  }

  /** The column with attribute name `n`, if any. */
  ghost function FieldOfName(n: string): Option<Field> {
    match |n|
    case 3 =>
      (match n
      case "srx" => Some(Srx)
      case "stx" => Some(Stx)
      case "sig" => Some(Sig)
      case _ => None)
    case 4 =>
      (match n
      case "band" => Some(Band)
      case "freq" => Some(Freq)
      case "mode" => Some(Mode)
      case "name" => Some(Name)
      case "dxcc" => Some(Dxcc)
      case "iota" => Some(Iota)
      case _ => None)
    case 5 =>
      (match n
      case "notes" => Some(Notes)
      case _ => None)
    case 6 =>
      (match n
      case "my_sig" => Some(MySig)
      case "tx_pwr" => Some(TxPwr)
      case _ => None)
    case 7 =>
      (match n
      case "time_on" => Some(TimeOn)
      case "band_rx" => Some(BandRx)
      case "freq_rx" => Some(FreqRx)
      case "submode" => Some(Submode)
      case "country" => Some(Country)
      case "cq_zone" => Some(CqZone)
      case "my_dxcc" => Some(MyDxcc)
      case "my_cnty" => Some(MyCnty)
      case "my_name" => Some(MyName)
      case _ => None)
    case 8 =>
      (match n
      case "callsign" => Some(Callsign)
      case "qso_date" => Some(QsoDate)
      case "time_off" => Some(TimeOff)
      case "sat_name" => Some(SatName)
      case "operator" => Some(Operator)
      case "rst_rcvd" => Some(RstRcvd)
      case "rst_sent" => Some(RstSent)
      case "sig_info" => Some(SigInfo)
      case "sota_ref" => Some(SotaRef)
      case "itu_zone" => Some(ItuZone)
      case "my_state" => Some(MyState)
      case _ => None)
    case 9 =>
      (match n
      case "prop_mode" => Some(PropMode)
      case _ => None)
    case 10 =>
      (match n
      case "srx_string" => Some(SrxString)
      case "stx_string" => Some(StxString)
      case "gridsquare" => Some(Gridsquare)
      case "my_cq_zone" => Some(MyCqZone)
      case _ => None)
    case 11 =>
      (match n
      case "my_sig_info" => Some(MySigInfo)
      case "my_sota_ref" => Some(MySotaRef)
      case "my_itu_zone" => Some(MyItuZone)
      case _ => None)
    case 12 =>
      (match n
      case "qso_date_off" => Some(QsoDateOff)
      case _ => None)
    case 13 =>
      (match n
      case "my_gridsquare" => Some(MyGridsquare)
      case "my_vucc_grids" => Some(MyVuccGrids)
      case "lotw_qsl_rcvd" => Some(LotwQslRcvd)
      case "lotw_qsl_sent" => Some(LotwQslSent)
      case _ => None)
    case 16 =>
      (match n
      case "station_callsign" => Some(StationCallsign)
      case _ => None)
    case 18 =>
      (match n
      case "lotw_qsl_rcvd_date" => Some(LotwQslRcvdDate)
      case "lotw_qsl_sent_date" => Some(LotwQslSentDate)
      case _ => None)
    case _ => None
  }

  /** Every column is found again from its own tag, so no two columns share a tag. */
  lemma TagRoundTrip(f: Field)
    ensures FieldOfTag(TagOf(f)) == Some(f)
  {
    match f
    case Callsign | QsoDate | TimeOn | QsoDateOff | TimeOff | Band => TagsRoundTrip0(f);
    case Freq | BandRx | FreqRx | Mode | Submode | PropMode => TagsRoundTrip1(f);
    case SatName | StationCallsign | Operator | RstRcvd | RstSent | Srx => TagsRoundTrip2(f);
    case SrxString | Stx | StxString | Gridsquare | Sig | SigInfo => TagsRoundTrip3(f);
    case MySig | MySigInfo | SotaRef | MySotaRef | Name | TxPwr => TagsRoundTrip4(f);
    case Country | Dxcc | Iota | CqZone | ItuZone | MyDxcc => TagsRoundTrip5(f);
    case MyState | MyCnty | MyGridsquare | MyVuccGrids | MyCqZone | MyItuZone => TagsRoundTrip6(f);
    case MyName | LotwQslRcvd | LotwQslRcvdDate | LotwQslSent | LotwQslSentDate | Notes => TagsRoundTrip7(f);
  }

  /** Distinct columns have distinct tags. */
  lemma TagInjective(f: Field, g: Field)
    requires TagOf(f) == TagOf(g)
    ensures f == g
  {
    TagRoundTrip(f);
    TagRoundTrip(g);
  }

  // The table is checked six columns at a time, in CORE_MAP's order.

  lemma TagsRoundTrip0(f: Field)
    requires f in {Callsign, QsoDate, TimeOn, QsoDateOff, TimeOff, Band}
    ensures FieldOfTag(TagOf(f)) == Some(f)
  {
  }

  lemma TagsRoundTrip1(f: Field)
    requires f in {Freq, BandRx, FreqRx, Mode, Submode, PropMode}
    ensures FieldOfTag(TagOf(f)) == Some(f)
  {
  }

  lemma TagsRoundTrip2(f: Field)
    requires f in {SatName, StationCallsign, Operator, RstRcvd, RstSent, Srx}
    ensures FieldOfTag(TagOf(f)) == Some(f)
  {
  }

  lemma TagsRoundTrip3(f: Field)
    requires f in {SrxString, Stx, StxString, Gridsquare, Sig, SigInfo}
    ensures FieldOfTag(TagOf(f)) == Some(f)
  {
  }

  lemma TagsRoundTrip4(f: Field)
    requires f in {MySig, MySigInfo, SotaRef, MySotaRef, Name, TxPwr}
    ensures FieldOfTag(TagOf(f)) == Some(f)
  {
  }

  lemma TagsRoundTrip5(f: Field)
    requires f in {Country, Dxcc, Iota, CqZone, ItuZone, MyDxcc}
    ensures FieldOfTag(TagOf(f)) == Some(f)
  {
  }

  lemma TagsRoundTrip6(f: Field)
    requires f in {MyState, MyCnty, MyGridsquare, MyVuccGrids, MyCqZone, MyItuZone}
    ensures FieldOfTag(TagOf(f)) == Some(f)
  {
  }

  lemma TagsRoundTrip7(f: Field)
    requires f in {MyName, LotwQslRcvd, LotwQslRcvdDate, LotwQslSent, LotwQslSentDate, Notes}
    ensures FieldOfTag(TagOf(f)) == Some(f)
  {
  }

  /** Every column is found again from its own name, so no two columns share a name. */
  lemma NameRoundTrip(f: Field)
    ensures FieldOfName(FieldName(f)) == Some(f)
  {
    match f
    case Callsign | QsoDate | TimeOn | QsoDateOff | TimeOff | Band => NamesRoundTrip0(f);
    case Freq | BandRx | FreqRx | Mode | Submode | PropMode => NamesRoundTrip1(f);
    case SatName | StationCallsign | Operator | RstRcvd | RstSent | Srx => NamesRoundTrip2(f);
    case SrxString | Stx | StxString | Gridsquare | Sig | SigInfo => NamesRoundTrip3(f);
    case MySig | MySigInfo | SotaRef | MySotaRef | Name | TxPwr => NamesRoundTrip4(f);
    case Country | Dxcc | Iota | CqZone | ItuZone | MyDxcc => NamesRoundTrip5(f);
    case MyState | MyCnty | MyGridsquare | MyVuccGrids | MyCqZone | MyItuZone => NamesRoundTrip6(f);
    case MyName | LotwQslRcvd | LotwQslRcvdDate | LotwQslSent | LotwQslSentDate | Notes => NamesRoundTrip7(f);
  }

  lemma NamesRoundTrip0(f: Field)
    requires f in {Callsign, QsoDate, TimeOn, QsoDateOff, TimeOff, Band}
    ensures FieldOfName(FieldName(f)) == Some(f)
  {
  }

  lemma NamesRoundTrip1(f: Field)
    requires f in {Freq, BandRx, FreqRx, Mode, Submode, PropMode}
    ensures FieldOfName(FieldName(f)) == Some(f)
  {
  }

  lemma NamesRoundTrip2(f: Field)
    requires f in {SatName, StationCallsign, Operator, RstRcvd, RstSent, Srx}
    ensures FieldOfName(FieldName(f)) == Some(f)
  {
  }

  lemma NamesRoundTrip3(f: Field)
    requires f in {SrxString, Stx, StxString, Gridsquare, Sig, SigInfo}
    ensures FieldOfName(FieldName(f)) == Some(f)
  {
  }

  lemma NamesRoundTrip4(f: Field)
    requires f in {MySig, MySigInfo, SotaRef, MySotaRef, Name, TxPwr}
    ensures FieldOfName(FieldName(f)) == Some(f)
  {
  }

  lemma NamesRoundTrip5(f: Field)
    requires f in {Country, Dxcc, Iota, CqZone, ItuZone, MyDxcc}
    ensures FieldOfName(FieldName(f)) == Some(f)
  {
  }

  lemma NamesRoundTrip6(f: Field)
    requires f in {MyState, MyCnty, MyGridsquare, MyVuccGrids, MyCqZone, MyItuZone}
    ensures FieldOfName(FieldName(f)) == Some(f)
  {
  }

  lemma NamesRoundTrip7(f: Field)
    requires f in {MyName, LotwQslRcvd, LotwQslRcvdDate, LotwQslSent, LotwQslSentDate, Notes}
    ensures FieldOfName(FieldName(f)) == Some(f)
  {
  }

}

/**
 * CORE_MAP itself (ADIF tag -> core column and caster), CORE_TAGS,
 * CORE_FIELD_NAMES, and the casters `_to_date` and `_to_time`. Every tag
 * outside CORE_MAP is an "extra".
 */
module AdifFields {
  import opened Wrappers
  import opened Text
  import opened Calendar
  import opened CoreColumns

  datatype CoreSpec = CoreSpec(field: Field, caster: Caster)

  /** `CORE_MAP[tag]` for a core tag. */
  function CoreEntry(tag: string): (r: Option<CoreSpec>)
    ensures r.Some? <==> FieldOfTag(tag).Some?
    ensures r.Some? ==> TagOf(r.value.field) == tag && r.value.caster == CasterOf(r.value.field)
  {
    match FieldOfTag(tag)
    case None => None
    case Some(f) => Some(CoreSpec(f, CasterOf(f)))
  }

  /** CORE_MAP as a dict: every core tag with its column and caster. */
  const CoreMap: map<string, CoreSpec> := map t | t in CoreTags() && CoreEntry(t).Some? :: CoreEntry(t).value

  /** The dict and the lookup agree on every tag. */
  lemma CoreMapLookup(t: string)
    ensures t in CoreMap <==> CoreEntry(t).Some?
    ensures t in CoreMap ==> CoreMap[t] == CoreEntry(t).value
  {
    CoreTagsAreKeys(t);
  }

  /** Each entry of the dict names a column whose tag is the entry's key and whose caster is the column's. */
  lemma CoreMapShape(t: string)
    requires t in CoreMap
    ensures TagOf(CoreMap[t].field) == t && CoreMap[t].caster == CasterOf(CoreMap[t].field)
  {
    CoreMapLookup(t);
  }

  /** The three entries `parse_adif_to_staged` requires. */
  lemma RequiredEntries()
    ensures "CALL" in CoreMap && CoreMap["CALL"] == CoreSpec(Callsign, NoCast)
    ensures "QSO_DATE" in CoreMap && CoreMap["QSO_DATE"] == CoreSpec(QsoDate, DateCaster)
    ensures "TIME_ON" in CoreMap && CoreMap["TIME_ON"] == CoreSpec(TimeOn, TimeCaster)
  {
    CoreMapLookup("CALL");
    CoreMapLookup("QSO_DATE");
    CoreMapLookup("TIME_ON");
  }

  /** A caster as CORE_MAP holds it: a function from the raw text to its outcome. */
  type CasterFn = string -> CastOutcome

  /** A CORE_MAP entry as `parse_adif_to_staged` uses it: the column to fill and the caster to call. */
  datatype Column<K> = Column(field: K, cast: CasterFn)

  /**
   * A table of that shape that agrees with CORE_MAP: every entry's key is
   * its column's tag, its caster is the column's, and every column has an
   * entry.
   */
  ghost predicate CoreTableShape(table: map<string, Column<Field>>) {
    && (forall t :: t in table ==> TagOf(table[t].field) == t)
    && (forall t, v :: t in table ==> table[t].cast(v) == ApplyCaster(CasterOf(table[t].field), v))
    && (forall f :: TagOf(f) in table)
  }

  /** CORE_MAP with each caster as a function. */
  const CoreTable: map<string, Column<Field>> :=
    map t | t in CoreMap :: Column(CoreMap[t].field, (v: string) => ApplyCaster(CoreMap[t].caster, v))

  lemma CoreTableHasShape()
    ensures CoreTableShape(CoreTable)
  {
    forall t | t in CoreTable
      ensures TagOf(CoreTable[t].field) == t
    {
      CoreMapShape(t);
    }
    forall t, v | t in CoreTable
      ensures CoreTable[t].cast(v) == ApplyCaster(CasterOf(CoreTable[t].field), v)
    {
      CoreMapShape(t);
    }
    forall f
      ensures TagOf(f) in CoreTable
    {
      TagRoundTrip(f);
      CoreMapLookup(TagOf(f));
    }
  }

  /** The three entries `parse_adif_to_staged` requires, each with its column and caster. */
  ghost predicate HasRequiredEntries(table: map<string, Column<Field>>) {
    && "CALL" in table && table["CALL"].field == Callsign
    && (forall v :: table["CALL"].cast(v) == ApplyCaster(NoCast, v))
    && "QSO_DATE" in table && table["QSO_DATE"].field == QsoDate
    && (forall v :: table["QSO_DATE"].cast(v) == ApplyCaster(DateCaster, v))
    && "TIME_ON" in table && table["TIME_ON"].field == TimeOn
    && (forall v :: table["TIME_ON"].cast(v) == ApplyCaster(TimeCaster, v))
  }

  lemma CoreTableRequired()
    ensures HasRequiredEntries(CoreTable)
  {
    RequiredEntries();
  }

  /** CORE_TAGS */
  function CoreTags(): set<string> {
    set f: Field | f in AllFields :: TagOf(f)
  }

  /** CORE_FIELD_NAMES */
  function CoreFieldNames(): set<string> {
    set f: Field | f in AllFields :: FieldName(f)
  }

  /** CORE_TAGS holds exactly the tags CORE_MAP has an entry for. */
  lemma CoreTagsAreKeys(tag: string)
    ensures tag in CoreTags() <==> CoreEntry(tag).Some?
  {
    if tag in CoreTags() {
      var f :| f in AllFields && TagOf(f) == tag;
      TagRoundTrip(f);
    }
    if CoreEntry(tag).Some? {
      AllFieldsComplete(FieldOfTag(tag).value);
    }
  }

  /** CORE_FIELD_NAMES holds exactly the column names CORE_MAP's entries name. */
  lemma CoreFieldNamesAreTargets(n: string)
    ensures n in CoreFieldNames() <==> exists t: string :: CoreEntry(t).Some? && FieldName(CoreEntry(t).value.field) == n
  {
    if n in CoreFieldNames() {
      var f :| f in AllFields && FieldName(f) == n;
      TagRoundTrip(f);
      assert CoreEntry(TagOf(f)).Some? && FieldName(CoreEntry(TagOf(f)).value.field) == n;
    }
    if exists t: string :: CoreEntry(t).Some? && FieldName(CoreEntry(t).value.field) == n {
      var t: string :| CoreEntry(t).Some? && FieldName(CoreEntry(t).value.field) == n;
      AllFieldsComplete(CoreEntry(t).value.field);
    }
  }

  /** No two core tags write the same column, nor two columns with the same name. */
  lemma CoreEntriesDistinct(t1: string, t2: string)
    requires CoreEntry(t1).Some? && CoreEntry(t2).Some? && t1 != t2
    ensures CoreEntry(t1).value.field != CoreEntry(t2).value.field
    ensures FieldName(CoreEntry(t1).value.field) != FieldName(CoreEntry(t2).value.field)
  {
    NameRoundTrip(CoreEntry(t1).value.field);
    NameRoundTrip(CoreEntry(t2).value.field);
  }

  /** Five tags are stored under a column whose name is not the lower-cased tag. */
  lemma RenamedTags()
    ensures CoreEntry("CALL") == Some(CoreSpec(Callsign, NoCast)) && FieldName(Callsign) == "callsign"
    ensures CoreEntry("CQZ") == Some(CoreSpec(CqZone, IntCaster)) && FieldName(CqZone) == "cq_zone"
    ensures CoreEntry("ITUZ") == Some(CoreSpec(ItuZone, IntCaster)) && FieldName(ItuZone) == "itu_zone"
  {
  }

  /** The LoTW confirmation dates are the other two renamed tags. */
  lemma RenamedQslDates()
    ensures CoreEntry("LOTW_QSLRDATE") == Some(CoreSpec(LotwQslRcvdDate, DateCaster))
    ensures FieldName(LotwQslRcvdDate) == "lotw_qsl_rcvd_date"
    ensures CoreEntry("LOTW_QSLSDATE") == Some(CoreSpec(LotwQslSentDate, DateCaster))
    ensures FieldName(LotwQslSentDate) == "lotw_qsl_sent_date"
  {
  }

  // ---------------------------------------------------------------- casters

  /** A value stored in a core column; NullValue is Python's None. */
  datatype CoreValue =
    | Str(s: string)
    | DateValue(date: Date)
    | TimeValue(time: Time)
    | DecimalValue(dec: real)
    | IntValue(i: int)
    | NullValue

  /** `_to_date(s)`: None for a missing or empty value and wherever strptime("%Y%m%d") raises. */
  function ToDate(s: Option<string>): (r: Option<Date>)
    ensures (s.None? || s.value == "") ==> r.None?
    ensures r.Some? ==> ValidDate(r.value)
  {
    if s.None? || s.value == "" then None else ParseYmd(s.value)
  }

  /** `_to_time(s)`: a 4-character value is read as "%H%M", anything else as "%H%M%S". */
  function ToTime(s: Option<string>): (r: Option<Time>)
    ensures (s.None? || s.value == "") ==> r.None?
    ensures r.Some? ==> ValidTime(r.value)
  {
    if s.None? || s.value == "" then None
    else if |s.value| == 4 then ParseHm(s.value)
    else ParseHms(s.value)
  }

  /** `_to_date` accepts exactly the eight-digit spellings of valid days. */
  lemma ToDateExact(s: string, d: Date)
    ensures ToDate(Some(s)) == Some(d) <==> ValidDate(d) && FormatYmd(d) == s
  {
    if ToDate(Some(s)) == Some(d) {
      YmdCanonical(s);
    }
    if ValidDate(d) && FormatYmd(d) == s {
      YmdRoundTrip(d);
    }
  }

  /** `_to_time` accepts exactly HHMM (seconds 0) and HHMMSS spellings of valid times. */
  lemma ToTimeExact(s: string, t: Time)
    ensures ToTime(Some(s)) == Some(t) <==>
      ValidTime(t) && (if |s| == 4 then FormatHms(t) == s + "00" else FormatHms(t) == s)
  {
    if |s| == 4 {
      HmPadded(s);
      if ValidTime(t) && FormatHms(t) == s + "00" {
        HmsRoundTrip(t);
      }
    } else {
      if ToTime(Some(s)) == Some(t) {
        HmsCanonical(s);
      }
      if ValidTime(t) && FormatHms(t) == s {
        HmsRoundTrip(t);
      }
    }
  }

  /** The result of applying a CORE_MAP caster: a value, or the exception it raised. */
  datatype CastOutcome = Cast(value: CoreValue) | Raised

  /** `caster(val)` for a CORE_MAP entry; no caster keeps the raw string. */
  function ApplyCaster(c: Caster, val: string): CastOutcome {
    match c
    case NoCast => Cast(Str(val))
    case DateCaster => Cast(match ToDate(Some(val)) case Some(d) => DateValue(d) case None => NullValue)
    case TimeCaster => Cast(match ToTime(Some(val)) case Some(t) => TimeValue(t) case None => NullValue)
    case DecimalCaster => (match ParseDecimal(val) case Some(r) => Cast(DecimalValue(r)) case None => Raised)
    case IntCaster => (match ParseInt(val) case Some(i) => Cast(IntValue(i)) case None => Raised)
  }

  /** Python truthiness of a stored value (dates and times are always true). */
  predicate Truthy(v: CoreValue) {
    match v
    case Str(s) => s != ""
    case DateValue(_) => true
    case TimeValue(_) => true
    case DecimalValue(r) => r != 0.0
    case IntValue(i) => i != 0
    case NullValue => false
  }

  /**
   * The date and time casters never raise: a value they cannot read becomes
   * None. Only `Decimal` and `int` raise, on text that is not a number.
   */
  lemma CasterRaises(c: Caster, val: string)
    ensures ApplyCaster(c, val).Raised? <==>
      (c == DecimalCaster && ParseDecimal(val).None?) || (c == IntCaster && ParseInt(val).None?)
  {
  }

  /** A date column read through its caster is truthy exactly when the text spells a valid day. */
  lemma DateCastTruthy(val: string)
    ensures ApplyCaster(DateCaster, val).Cast?
    ensures Truthy(ApplyCaster(DateCaster, val).value) <==> exists d: Date :: ValidDate(d) && FormatYmd(d) == val
  {
    if ToDate(Some(val)).Some? {
      ToDateExact(val, ToDate(Some(val)).value);
    }
    if exists d: Date :: ValidDate(d) && FormatYmd(d) == val {
      var d: Date :| ValidDate(d) && FormatYmd(d) == val;
      ToDateExact(val, d);
    }
  }

  /** The same for a time column and its HHMM or HHMMSS spellings. */
  lemma TimeCastTruthy(val: string)
    ensures ApplyCaster(TimeCaster, val).Cast?
    ensures Truthy(ApplyCaster(TimeCaster, val).value) <==>
      exists t: Time :: ValidTime(t) && (FormatHms(t) == val || (|val| == 4 && FormatHms(t) == val + "00"))
  {
    if ToTime(Some(val)).Some? {
      ToTimeExact(val, ToTime(Some(val)).value);
    }
    if exists t: Time :: ValidTime(t) && (FormatHms(t) == val || (|val| == 4 && FormatHms(t) == val + "00")) {
      var t: Time :| ValidTime(t) && (FormatHms(t) == val || (|val| == 4 && FormatHms(t) == val + "00"));
      if |val| == 4 {
        assert |FormatHms(t)| == 6;
      }
      ToTimeExact(val, t);
    }
  }

  /** `int` reads back every integer written by `str`. */
  lemma IntCastRoundTrip(i: int)
    ensures ApplyCaster(IntCaster, IntToString(i)) == Cast(IntValue(i))
  {
    IntToStringRoundTrip(i);
  }
}
