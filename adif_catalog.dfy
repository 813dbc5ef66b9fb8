/**
 * The ADIF tag catalog of logbook/adif_catalog.py: the built-in seed of 21
 * tags, the entries read from the catalog file overriding the seed by
 * upper-cased name, `normalize_extra_value` (the canonical spelling of an
 * extra tag's value) and `tag_suggestions`.
 *
 * The module global ADIF_CATALOG is passed in as a map. Python's
 * `str(float(s))` is passed in as `floatText`, which is `None` where
 * `float()` raises.
 */
module AdifCatalog {
  import opened Wrappers
  import opened Text
  import opened Calendar

  /** TagMeta; `kind` is the `type` attribute ("str", "int", "float", "date", "time" or "enum"). */
  datatype TagMeta = TagMeta(name: string, kind: string, max: Option<int>, enum: Option<seq<string>>, labelText: Option<string>)

  type Catalog = map<string, TagMeta>

  type FloatText = string -> Option<string>

  // ---------------------------------------------------------------- the seed

  function SeedStr(name: string, max: int, caption: string): TagMeta {
    TagMeta(name, "str", Some(max), None, Some(caption))
  }

  function SeedInt(name: string, caption: string): TagMeta {
    TagMeta(name, "int", None, None, Some(caption))
  }

  /** `_default_seed()` */
  function DefaultSeed(): Catalog {
    map[
      "IOTA" := SeedStr("IOTA", 10, "IOTA"),
      "SOTA_REF" := SeedStr("SOTA_REF", 16, "SOTA Ref"),
      "MY_SOTA_REF" := SeedStr("MY_SOTA_REF", 16, "My SOTA Ref"),
      "POTA_REF" := SeedStr("POTA_REF", 16, "POTA Ref"),
      "MY_POTA_REF" := SeedStr("MY_POTA_REF", 16, "My POTA Ref"),
      "MY_SIG" := SeedStr("MY_SIG", 16, "My SIG"),
      "MY_SIG_INFO" := SeedStr("MY_SIG_INFO", 32, "My SIG Info"),
      "SIG" := SeedStr("SIG", 16, "SIG"),
      "SIG_INFO" := SeedStr("SIG_INFO", 32, "SIG Info"),
      "V2_PREFIX" := SeedStr("V2_PREFIX", 32, "V2 Prefix"),
      "VUCC_GRIDS" := SeedStr("VUCC_GRIDS", 64, "VUCC Grids"),
      "MY_VUCC_GRIDS" := SeedStr("MY_VUCC_GRIDS", 64, "My VUCC Grids"),
      "STATE" := SeedStr("STATE", 16, "State"),
      "CNTY" := SeedStr("CNTY", 32, "County"),
      "TEN_TEN" := SeedInt("TEN_TEN", "10-10"),
      "AGE" := SeedInt("AGE", "Age"),
      "PROP_MODE" := SeedStr("PROP_MODE", 16, "Prop Mode"),
      "SAT_MODE" := SeedStr("SAT_MODE", 16, "Sat Mode"),
      "SAT_NAME" := SeedStr("SAT_NAME", 32, "Satellite"),
      "WWFF" := SeedStr("WWFF", 16, "WWFF"),
      "MY_WWFF" := SeedStr("MY_WWFF", 16, "My WWFF")
    ]
  }

  /** Every seed entry is filed under its own name; only TEN_TEN and AGE are integers, the rest strings. */
  lemma SeedShape(k: string)
    requires k in DefaultSeed()
    ensures DefaultSeed()[k].name == k && DefaultSeed()[k].enum.None?
    ensures DefaultSeed()[k].kind == (if k == "TEN_TEN" || k == "AGE" then "int" else "str")
  {
  }

  // ---------------------------------------------------------------- the catalog file

  /** One entry of the catalog file as `json.load` returns it; a missing attribute is `None`. */
  datatype JsonEntry = JsonEntry(key: string, kind: Option<string>, max: Option<int>, enum: Option<seq<string>>, labelText: Option<string>)

  /** The TagMeta built for a file entry filed under `nm`. */
  function MetaOfJson(nm: string, e: JsonEntry): (m: TagMeta)
    ensures m.name == nm && m.max == e.max && m.enum == e.enum && m.labelText == e.labelText
    ensures m.kind == (if e.kind.Some? then e.kind.value else "str")
  {
    TagMeta(nm, if e.kind.Some? then e.kind.value else "str", e.max, e.enum, e.labelText)
  }

  /** What `_load_catalog_from_json` returns for the file's entries, in file order. */
  function FromJson(raw: seq<JsonEntry>): Catalog
  {
    if raw == [] then map[]
    else
      var last := raw[|raw| - 1];
      FromJson(raw[..|raw| - 1])[Upper(last.key) := MetaOfJson(Upper(last.key), last)]
  }

  /** `_load_catalog_from_json`: the loop filling `out`. */
  method LoadCatalogFromJson(raw: seq<JsonEntry>) returns (out: Catalog)
    ensures out == FromJson(raw)
  {
    out := map[];
    var i := 0;
    while i < |raw|
      invariant 0 <= i <= |raw|
      invariant out == FromJson(raw[..i])
    {
      var nm := Upper(raw[i].key);
      assert raw[..i + 1][..i] == raw[..i];
      out := out[nm := MetaOfJson(nm, raw[i])];
      i := i + 1;
    }
    assert raw[..|raw|] == raw;
  }

  /** One more entry files its description under its upper-cased key and leaves the others. */
  lemma FromJsonStep(raw: seq<JsonEntry>)
    requires raw != []
    ensures var last := raw[|raw| - 1];
      FromJson(raw) == FromJson(raw[..|raw| - 1])[Upper(last.key) := MetaOfJson(Upper(last.key), last)]
  {
  }

  /** The loaded names are exactly the upper-cased keys of the file. */
  lemma {:induction false} FromJsonKeys(raw: seq<JsonEntry>, k: string)
    ensures k in FromJson(raw) <==> exists i :: 0 <= i < |raw| && Upper(raw[i].key) == k
  {
    if raw != [] {
      var init := raw[..|raw| - 1];
      FromJsonStep(raw);
      FromJsonKeys(init, k);
      if exists i :: 0 <= i < |raw| && Upper(raw[i].key) == k {
        var i :| 0 <= i < |raw| && Upper(raw[i].key) == k;
        if i < |init| {
          assert init[i] == raw[i];
        }
      }
      if exists i :: 0 <= i < |init| && Upper(init[i].key) == k {
        var i :| 0 <= i < |init| && Upper(init[i].key) == k;
        assert raw[i] == init[i];
      }
    }
  }

  /** Each loaded name is described by the last entry of the file whose key upper-cases to it. */
  lemma {:induction false} FromJsonLastWins(raw: seq<JsonEntry>, i: int)
    requires 0 <= i < |raw|
    requires forall j :: i < j < |raw| ==> Upper(raw[j].key) != Upper(raw[i].key)
    ensures Upper(raw[i].key) in FromJson(raw)
    ensures FromJson(raw)[Upper(raw[i].key)] == MetaOfJson(Upper(raw[i].key), raw[i])
  {
    var init := raw[..|raw| - 1];
    FromJsonStep(raw);
    if i < |init| {
      assert init[i] == raw[i];
      FromJsonLastWins(init, i);
    }
  }

  /**
   * ADIF_CATALOG: the seed, updated with the catalog file's entries. `None` is a file whose
   * loading raised, which leaves the seed alone; a missing file loads as no entries.
   */
  function BuildCatalog(loaded: Option<seq<JsonEntry>>): Catalog {
    if loaded.None? then DefaultSeed() else DefaultSeed() + FromJson(loaded.value)
  }

  /** A loaded entry overrides the seed entry of the same name; other seed entries stay. */
  lemma CatalogOverride(loaded: Option<seq<JsonEntry>>, k: string)
    ensures k in BuildCatalog(loaded) <==> k in DefaultSeed() || (loaded.Some? && k in FromJson(loaded.value))
    ensures loaded.Some? && k in FromJson(loaded.value) ==> BuildCatalog(loaded)[k] == FromJson(loaded.value)[k]
    ensures k in DefaultSeed() && (loaded.None? || k !in FromJson(loaded.value)) ==> BuildCatalog(loaded)[k] == DefaultSeed()[k]
  {
  }

  // ---------------------------------------------------------------- normalize_extra_value

  /** The date spelling "YYYY-MM-DD" is accepted and its dashes dropped. */
  function Undashed(s: string): string {
    if |s| == 10 && s[4] == '-' then RemoveChar(s, '-') else s
  }

  /** `normalize_extra_value(tag, val)` against `catalog`. */
  function NormalizeExtraValue(catalog: Catalog, floatText: FloatText, tag: string, val: string): string {
    var key := Upper(tag);
    if key !in catalog then Strip(val)
    else
      var meta := catalog[key];
      var s := Strip(val);
      if s == "" then s
      else if meta.kind == "date" then
        var u := Undashed(s);
        if ParseYmd(u).Some? then u else val
      else if meta.kind == "time" then
        if |s| == 4 then (if ParseHm(s).Some? then s + "00" else val)
        else if ParseHms(s).Some? then s else val
      else if meta.kind == "int" then
        match ParseInt(s)
        case Some(i) => IntToString(i)
        case None => val
      else if meta.kind == "float" then
        match floatText(s)
        case Some(f) => f
        case None => val
      else if meta.kind == "enum" && meta.enum.Some? && |meta.enum.value| > 0 then
        var up := Upper(s);
        if up in meta.enum.value then up else s
      else s
  }

  /** A tag the catalog does not know keeps its value, stripped. */
  lemma UnknownTagStripped(catalog: Catalog, floatText: FloatText, tag: string, val: string)
    requires Upper(tag) !in catalog
    ensures NormalizeExtraValue(catalog, floatText, tag, val) == Strip(val)
    ensures NoSpaceEnds(NormalizeExtraValue(catalog, floatText, tag, val))
  {
    StripShape(val);
  }

  /** A known tag with a blank value gives "". */
  lemma BlankKnownTag(catalog: Catalog, floatText: FloatText, tag: string, val: string)
    requires Upper(tag) in catalog
    requires forall i :: 0 <= i < |val| ==> IsSpace(val[i])
    ensures NormalizeExtraValue(catalog, floatText, tag, val) == ""
  {
    StripEmptyIffAllSpace(val);
  }

  /** A date tag's value comes back either unchanged (not a date) or as the eight digits of a valid day. */
  lemma DateNormalForm(catalog: Catalog, floatText: FloatText, tag: string, val: string)
    requires Upper(tag) in catalog && catalog[Upper(tag)].kind == "date" && Strip(val) != ""
    ensures var r := NormalizeExtraValue(catalog, floatText, tag, val);
      r == val || exists d :: ValidDate(d) && r == FormatYmd(d)
  {
    var u := Undashed(Strip(val));
    if ParseYmd(u).Some? {
      YmdCanonical(u);
    }
  }

  /** "YYYY-MM-DD"; how the dashed spelling of a day is written. */
  function FormatDashed(d: Date): string
    requires ValidDate(d)
  {
    Pad4(d.year) + "-" + Pad2(d.month) + "-" + Pad2(d.day)
  }

  /** A valid day written "YYYYMMDD" is kept as it is. */
  lemma DatePlainSpelling(catalog: Catalog, floatText: FloatText, tag: string, d: Date)
    requires Upper(tag) in catalog && catalog[Upper(tag)].kind == "date" && ValidDate(d)
    ensures NormalizeExtraValue(catalog, floatText, tag, FormatYmd(d)) == FormatYmd(d)
  {
    var plain := FormatYmd(d);
    FormatYmdDigits(d);
    assert NoSpaceEnds(plain);
    StripNoSpaceEnds(plain);
    YmdRoundTrip(d);
  }

  /** A valid day written "YYYY-MM-DD" is written "YYYYMMDD"; "2024-01-01" becomes "20240101". */
  lemma DateDashedSpelling(catalog: Catalog, floatText: FloatText, tag: string, d: Date)
    requires Upper(tag) in catalog && catalog[Upper(tag)].kind == "date" && ValidDate(d)
    ensures NormalizeExtraValue(catalog, floatText, tag, FormatDashed(d)) == FormatYmd(d)
  {
    var dashed := FormatDashed(d);
    FormatYmdDigits(d);
    assert dashed[0] == FormatYmd(d)[0] && dashed[9] == FormatYmd(d)[7];
    StripNoSpaceEnds(dashed);
    YmdRoundTrip(d);
    DashesRemoved(d);
  }

  lemma FormatYmdDigits(d: Date)
    requires ValidDate(d)
    ensures |FormatYmd(d)| == 8 && AllDigits(FormatYmd(d))
  {
    Pad4Value(d.year);
    Pad2Value(d.month);
    Pad2Value(d.day);
  }

  lemma DashesRemoved(d: Date)
    requires ValidDate(d)
    ensures RemoveChar(FormatDashed(d), '-') == FormatYmd(d)
  {
    Pad4Value(d.year);
    Pad2Value(d.month);
    Pad2Value(d.day);
    var y, m, dd := Pad4(d.year), Pad2(d.month), Pad2(d.day);
    NoDashInDigits(y);
    NoDashInDigits(m);
    NoDashInDigits(dd);
    assert RemoveChar("-", '-') == "" by {
      assert "-"[1..] == "";
    }
    RemoveCharConcat(y, "-", '-');
    RemoveCharConcat(y + "-", m, '-');
    RemoveCharConcat(y + "-" + m, "-", '-');
    RemoveCharConcat(y + "-" + m + "-", dd, '-');
    assert y + "" + m + "" + dd == FormatYmd(d);
  }

  lemma {:induction false} NoDashInDigits(s: string)
    requires AllDigits(s)
    ensures RemoveChar(s, '-') == s
  {
    if s != [] {
      NoDashInDigits(s[1..]);
    }
  }

  lemma {:induction false} RemoveCharConcat(a: string, b: string, c: char)
    ensures RemoveChar(a + b, c) == RemoveChar(a, c) + RemoveChar(b, c)
  {
    if a != [] {
      assert (a + b)[1..] == a[1..] + b;
      RemoveCharConcat(a[1..], b, c);
    } else {
      assert a + b == b;
    }
  }

  /** A time tag's value comes back unchanged (not a time) or as the six digits HHMMSS of a valid time. */
  lemma TimeNormalForm(catalog: Catalog, floatText: FloatText, tag: string, val: string)
    requires Upper(tag) in catalog && catalog[Upper(tag)].kind == "time" && Strip(val) != ""
    ensures var r := NormalizeExtraValue(catalog, floatText, tag, val);
      r == val || exists t :: ValidTime(t) && r == FormatHms(t)
  {
    var s := Strip(val);
    if |s| == 4 {
      HmPadded(s);
    } else if ParseHms(s).Some? {
      HmsCanonical(s);
    }
  }

  /** HHMM gains "00" seconds; "1234" becomes "123400". */
  lemma TimeGainsSeconds(catalog: Catalog, floatText: FloatText, tag: string)
    requires Upper(tag) in catalog && catalog[Upper(tag)].kind == "time"
    ensures NormalizeExtraValue(catalog, floatText, tag, "1234") == "123400"
    ensures NormalizeExtraValue(catalog, floatText, tag, "2460") == "2460"
  {
    StripNoSpaceEnds("1234");
    StripNoSpaceEnds("2460");
    assert DigitsValue("12") == 12 && DigitsValue("34") == 34 by {
      assert "12"[..1] == "1" && "34"[..1] == "3";
    }
    assert DigitsValue("24") == 24 by {
      assert "24"[..1] == "2";
    }
  }

  /** An int tag's value is written back in Python's canonical form of the integer it denotes. */
  lemma IntNormalForm(catalog: Catalog, floatText: FloatText, tag: string, val: string)
    requires Upper(tag) in catalog && catalog[Upper(tag)].kind == "int" && Strip(val) != ""
    ensures ParseInt(val).Some? ==> NormalizeExtraValue(catalog, floatText, tag, val) == IntToString(ParseInt(val).value)
    ensures ParseInt(val).None? ==> NormalizeExtraValue(catalog, floatText, tag, val) == val
  {
    StripIdempotent(val);
  }

  /** Leading zeros are dropped: "007" is written "7". */
  lemma IntDropsZeros(catalog: Catalog, floatText: FloatText, tag: string)
    requires Upper(tag) in catalog && catalog[Upper(tag)].kind == "int"
    ensures NormalizeExtraValue(catalog, floatText, tag, "007") == "7"
  {
    StripNoSpaceEnds("007");
    assert DigitsValue("007") == 7 by {
      assert "007"[..2] == "00" && "00"[..1] == "0" && "0"[..0] == "";
    }
    assert NatToString(7) == "7";
  }

  /** An enum member is returned upper-cased; anything else is returned stripped, as given. */
  lemma EnumNormalForm(catalog: Catalog, floatText: FloatText, tag: string, val: string)
    requires Upper(tag) in catalog
    requires var m := catalog[Upper(tag)]; m.kind == "enum" && m.enum.Some? && |m.enum.value| > 0
    requires Strip(val) != ""
    ensures var m := catalog[Upper(tag)];
      NormalizeExtraValue(catalog, floatText, tag, val) ==
        if Upper(Strip(val)) in m.enum.value then Upper(Strip(val)) else Strip(val)
  {
  }

  /** A "str" tag, or an enum tag without a list of members, keeps its value stripped. */
  lemma StrNormalForm(catalog: Catalog, floatText: FloatText, tag: string, val: string)
    requires Upper(tag) in catalog
    requires var m := catalog[Upper(tag)]; m.kind == "str" || (m.kind == "enum" && (m.enum.None? || m.enum.value == []))
    ensures NormalizeExtraValue(catalog, floatText, tag, val) == Strip(val)
  {
  }

  /** Normalizing twice changes nothing more than normalizing once (float tags aside). */
  lemma NormalizeIdempotent(catalog: Catalog, floatText: FloatText, tag: string, val: string)
    requires Upper(tag) !in catalog || catalog[Upper(tag)].kind != "float"
    ensures var once := NormalizeExtraValue(catalog, floatText, tag, val);
      NormalizeExtraValue(catalog, floatText, tag, once) == once
  {
    var once := NormalizeExtraValue(catalog, floatText, tag, val);
    var s := Strip(val);
    StripIdempotent(val);
    StripShape(val);
    if Upper(tag) in catalog && s != "" {
      var meta := catalog[Upper(tag)];
      if meta.kind == "date" {
        var u := Undashed(s);
        if ParseYmd(u).Some? {
          assert NoSpaceEnds(u) by {
            assert AllDigits(u);
          }
          StripNoSpaceEnds(u);
        }
      } else if meta.kind == "time" {
        if |s| == 4 && ParseHm(s).Some? {
          HmPadded(s);
          assert NoSpaceEnds(s + "00") by {
            assert AllDigits(s);
          }
          StripNoSpaceEnds(s + "00");
        }
      } else if meta.kind == "int" {
        if ParseInt(s).Some? {
          var i := ParseInt(s).value;
          IntToStringRoundTrip(i);
          IntToStringNoSpaceEnds(i);
          StripNoSpaceEnds(IntToString(i));
        }
      } else if meta.kind == "enum" && meta.enum.Some? && |meta.enum.value| > 0 {
        if Upper(s) in meta.enum.value {
          UpperIdempotent(s);
          UpperNoSpaceEnds(s);
          StripNoSpaceEnds(Upper(s));
        }
      }
    }
  }

  lemma IntToStringNoSpaceEnds(i: int)
    ensures NoSpaceEnds(IntToString(i))
  {
    var d := NatToString(if i < 0 then -i else i);
    assert AllDigits(d) && |d| > 0;
  }

  lemma UpperNoSpaceEnds(s: string)
    requires NoSpaceEnds(s)
    ensures NoSpaceEnds(Upper(s))
  {
  }

  // ---------------------------------------------------------------- tag_suggestions

  /** No two names are out of order or equal. */
  ghost predicate StrictlySorted(names: seq<string>) {
    forall i, j :: 0 <= i < j < |names| ==> LexLess(names[i], names[j])
  }

  lemma {:induction false} MinimumExists(s: set<string>)
    requires s != {}
    ensures exists m :: m in s && forall x :: x in s && x != m ==> LexLess(m, x)
    decreases |s|
  {
    var y :| y in s;
    var rest := s - {y};
    if rest != {} {
      MinimumExists(rest);
      var m :| m in rest && forall x :: x in rest && x != m ==> LexLess(m, x);
      LexLessTotal(y, m);
      if LexLess(y, m) {
        forall x | x in s && x != y
          ensures LexLess(y, x)
        {
          if x != m {
            LexLessTransitive(y, m, x);
          }
        }
      } else {
        assert forall x :: x in s && x != m ==> LexLess(m, x);
      }
    } else {
      forall x | x in s
        ensures x == y
      {
        assert x !in rest;
      }
    }
  }

  /** `sorted(names)` for a set of distinct names. */
  ghost function SortedNames(s: set<string>): (r: seq<string>)
    ensures StrictlySorted(r) && |r| == |s|
    ensures forall x :: x in r <==> x in s
    decreases |s|
  {
    if s == {} then []
    else
      MinimumExists(s);
      var m :| m in s && forall x :: x in s && x != m ==> LexLess(m, x);
      var rest := SortedNames(s - {m});
      assert forall j :: 0 <= j < |rest| ==> rest[j] in s - {m};
      [m] + rest
  }

  /** `names[:limit]` with Python's meaning of a negative bound. */
  function PrefixLength(n: nat, limit: int): (k: nat)
    ensures k <= n
    ensures limit >= 0 ==> k == (if limit < n then limit else n)
    ensures limit < 0 ==> k == (if n + limit > 0 then n + limit else 0)
  {
    if limit >= 0 then (if limit < n then limit else n)
    else if n + limit > 0 then n + limit else 0
  }

  /** Python keeps index `i` in `names[:limit]` when `i` lies before the stop, a negative stop counting back from the end. */
  predicate SliceKeeps(n: nat, limit: int, i: nat) {
    if limit >= 0 then i < limit else i < n + limit
  }

  /** The prefix `tag_suggestions` keeps is exactly the set of indices Python's slice selects. */
  lemma PrefixLengthSelects(n: nat, limit: int)
    ensures forall i: nat :: i < n ==> (i < PrefixLength(n, limit) <==> SliceKeeps(n, limit, i))
  {
  }

  /**
   * `tag_suggestions(limit)`: catalog names in sorted order, at most `limit` of them, and
   * always the smallest ones.
   */
  ghost function TagSuggestions(catalog: Catalog, limit: int): (r: seq<string>)
    ensures StrictlySorted(r)
    ensures forall x :: x in r ==> x in catalog
    ensures |r| == PrefixLength(|catalog.Keys|, limit)
    ensures forall x, i :: x in catalog && x !in r && 0 <= i < |r| ==> LexLess(r[i], x)
  {
    var names := SortedNames(catalog.Keys);
    var r := names[..PrefixLength(|names|, limit)];
    assert forall x :: x in catalog && x !in r ==> exists j :: |r| <= j < |names| && names[j] == x;
    r
  }
}
