// The catalog generator of scripts/gen_adif_catalog_from_xsd.py: the XSD type
// names mapped to catalog types, the tag labels, and the catalog `main` builds
// from the schema's named simple types, its RECORD fields and its HEADER
// fields. The parsed schema is given as those three lists, in document order.

module XsdCatalog {
  import opened Wrappers
  import opened Text

  /** What `type_from_xsd` returns: a catalog type and, for booleans, the allowed values. */
  datatype Mapped = Mapped(kind: string, enum: Option<seq<string>>)

  const YesNo: seq<string> := ["Y", "N"]

  /**
   * `type_from_xsd`: date, time, the integer names, the number names and
   * boolean, whatever their case; every other name is a string.
   */
  function TypeFromXsd(tname: string): (r: Mapped)
    ensures r.kind in {"date", "time", "int", "float", "enum", "str"}
    ensures r.enum.Some? <==> r.kind == "enum"
    ensures r.enum.Some? ==> r.enum.value == YesNo
  {
    var t := Lower(tname);
    if t == "date" then Mapped("date", None)
    else if t == "time" then Mapped("time", None)
    else if t in ["integer", "positiveinteger", "xs:unsignedint", "xs:int"] then Mapped("int", None)
    else if t in ["number", "numberge0"] then Mapped("float", None)
    else if t == "boolean" then Mapped("enum", Some(YesNo))
    else Mapped("str", None)
  }

  /** The schema's own spellings of the date, time and boolean type names, and of a string type. */
  lemma TypeFromXsdTable()
    ensures TypeFromXsd("Date") == Mapped("date", None)
    ensures TypeFromXsd("Time") == Mapped("time", None)
    ensures TypeFromXsd("Boolean") == Mapped("enum", Some(["Y", "N"]))
    ensures TypeFromXsd("String") == Mapped("str", None)
  {
    assert Lower("Date") == "date";
    assert Lower("Time") == "time";
    assert Lower("Boolean") == "boolean";
    assert Lower("String") == "string";
  }

  /** The schema's own spellings of the integer and number type names. */
  lemma TypeFromXsdNumbers()
    ensures TypeFromXsd("Integer") == Mapped("int", None)
    ensures TypeFromXsd("PositiveInteger") == Mapped("int", None)
    ensures TypeFromXsd("Number") == Mapped("float", None)
    ensures TypeFromXsd("NumberGE0") == Mapped("float", None)
  {
    assert Lower("Integer") == "integer";
    assert Lower("PositiveInteger") == "positiveinteger";
    assert Lower("Number") == "number";
    assert Lower("NumberGE0") == "numberge0";
  }

  /** Upper-casing a type name does not change what it maps to. */
  lemma TypeFromXsdIgnoresCase(tname: string)
    ensures TypeFromXsd(Upper(tname)) == TypeFromXsd(tname)
  {
    forall i | 0 <= i < |tname| ensures Lower(Upper(tname))[i] == Lower(tname)[i] {
      var c := tname[i];
      assert LowerChar(UpperChar(c)) == LowerChar(c);
    }
    assert Lower(Upper(tname)) == Lower(tname);
  }

  /** `s.split(":")[-1]`: the text after the last ':', or all of it. */
  function LocalName(s: string): (r: string)
    ensures ':' !in r
    ensures |r| <= |s| && r == s[|s| - |r|..]
    ensures |r| < |s| ==> s[|s| - |r| - 1] == ':'
  {
    if s == [] then []
    else if s[|s| - 1] == ':' then []
    else LocalName(s[..|s| - 1]) + [s[|s| - 1]]
  }

  /** A namespace prefix is dropped whatever it is. */
  lemma {:induction false} PrefixDropped(prefix: string, name: string)
    requires ':' !in name
    ensures LocalName(prefix + ":" + name) == name
  {
    var s := prefix + ":" + name;
    if name != [] {
      var init := name[..|name| - 1];
      assert s[..|s| - 1] == prefix + ":" + init;
      assert s[|s| - 1] == name[|name| - 1];
      PrefixDropped(prefix, init);
      assert init + [name[|name| - 1]] == name;
    }
  }

  /**
   * Since `main` strips the prefix before mapping a type, the prefixed entries
   * "xs:unsignedint" and "xs:int" of `type_from_xsd` are never matched.
   */
  lemma PrefixedEntriesUnreachable(typeRef: string)
    ensures Lower(LocalName(typeRef)) != "xs:int" && Lower(LocalName(typeRef)) != "xs:unsignedint"
  {
    NoColonLower(LocalName(typeRef));
    assert "xs:int"[2] == ':' && "xs:unsignedint"[2] == ':';
  }

  lemma NoColonLower(n: string)
    requires ':' !in n
    ensures ':' !in Lower(n)
  {
    forall i | 0 <= i < |n| ensures Lower(n)[i] != ':' {
      assert n[i] != ':';
    }
  }

  /** `labelize`: underscores become spaces and the result is title-cased. */
  function Labelize(name: string): string {
    Title(ReplaceChar(name, '_', ' '))
  }

  lemma {:induction false} TitleFromAt(s: string, prevCased: bool, i: nat)
    requires i < |s|
    ensures |TitleFrom(s, prevCased)| == |s|
    ensures TitleFrom(s, prevCased)[i] ==
      if (if i == 0 then prevCased else IsLetter(s[i - 1])) then LowerChar(s[i]) else UpperChar(s[i])
    decreases |s|
  {
    if i > 0 {
      TitleFromAt(s[1..], IsLetter(s[0]), i - 1);
    } else if |s| > 1 {
      TitleFromAt(s[1..], IsLetter(s[0]), 0);
    }
  }

  /**
   * Each character of a label: a space for an underscore, an upper-case letter
   * where a word starts, a lower-case one inside a word.
   */
  lemma LabelizeAt(name: string, i: nat)
    requires i < |name|
    ensures |Labelize(name)| == |name|
    ensures Labelize(name)[i] ==
      if name[i] == '_' then ' '
      else if i > 0 && IsLetter(name[i - 1]) then LowerChar(name[i])
      else UpperChar(name[i])
  {
    var t := ReplaceChar(name, '_', ' ');
    TitleFromAt(t, false, i);
    if i > 0 {
      assert IsLetter(t[i - 1]) == IsLetter(name[i - 1]);
    }
  }

  lemma LabelizeMyName()
    ensures Labelize("MY_NAME") == "My Name"
  {
    var l := Labelize("MY_NAME");
    LabelizeAt("MY_NAME", 0);
    forall i | 0 <= i < 7 ensures l[i] == "My Name"[i] {
      LabelizeAt("MY_NAME", i);
    }
  }

  // ---------------------------------------------------------------- the schema

  /** A named xs:simpleType: its name, and the base of its xs:restriction ("" when the attribute is missing), if any. */
  datatype SimpleType = SimpleType(name: Option<string>, restrictionBase: Option<string>)

  /** An xs:element under a RECORD or HEADER choice: its name, its type attribute, and the base of an inline restriction. */
  datatype XsdField = XsdField(name: Option<string>, typeRef: Option<string>, inlineBase: Option<string>)

  /** A catalog entry; `enum` is `None` where the JSON object has no "enum" key. */
  datatype Entry = Entry(kind: string, labelText: string, enum: Option<seq<string>>)

  type Catalog = map<string, Entry>

  predicate Truthy(s: Option<string>) {
    s.Some? && s.value != []
  }

  /** The `simple_types` map: each named type with a restriction, to the local name of its base. */
  function Aliases(sts: seq<SimpleType>): map<string, string> {
    if sts == [] then map[] else AliasStep(Aliases(sts[..|sts| - 1]), sts[|sts| - 1])
  }

  /** One named simple type with a restriction files the local name of its base under its name. */
  function AliasStep(aliases: map<string, string>, st: SimpleType): map<string, string> {
    if Truthy(st.name) && st.restrictionBase.Some? then aliases[st.name.value := LocalName(st.restrictionBase.value)]
    else aliases
  }

  /**
   * The type of a RECORD field: through its type attribute, re-mapped once
   * through a simple type's base when that maps to "str"; or through the base
   * of an inline restriction; otherwise "str".
   */
  function RecordType(aliases: map<string, string>, f: XsdField): Mapped {
    if Truthy(f.typeRef) then
      var base := LocalName(f.typeRef.value);
      var m := TypeFromXsd(base);
      if m.kind == "str" && base in aliases then TypeFromXsd(Lower(aliases[base])) else m
    else if f.inlineBase.Some? then
      var base := Lower(LocalName(f.inlineBase.value));
      var m := TypeFromXsd(base);
      if m.kind == "str" && base in ["positiveinteger", "integer"] then m.(kind := "int") else m
    else Mapped("str", None)
  }

  /** The type of a HEADER field: through its type attribute only, with no alias. */
  function HeaderType(f: XsdField): Mapped {
    if Truthy(f.typeRef) then TypeFromXsd(LocalName(f.typeRef.value)) else Mapped("str", None)
  }

  /** The entry written for a tag: its type and label, and "enum" only when the list is non-empty. */
  function EntryOf(tag: string, m: Mapped): Entry {
    Entry(m.kind, Labelize(tag), if m.enum.Some? && m.enum.value != [] then m.enum else None)
  }

  /** The RECORD loop: every named field writes its entry, a later one over an earlier one. */
  function AddRecords(aliases: map<string, string>, c: Catalog, fs: seq<XsdField>): Catalog {
    if fs == [] then c else RecordStep(aliases, AddRecords(aliases, c, fs[..|fs| - 1]), fs[|fs| - 1])
  }

  function RecordStep(aliases: map<string, string>, c: Catalog, f: XsdField): Catalog {
    if Truthy(f.name) then c[f.name.value := EntryOf(f.name.value, RecordType(aliases, f))] else c
  }

  /** The HEADER loop: a named field writes its entry only when its tag is not in the catalog yet. */
  function AddHeaders(c: Catalog, fs: seq<XsdField>): Catalog {
    if fs == [] then c else HeaderStep(AddHeaders(c, fs[..|fs| - 1]), fs[|fs| - 1])
  }

  function HeaderStep(c: Catalog, f: XsdField): Catalog {
    if Truthy(f.name) && f.name.value !in c then c[f.name.value := EntryOf(f.name.value, HeaderType(f))] else c
  }

  /** The catalog `main` writes. */
  function XsdToCatalog(sts: seq<SimpleType>, records: seq<XsdField>, headers: seq<XsdField>): Catalog {
    AddHeaders(AddRecords(Aliases(sts), map[], records), headers)
  }

  /** `main`: the three loops over the parsed schema, in order. */
  method GenerateCatalog(sts: seq<SimpleType>, records: seq<XsdField>, headers: seq<XsdField>) returns (catalog: Catalog)
    ensures catalog == XsdToCatalog(sts, records, headers)
  {
    var simpleTypes := CollectSimpleTypes(sts);
    catalog := map[];
    catalog := CollectRecordFields(simpleTypes, catalog, records);
    catalog := CollectHeaderFields(catalog, headers);
  }

  /** The loop filling `simple_types`. */
  method CollectSimpleTypes(sts: seq<SimpleType>) returns (simpleTypes: map<string, string>)
    ensures simpleTypes == Aliases(sts)
  {
    simpleTypes := map[];
    for i := 0 to |sts|
      invariant simpleTypes == Aliases(sts[..i])
    {
      assert sts[..i + 1][..i] == sts[..i];
      var st := sts[i];
      assert Aliases(sts[..i + 1]) == AliasStep(simpleTypes, st);
      if !Truthy(st.name) {
        continue;
      }
      if st.restrictionBase.None? {
        continue;
      }
      simpleTypes := simpleTypes[st.name.value := LocalName(st.restrictionBase.value)];
    }
    assert sts[..|sts|] == sts;
  }

  /** `catalog[tag] = {"type": ..., "label": labelize(tag)}`, then "enum" when the list is non-empty. */
  method WriteEntry(c: Catalog, tag: string, m: Mapped) returns (catalog: Catalog)
    ensures catalog == c[tag := EntryOf(tag, m)]
  {
    catalog := c[tag := Entry(m.kind, Labelize(tag), None)];
    if m.enum.Some? && m.enum.value != [] {
      catalog := catalog[tag := catalog[tag].(enum := m.enum)];
    }
  }

  /** The loop over the RECORD fields. */
  method CollectRecordFields(simpleTypes: map<string, string>, start: Catalog, records: seq<XsdField>) returns (catalog: Catalog)
    ensures catalog == AddRecords(simpleTypes, start, records)
  {
    catalog := start;
    for i := 0 to |records|
      invariant catalog == AddRecords(simpleTypes, start, records[..i])
    {
      assert records[..i + 1][..i] == records[..i];
      var field := records[i];
      assert AddRecords(simpleTypes, start, records[..i + 1]) == RecordStep(simpleTypes, catalog, field);
      if !Truthy(field.name) {
        continue;
      }
      var tag := field.name.value;
      catalog := WriteEntry(catalog, tag, RecordType(simpleTypes, field));
    }
    assert records[..|records|] == records;
  }

  /** The loop over the HEADER fields, skipping tags already in the catalog. */
  method CollectHeaderFields(start: Catalog, headers: seq<XsdField>) returns (catalog: Catalog)
    ensures catalog == AddHeaders(start, headers)
  {
    catalog := start;
    for i := 0 to |headers|
      invariant catalog == AddHeaders(start, headers[..i])
    {
      assert headers[..i + 1][..i] == headers[..i];
      var field := headers[i];
      assert AddHeaders(start, headers[..i + 1]) == HeaderStep(catalog, field);
      if !Truthy(field.name) {
        continue;
      }
      var tag := field.name.value;
      if tag in catalog {
        continue;
      }
      catalog := WriteEntry(catalog, tag, HeaderType(field));
    }
    assert headers[..|headers|] == headers;
  }

  // ---------------------------------------------------------------- properties

  /** Every entry is labelled from its own tag, and only an "enum" entry has the Y/N list. */
  predicate WellFormed(c: Catalog) {
    forall k :: k in c ==> GoodEntry(k, c[k])
  }

  predicate GoodKind(m: Mapped) {
    m.kind in {"date", "time", "int", "float", "enum", "str"} && m.enum == (if m.kind == "enum" then Some(YesNo) else None)
  }

  predicate GoodEntry(tag: string, e: Entry) {
    e.labelText == Labelize(tag) && GoodKind(Mapped(e.kind, e.enum))
  }

  /** The types a field can get are those `type_from_xsd` returns. */
  lemma RecordTypeShape(aliases: map<string, string>, f: XsdField)
    ensures GoodKind(RecordType(aliases, f)) && GoodKind(HeaderType(f))
  {
  }

  lemma EntryOfGood(tag: string, m: Mapped)
    requires GoodKind(m)
    ensures GoodEntry(tag, EntryOf(tag, m))
  {
  }

  lemma StepsWellFormed(aliases: map<string, string>, c: Catalog, f: XsdField)
    requires WellFormed(c)
    ensures WellFormed(RecordStep(aliases, c, f)) && WellFormed(HeaderStep(c, f))
  {
    RecordTypeShape(aliases, f);
    if Truthy(f.name) {
      EntryOfGood(f.name.value, RecordType(aliases, f));
      EntryOfGood(f.name.value, HeaderType(f));
    }
  }

  lemma {:induction false} AddRecordsWellFormed(aliases: map<string, string>, c: Catalog, fs: seq<XsdField>)
    requires WellFormed(c)
    ensures WellFormed(AddRecords(aliases, c, fs))
  {
    if fs != [] {
      AddRecordsWellFormed(aliases, c, fs[..|fs| - 1]);
      StepsWellFormed(aliases, AddRecords(aliases, c, fs[..|fs| - 1]), fs[|fs| - 1]);
    }
  }

  lemma {:induction false} AddHeadersWellFormed(c: Catalog, fs: seq<XsdField>)
    requires WellFormed(c)
    ensures WellFormed(AddHeaders(c, fs))
  {
    if fs != [] {
      AddHeadersWellFormed(c, fs[..|fs| - 1]);
      StepsWellFormed(map[], AddHeaders(c, fs[..|fs| - 1]), fs[|fs| - 1]);
    }
  }

  /**
   * Every entry of a generated catalog is labelled from its tag, has one of
   * the six types, and carries "enum" exactly when its type is "enum", with
   * the values Y and N.
   */
  lemma CatalogWellFormed(sts: seq<SimpleType>, records: seq<XsdField>, headers: seq<XsdField>)
    ensures WellFormed(XsdToCatalog(sts, records, headers))
  {
    AddRecordsWellFormed(Aliases(sts), map[], records);
    AddHeadersWellFormed(AddRecords(Aliases(sts), map[], records), headers);
  }

  /** The last field with the given name. */
  function LastNamed(fs: seq<XsdField>, tag: string): (r: Option<XsdField>)
    ensures r.Some? ==> r.value in fs && r.value.name == Some(tag)
    ensures r.None? <==> forall f :: f in fs ==> f.name != Some(tag)
  {
    if fs == [] then None
    else if fs[|fs| - 1].name == Some(tag) then Some(fs[|fs| - 1])
    else LastNamed(fs[..|fs| - 1], tag)
  }

  /** The first field with the given name. */
  function FirstNamed(fs: seq<XsdField>, tag: string): (r: Option<XsdField>)
    ensures r.Some? ==> r.value in fs && r.value.name == Some(tag)
    ensures r.None? <==> forall f :: f in fs ==> f.name != Some(tag)
  {
    if fs == [] then None
    else if fs[0].name == Some(tag) then Some(fs[0])
    else FirstNamed(fs[1..], tag)
  }

  lemma {:induction false} FirstNamedSnoc(fs: seq<XsdField>, tag: string)
    requires fs != []
    ensures FirstNamed(fs, tag) ==
      if FirstNamed(fs[..|fs| - 1], tag).Some? then FirstNamed(fs[..|fs| - 1], tag)
      else if fs[|fs| - 1].name == Some(tag) then Some(fs[|fs| - 1]) else None
  {
    if |fs| > 1 && fs[0].name != Some(tag) {
      assert fs[1..][..|fs[1..]| - 1] == fs[..|fs| - 1][1..];
      FirstNamedSnoc(fs[1..], tag);
    }
  }

  /** Among RECORD fields, the last one with a tag decides its entry; other entries are left alone. */
  lemma {:induction false} AddRecordsAt(aliases: map<string, string>, c: Catalog, fs: seq<XsdField>, tag: string)
    requires tag != []
    ensures tag in AddRecords(aliases, c, fs) <==> tag in c || LastNamed(fs, tag).Some?
    ensures LastNamed(fs, tag).Some? ==>
      AddRecords(aliases, c, fs)[tag] == EntryOf(tag, RecordType(aliases, LastNamed(fs, tag).value))
    ensures LastNamed(fs, tag).None? && tag in c ==> AddRecords(aliases, c, fs)[tag] == c[tag]
  {
    if fs != [] {
      AddRecordsAt(aliases, c, fs[..|fs| - 1], tag);
    }
  }

  /**
   * HEADER fields never override: a tag already in the catalog keeps its entry,
   * and a new tag gets the entry of the first HEADER field with that name.
   */
  lemma {:induction false} AddHeadersAt(c: Catalog, fs: seq<XsdField>, tag: string)
    requires tag != []
    ensures tag in AddHeaders(c, fs) <==> tag in c || FirstNamed(fs, tag).Some?
    ensures tag in c ==> AddHeaders(c, fs)[tag] == c[tag]
    ensures tag !in c && FirstNamed(fs, tag).Some? ==>
      AddHeaders(c, fs)[tag] == EntryOf(tag, HeaderType(FirstNamed(fs, tag).value))
  {
    if fs != [] {
      AddHeadersAt(c, fs[..|fs| - 1], tag);
      FirstNamedSnoc(fs, tag);
    }
  }

  /**
   * A RECORD field wins over any HEADER field with the same tag; a tag only
   * HEADER names gets the first such HEADER field's entry.
   */
  lemma RecordBeforeHeader(sts: seq<SimpleType>, records: seq<XsdField>, headers: seq<XsdField>, tag: string)
    requires tag != []
    ensures tag in XsdToCatalog(sts, records, headers) <==> LastNamed(records, tag).Some? || FirstNamed(headers, tag).Some?
    ensures LastNamed(records, tag).Some? ==>
      XsdToCatalog(sts, records, headers)[tag] == EntryOf(tag, RecordType(Aliases(sts), LastNamed(records, tag).value))
    ensures LastNamed(records, tag).None? && FirstNamed(headers, tag).Some? ==>
      XsdToCatalog(sts, records, headers)[tag] == EntryOf(tag, HeaderType(FirstNamed(headers, tag).value))
  {
    var fromRecords := AddRecords(Aliases(sts), map[], records);
    AddRecordsAt(Aliases(sts), map[], records, tag);
    AddHeadersAt(fromRecords, headers, tag);
  }

  /**
   * An alias is followed once: a RECORD type naming a simple type whose base
   * is itself a string-mapped alias stays "str", whatever that alias's base.
   */
  lemma AliasResolvedOnce(aliases: map<string, string>, f: XsdField)
    requires Truthy(f.typeRef)
    requires var base := LocalName(f.typeRef.value);
      && TypeFromXsd(base).kind == "str" && base in aliases
      && TypeFromXsd(aliases[base]).kind == "str"
    ensures RecordType(aliases, f) == Mapped("str", None)
  {
    var b := aliases[LocalName(f.typeRef.value)];
    assert Lower(Lower(b)) == Lower(b);
  }

  /** Through an alias, a RECORD field takes the type of the alias's base. */
  lemma AliasToBase(aliases: map<string, string>, f: XsdField)
    requires Truthy(f.typeRef)
    requires var base := LocalName(f.typeRef.value);
      TypeFromXsd(base).kind == "str" && base in aliases
    ensures RecordType(aliases, f) == TypeFromXsd(aliases[LocalName(f.typeRef.value)])
  {
    var b := aliases[LocalName(f.typeRef.value)];
    assert Lower(Lower(b)) == Lower(b);
  }
}
