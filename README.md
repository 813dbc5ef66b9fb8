# loghub ADIF core in Dafny

This project models the parts of loghub that read, write and check ADIF
amateur-radio logs. ADIF is a text format: a `<NAME:LEN[:T]>value` data
specifier per field, an optional header ending in `<EOH>`, and an `<EOR>` at
the end of each record. The model covers:

- the staging import of `logbook/imports.py`:
  - the `ADIF_TAG_RE` tokenizer `parse_adif_records` (module `AdifRecords`);
  - the classification of each record into typed core columns and extras, with counts of accepted and refused records, in `parse_adif_to_staged`;
  - the atomic `finalize_import` (module `AdifStaging`, class `Logbook`);
- the core-column table `CORE_MAP` of `logbook/adif_fields.py`, with its date, time, decimal and int casters (modules `CoreColumns` and `AdifFields`);
- the tag catalog of `logbook/adif_catalog.py`: the seed catalog, the override from a JSON file, `normalize_extra_value` and `tag_suggestions` (module `AdifCatalog`);
- the QSO rules of `qsos/models.py`: `_validate_callsign`, `_derive_band_from_freq` over the fixed band plan, and `clean()` as a class whose method reassigns the columns step by step (module `QsoValidation`);
- the legacy upload endpoint of `logbook/views.py`: its own tokenizer `parse_adif`, and the all-or-nothing `upload_adif` (module `LegacyUpload`);
- `sync_qsos` of `backend/remotes/qrz.py`. It upserts the rows fetched from QRZ.com keyed by (id, "qrz"), commits once, then optionally pushes every local QSO (module `QrzSync`);
- the N1MM bridge of `n1mm.py`: `to_adif_field`, `xml_to_adif_field` and the field order of `contact_to_adif` (module `N1mm`);
- the catalog generator `scripts/gen_adif_catalog_from_xsd.py`: `type_from_xsd`, `labelize`, and the RECORD-then-HEADER merge in `main` (module `XsdCatalog`).

Shared helpers:

- `Wrappers` holds Option and Result.
- `Text` holds Python's `strip`, ASCII `upper`/`lower`, `split`, `int`/`str` of integers, `title` and string order.
- `Calendar` holds fixed-width dates and times, and the readings `strptime` gives them.

Methods whose loops the source has are proved against specification functions:

- `AdifRecords.ScanRecord` and `ParseAdifRecords` against `Fields` and `Records`;
- `AdifStaging.ClassifyRecord` against `Classified`;
- `LegacyUpload.ScanRecord` against `ScanFields`;
- `XsdCatalog.CollectRecordFields` against `AddRecords`.

The properties the source promises are then proved about those functions.

Two notes on structure:

- Python's callables are function-valued parameters: the catalog normaliser seen by the classifier, the save of `finalize_import`, `freq_to_adif`, and the float formatting.
- Each of the two tokenizers is kept as written, and they disagree:
  - `imports.py` ends records at an upper-case `<EOR>` only;
  - `views.py` ends them at a lower-case `<eor>` only, so an upper-case `<EOR>` there reads as a field named `EOR` (`LegacyUpload.UpperEorIsAField`).

Behaviours of the code that a reader might not expect, kept as written:

- A core tag whose caster raises is kept in extras with its raw text, so a core tag can appear in extras (logbook/imports.py:85-89, `AdifStaging.Partition`).
- The staging tokenizer splits on `<EOH>` and `<EOR>` in upper case only; `re.IGNORECASE` applies to the tag pattern, not to these splits (logbook/imports.py:27-29).
- Text that is not a well-formed header is skipped and the search goes on; a malformed header does not end the record (logbook/imports.py:36-38, `AdifRecords.ScanSkip`).
- A non-blank chunk with no header yields an empty record rather than being dropped (logbook/imports.py:34-45, `AdifRecords.HeaderlessRecord`).
- The code has no import status and no cancel operation, so none is modelled.

## Model

| member | source | states |
|---|---|---|
| `AdifRecords.MatchAtShape` | logbook/imports.py:15 | a match of `ADIF_TAG_RE` is '<', a name of `[A-Za-z0-9_]`, ':', decimal digits whose value is the length, an optional ':' and letter, and '>' right before the value |
| `AdifRecords.MatchHeader` | logbook/imports.py:15 | every well-formed `<NAME:n>` header is matched with its name and length read back exactly |
| `AdifRecords.SearchTag` | logbook/imports.py:36 | a header found by the search starts at or after the position and is a match there |
| `AdifRecords.SearchTagLeftmost` | logbook/imports.py:36-38 | the search returns the leftmost header, and nothing exactly when no position from there on starts one |
| `AdifRecords.ScanRecord` | logbook/imports.py:33-45 | the scan loop over one stripped record returns exactly the fields of the record's specification |
| `AdifRecords.ParseAdifRecords` | logbook/imports.py:25-45 | the generator's records, collected, are those of the specification `Records(data)` |
| `AdifRecords.BodyWithoutHeader` | logbook/imports.py:27-28 | with no `<EOH>` the whole text is scanned |
| `AdifRecords.BodyAfterHeader` | logbook/imports.py:27-28 | after the first `<EOH>`, only the text up to a second `<EOH>` (or to the end) is scanned |
| `AdifRecords.NoMarkersOneChunk` | logbook/imports.py:27-32 | text without upper-case markers is one record, or none when blank; lower-case markers do not split |
| `AdifRecords.ChunkContributes` | logbook/imports.py:29-32 | a chunk blank after strip yields nothing, any other chunk exactly one record in its place |
| `AdifRecords.HeaderlessRecord` | logbook/imports.py:34-45 | a record with no '<' still yields an (empty) map rather than being dropped |
| `AdifRecords.ScanSkip` | logbook/imports.py:36-38 | text where no header starts is skipped over, not treated as an error |
| `AdifRecords.ScanEnd` | logbook/imports.py:37-38 | with no header left the scan ends with the fields it has |
| `AdifRecords.ScanField` | logbook/imports.py:39-44 | a data specifier is read as one field and the scan resumes right after its value, so '<' inside the value is never a tag |
| `AdifRecords.ScanJoined` | logbook/imports.py:35-44 | a run of data specifiers separated by text without '<' is read as exactly those fields, in order |
| `AdifRecords.StoreLastWins` | logbook/imports.py:39-43 | each stored name is upper-cased and holds the value of its last occurrence |
| `AdifRecords.StoreKeeps` | logbook/imports.py:43 | a name that no later field writes keeps its value |
| `AdifRecords.StoreKeys` | logbook/imports.py:39-43 | the record's keys are exactly the upper-cased names of the fields read |
| `AdifRecords.FieldTextHasNoMarker` | logbook/imports.py:27-29 | a data specifier holds `<EOR>` or `<EOH>` only if its value does |
| `AdifRecords.SingleFieldRoundTrip` | logbook/imports.py:27-45 | `<T:n>v` with n the length of v is read back as the single record {upper(T): v} when v holds no marker and does not end in whitespace |
| `AdifRecords.FieldTextFields` | logbook/imports.py:36-44 | a lone data specifier is read as exactly its one field, whatever its value |
| `CoreColumns.FieldOfTag` | logbook/adif_fields.py:37-86 | the column found for a tag is one whose ADIF tag is that tag |
| `CoreColumns.TagRoundTrip` | logbook/adif_fields.py:37-86 | every column is found again from its own tag |
| `CoreColumns.TagInjective` | logbook/adif_fields.py:37-86 | no two columns share a tag |
| `CoreColumns.NameRoundTrip` | logbook/adif_fields.py:37-86 | every column is found again from its attribute name, so no two columns share a name |
| `AdifFields.CoreEntry` | logbook/adif_fields.py:37-86 | `CORE_MAP[tag]` exists exactly for core tags and names the column of that tag with that column's caster |
| `AdifFields.CoreMapLookup` | logbook/adif_fields.py:37-86 | the dict and the lookup agree on every tag |
| `AdifFields.RequiredEntries` | logbook/adif_fields.py:38-40 | CALL is stored uncast in callsign, QSO_DATE through `_to_date`, TIME_ON through `_to_time` |
| `AdifFields.CoreTagsAreKeys` | logbook/adif_fields.py:89 | CORE_TAGS is exactly the key set of CORE_MAP |
| `AdifFields.CoreFieldNamesAreTargets` | logbook/adif_fields.py:90 | CORE_FIELD_NAMES is exactly the set of column names CORE_MAP's entries name |
| `AdifFields.CoreEntriesDistinct` | logbook/adif_fields.py:37-86 | distinct tags write distinct columns with distinct names |
| `AdifFields.RenamedTags` | logbook/adif_fields.py:38-72 | CALL goes to callsign, CQZ to cq_zone and ITUZ to itu_zone, the latter two through `int` |
| `AdifFields.RenamedQslDates` | logbook/adif_fields.py:82-84 | LOTW_QSLRDATE and LOTW_QSLSDATE go to lotw_qsl_rcvd_date and lotw_qsl_sent_date through `_to_date` |
| `AdifFields.ToDate` | logbook/adif_fields.py:15-21 | `_to_date` gives None for a missing or empty value, and any date it gives is a valid day |
| `AdifFields.ToTime` | logbook/adif_fields.py:24-33 | `_to_time` gives None for a missing or empty value, and any time it gives is a valid time |
| `AdifFields.ToDateExact` | logbook/adif_fields.py:15-21 | `_to_date` accepts exactly the eight-digit YYYYMMDD spellings of valid days |
| `AdifFields.ToTimeExact` | logbook/adif_fields.py:24-33 | a 4-character value is read as HHMM with seconds 0, anything else as HHMMSS; nothing else is accepted |
| `AdifFields.CasterRaises` | logbook/adif_fields.py:15-86 | the date and time casters never raise; only Decimal and int raise, exactly on text that is not a number |
| `AdifFields.DateCastTruthy` | logbook/adif_fields.py:15-21 | a date column is truthy after casting exactly when the text spells a valid day |
| `AdifFields.TimeCastTruthy` | logbook/adif_fields.py:24-33 | a time column is truthy after casting exactly when the text is a valid HHMMSS, or a 4-character valid HHMM |
| `AdifFields.IntCastRoundTrip` | logbook/adif_fields.py:55-73 | `int` reads back every integer `str` writes |
| `AdifCatalog.SeedShape` | logbook/adif_catalog.py:57-82 | every seed entry is filed under its own name, has no enum, and is "int" exactly for TEN_TEN and AGE |
| `AdifCatalog.MetaOfJson` | logbook/adif_catalog.py:47-53 | an entry from the file keeps its max, enum and label, is named by its key, and has type "str" when none is given |
| `AdifCatalog.LoadCatalogFromJson` | logbook/adif_catalog.py:44-54 | the loop filling `out` computes the specification `FromJson` of the file's entries |
| `AdifCatalog.FromJsonKeys` | logbook/adif_catalog.py:45-47 | the loaded names are exactly the upper-cased keys of the file |
| `AdifCatalog.FromJsonLastWins` | logbook/adif_catalog.py:45-53 | a name is described by the last entry of the file whose key upper-cases to it |
| `AdifCatalog.CatalogOverride` | logbook/adif_catalog.py:86-92 | the file's entries override seed entries of the same name; the other seed entries stay |
| `AdifCatalog.UnknownTagStripped` | logbook/adif_catalog.py:103-105 | a tag not in the catalog (looked up upper-cased) gives its value stripped |
| `AdifCatalog.BlankKnownTag` | logbook/adif_catalog.py:107-109 | a known tag whose value is blank after strip gives "" |
| `AdifCatalog.DateNormalForm` | logbook/adif_catalog.py:111-137 | a date tag's value comes back unchanged (not a date) or as the eight digits of a valid day |
| `AdifCatalog.DatePlainSpelling` | logbook/adif_catalog.py:111-116 | a valid day written YYYYMMDD is kept |
| `AdifCatalog.DateDashedSpelling` | logbook/adif_catalog.py:113-116 | a valid day written YYYY-MM-DD is written YYYYMMDD |
| `AdifCatalog.TimeNormalForm` | logbook/adif_catalog.py:117-137 | a time tag's value comes back unchanged (not a time) or as HHMMSS of a valid time |
| `AdifCatalog.TimeGainsSeconds` | logbook/adif_catalog.py:117-137 | "1234" becomes "123400"; an invalid HHMM such as "2460" comes back as given |
| `AdifCatalog.IntNormalForm` | logbook/adif_catalog.py:124-137 | an int tag's value is Python's canonical form of its integer, or the original value when `int` raises |
| `AdifCatalog.IntDropsZeros` | logbook/adif_catalog.py:124-125 | "007" is written "7" |
| `AdifCatalog.EnumNormalForm` | logbook/adif_catalog.py:128-133 | an enum member is returned upper-cased; anything else stripped, as given |
| `AdifCatalog.StrNormalForm` | logbook/adif_catalog.py:128-134 | a str tag, or an enum tag without members, gives its value stripped |
| `AdifCatalog.NormalizeIdempotent` | logbook/adif_catalog.py:95-137 | normalizing a normalized value changes nothing (float tags aside) |
| `AdifCatalog.SortedNames` | logbook/adif_catalog.py:142 | `sorted` of a set of names is strictly increasing and holds exactly those names |
| `AdifCatalog.PrefixLengthSelects` | logbook/adif_catalog.py:143 | the prefix kept holds exactly the indices Python's `names[:limit]` selects: those before `limit`, or before `len + limit` for a negative bound |
| `AdifCatalog.TagSuggestions` | logbook/adif_catalog.py:140-143 | the suggestions are catalog names, strictly sorted, as many as the slice keeps, and always the smallest ones |
| `AdifStaging.RouteShape` | logbook/imports.py:80-94 | one tag fills its column when it is core and its caster returns; otherwise it goes to extras, raw for a core tag and normalized for another |
| `AdifStaging.RouteLast` | logbook/imports.py:80-94 | the order in which the tags are taken does not change the two dicts |
| `AdifStaging.ClassifyRecord` | logbook/imports.py:78-94 | the inner loop routes every tag of a record, giving the specification's `data` and `extras` |
| `AdifStaging.RouteKeys` | logbook/imports.py:80-94 | an extra is a tag that fills no column, and a filled column comes from one of the tags |
| `AdifStaging.Partition` | logbook/imports.py:80-94 | every tag lands in exactly one of its column or extras; a raising cast keeps the raw text, a non-core tag is normalized |
| `AdifStaging.OnlyOwnTags` | logbook/imports.py:80-94 | nothing but the record's own tags is stored |
| `AdifStaging.ColumnFromTag` | logbook/imports.py:81-91 | a core column is filled exactly when its tag is in the record and its caster returns, with that value |
| `AdifStaging.RequiredMeans` | logbook/imports.py:96-98 | a record is kept exactly when CALL is non-empty, QSO_DATE spells a valid day and TIME_ON a valid time, so a bad date refuses it |
| `AdifStaging.StagedCount` | logbook/imports.py:77-107 | every record is either staged or counted as an error, so ok + err is the number of records |
| `AdifStaging.StagedRowsWellFormed` | logbook/imports.py:96-102 | every staged row belongs to the import, has the three required columns, and has extras only when there are some |
| `AdifStaging.StageAll` | logbook/imports.py:77-102 | the outer loop gives the specification's rows to create and refused count |
| `AdifStaging.PendingPartition` | logbook/imports.py:114-171 | the staged rows split into those of the import and the rest, with nothing lost or added |
| `AdifStaging.FinalizeErrorSticks` | logbook/imports.py:110-166 | once a save fails, later rows change nothing: the first error is the one reported |
| `AdifStaging.FinalizeCounts` | logbook/imports.py:113-172 | a successful finalize makes one entry per pending row, linked to the import with fresh consecutive ids, and one extras row per row with extras |
| `AdifStaging.FinalizeFailsIff` | logbook/imports.py:110-166 | finalizing fails exactly when saving some pending row fails |
| `AdifStaging.SavedEntryClean` | logbook/imports.py:115-166 | a saved entry keeps every staged column except the five `clean()` rewrites, and passes `clean()` again unchanged |
| `AdifStaging.Logbook.ParseAdifToStaged` | logbook/imports.py:72-107 | the kept records are appended to the staged rows; ok counts them and err the refused ones; nothing else changes |
| `AdifStaging.Logbook.BulkCreate` | logbook/imports.py:104-105 | the batches append the rows in order |
| `AdifStaging.Logbook.FinalizeImport` | logbook/imports.py:110-172 | on a failing save nothing changes; otherwise one entry per pending row, extras rows, the import's staged rows deleted, and the count returned |
| `QsoValidation.ValidateCallsign` | qsos/models.py:102-118 | an empty value passes unchanged; otherwise the result is the stripped upper-cased callsign exactly when it meets every rule |
| `QsoValidation.CallsignIdempotent` | qsos/models.py:105-118 | an accepted callsign validates to itself |
| `QsoValidation.SlashedCallsignRejected` | qsos/models.py:110-111 | "/BAD/" breaks the slash rule |
| `QsoValidation.LowerCaseCallsignAccepted` | qsos/models.py:105 | " k1abc" is accepted as "K1ABC" |
| `QsoValidation.LeadingZeroRejected` | qsos/models.py:114-115 | a callsign may not start with 0 |
| `QsoValidation.LeadingOneRule` | qsos/models.py:116-117 | a callsign starting with 1 must go on with A, M or S |
| `QsoValidation.PlainCallsignAccepted` | qsos/models.py:106-118 | a 3 to 20 character callsign of letters and digits, starting with a letter and then a digit, is accepted as it is |
| `QsoValidation.FirstBandNone` | qsos/models.py:144-147 | no band is found exactly when no range holds the frequency |
| `QsoValidation.FirstBandSome` | qsos/models.py:144-146 | a band found is the label of the first range holding the frequency, bounds inclusive |
| `QsoValidation.DeriveBand` | qsos/models.py:121-123 | no frequency, or zero, derives no band |
| `QsoValidation.BandPlanAscending` | qsos/models.py:125-143 | each range is proper and ends below the next one's start |
| `QsoValidation.BandPlanDisjoint` | qsos/models.py:125-143 | no two ranges overlap |
| `QsoValidation.DeriveBandExact` | qsos/models.py:121-147 | a frequency in a range derives that range's band, the only one holding it |
| `QsoValidation.DeriveBandOn20m` | qsos/models.py:131 | 14.074 MHz is on 20m |
| `QsoValidation.GapAbove20m` | qsos/models.py:131-132 | between 14.35 and 18.068 MHz no range holds a frequency |
| `QsoValidation.DeriveBandOffPlan` | qsos/models.py:122-147 | 14.5 MHz and zero derive no band |
| `QsoValidation.BandLabelsNonEmpty` | qsos/models.py:125-146 | a derived band is never empty, so `if derived` accepts every band found |
| `QsoValidation.CallsignsStep` | qsos/models.py:150-155 | the callsign step passes exactly when all three callsigns do, and then rewrites only them |
| `QsoValidation.BandStep` | qsos/models.py:157-165 | the band step passes exactly when a band is given or derivable, and writes only a missing band |
| `QsoValidation.BandRxStep` | qsos/models.py:167-171 | band_rx is derived from freq_rx only when it is empty and a band is found |
| `QsoValidation.CleanAcceptsExactly` | qsos/models.py:149-184 | `clean()` succeeds exactly when all three callsigns pass, a band is given or derivable, and the satellite rule holds |
| `QsoValidation.CleanSuccess` | qsos/models.py:149-184 | after success the band is set and kept if given, callsigns are normalized, station_callsign falls back to operator, band_rx is derived, and nothing else changes |
| `QsoValidation.BandRxNeverRaises` | qsos/models.py:167-171 | the receive frequency never decides whether `clean()` raises |
| `QsoValidation.CleanIdempotent` | qsos/models.py:149-184 | cleaning a cleaned QSO succeeds and changes nothing |
| `QsoValidation.BandDerivedExample` | qsos/models.py:158-165 | a QSO with only a frequency of 14.074 MHz is filed on 20m |
| `QsoValidation.SatelliteExample` | qsos/models.py:174-176 | PROP_MODE "SAT" without SAT_NAME is refused |
| `QsoValidation.BadCallsignExample` | qsos/models.py:151 | "/BAD/" is refused before anything else is checked |
| `QsoValidation.Qso.Clean` | qsos/models.py:149-184 | the method's error and new columns are those of the specification `CleanSpec` of the old columns |
| `QsoValidation.Qso.NormalizeCallsigns` | qsos/models.py:150-155 | the callsign assignments, stopping at the first invalid one |
| `QsoValidation.Qso.RequireBand` | qsos/models.py:157-165 | the BAND/FREQ check and derivation |
| `QsoValidation.Qso.DeriveBandRx` | qsos/models.py:167-171 | the band_rx derivation, which never raises |
| `QsoValidation.Qso.CheckSatellite` | qsos/models.py:173-180 | the satellite rule, which changes nothing |
| `LegacyUpload.TagPart` | logbook/views.py:25-26 | a definition without ':' is all tag |
| `LegacyUpload.LengthPart` | logbook/views.py:25-27 | a length part exists exactly when the definition holds ':' |
| `LegacyUpload.ScanRecord` | logbook/views.py:18-36 | the re-slicing loop over one chunk computes the specification `ScanFields` |
| `LegacyUpload.ParseLegacyAdif` | logbook/views.py:12-39 | `parse_adif` returns the records of the specification `ParseAdif` |
| `LegacyUpload.Header` | logbook/views.py:20-24 | the tag definition runs from the first '<' to the first '>' after it |
| `LegacyUpload.SizedDefinition` | logbook/views.py:25-27 | `tag:n` names tag and declares length n |
| `LegacyUpload.SizedField` | logbook/views.py:27-36 | a declared length takes exactly that many characters (even '<'), or all that is left; the tag is upper-cased and the value stripped |
| `LegacyUpload.SizedRoundTrip` | logbook/views.py:24-36 | a sized specifier reads back as its tag and stripped value |
| `LegacyUpload.UnsizedField` | logbook/views.py:32-36 | without a declared length the value runs to the next '<' or the end, stripped |
| `LegacyUpload.UnclosedEnds` | logbook/views.py:19-23 | a '<' with no '>' after it ends the record |
| `LegacyUpload.LaterDuplicateWins` | logbook/views.py:36 | of two fields with the same tag, the later one is kept |
| `LegacyUpload.UpperEorIsAField` | logbook/views.py:14-36 | an upper-case `<EOR>` does not end a record: it reads as a field EOR with an empty value |
| `LegacyUpload.SplitsOnLowerEor` | logbook/views.py:14-38 | the text before the first `<eor>` is one record (or none), the rest is parsed on |
| `LegacyUpload.ParsedRecords` | logbook/views.py:14-39 | every record returned has a field, upper-case tags and stripped values |
| `LegacyUpload.Validate` | logbook/views.py:51-63 | the checks, the last a loop returning at the first incomplete record, give the specification `Check` |
| `LegacyUpload.QsosFromAt` | logbook/views.py:66-99 | one QSO per record, in record order |
| `LegacyUpload.AcceptedQsos` | logbook/views.py:50-99 | an accepted upload has records, and each QSO has a call, a mode, and the record's or the form's station callsign |
| `LegacyUpload.AdmitIff` | logbook/views.py:50-63 | an upload is accepted exactly when there are records, each is complete, and each has a station callsign from itself or the form |
| `LegacyUpload.DateTimeRoundTrip` | logbook/views.py:73-83 | a date and time written YYYYMMDD and HHMMSS are read back as they were |
| `LegacyUpload.UploadAdif` | logbook/views.py:43-101 | a rejection writes nothing; otherwise one upload and one QSO per record, and (upload_id, created_qsos) with created_qsos the record count |
| `QrzSync.Latest` | backend/remotes/qrz.py:41-62 | the last fetched record with an id is one of the records, and there is none exactly when no record has the id |
| `QrzSync.UpsertAllAt` | backend/remotes/qrz.py:41-62 | each fetched id has a "qrz" row holding its last fetched values; every other row, in particular of another remote, is unchanged |
| `QrzSync.UpsertIdempotent` | backend/remotes/qrz.py:41-62 | syncing the same records twice changes nothing the second time |
| `QrzSync.SameIdTwice` | backend/remotes/qrz.py:41-62 | two syncs with the same id leave one row holding the values fetched last |
| `QrzSync.PushesAt` | backend/remotes/qrz.py:66-78 | one push per local QSO, in order, carrying its id, callsign, frequency, mode and timestamp |
| `QrzSync.Session.Find` | backend/remotes/qrz.py:43-47 | a row found has exactly the id and remote asked for, so a row of another remote is never returned, and nothing is found only when no row has that id and remote |
| `QrzSync.SyncQsos` | backend/remotes/qrz.py:30-78 | TypeError before any call for a non-Session; otherwise one fetch, the upsert of all records, one commit, and the pushes only when asked |
| `N1mm.ToAdifField` | n1mm.py:4-9 | nothing exactly for missing or empty data; otherwise `<field:n>data` and a newline, with n the data's length |
| `N1mm.ExplicitDataSkipsLookup` | n1mm.py:11-15 | given data, the XML plays no part and the result is `to_adif_field` of it |
| `N1mm.EmitJoined` | n1mm.py:22-49 | the written text is the specifiers of the non-empty fields, each followed by a newline |
| `N1mm.OnlyN1mm` | n1mm.py:25-26 | only a message whose app is N1MM is converted |
| `N1mm.ContactWritten` | n1mm.py:21-52 | a converted contact is date, time, operator, call, mode, freq, freq_rx, rst_sent, rst_rcvd, rx_power, name, qth and comment, the empty ones left out, then "\n<eor>\n" |
| `N1mm.ContactFreqRx` | n1mm.py:38-42 | freq_rx is written exactly when the receive frequency differs from the transmit one |
| `N1mm.FreqRxWritten` | n1mm.py:41-42 | freq_rx is among the written fields exactly when a receive frequency is given |
| `N1mm.ToAdifFieldReadBack` | n1mm.py:8 | a field written by `to_adif_field` is read back by the staging tokenizer as that one field |
| `N1mm.ContactReadBack` | n1mm.py:21-52 | a converted contact is read back by the staging tokenizer as one record of its written fields, when no field holds a marker |
| `XsdCatalog.TypeFromXsd` | scripts/gen_adif_catalog_from_xsd.py:31-48 | the type is one of the six catalog types, with an enum exactly for "enum", and that enum is Y, N |
| `XsdCatalog.TypeFromXsdTable` | scripts/gen_adif_catalog_from_xsd.py:37-48 | Date, Time, Boolean and String map to date, time, enum Y/N and str |
| `XsdCatalog.TypeFromXsdNumbers` | scripts/gen_adif_catalog_from_xsd.py:41-44 | Integer and PositiveInteger map to int, Number and NumberGE0 to float |
| `XsdCatalog.TypeFromXsdIgnoresCase` | scripts/gen_adif_catalog_from_xsd.py:36 | the case of the type name makes no difference |
| `XsdCatalog.LocalName` | scripts/gen_adif_catalog_from_xsd.py:66 | `split(":")[-1]` is the suffix after the last ':', holding no ':' |
| `XsdCatalog.PrefixDropped` | scripts/gen_adif_catalog_from_xsd.py:66 | a namespace prefix is dropped whatever it is |
| `XsdCatalog.PrefixedEntriesUnreachable` | scripts/gen_adif_catalog_from_xsd.py:81-82 | the "xs:unsignedint" and "xs:int" entries of `type_from_xsd` (line 41) can never match a type name `main` passes |
| `XsdCatalog.LabelizeAt` | scripts/gen_adif_catalog_from_xsd.py:27-28 | each '_' becomes a space, a letter after a letter is lower-cased and any other upper-cased |
| `XsdCatalog.LabelizeMyName` | scripts/gen_adif_catalog_from_xsd.py:27-28 | MY_NAME is labelled "My Name" |
| `XsdCatalog.CollectSimpleTypes` | scripts/gen_adif_catalog_from_xsd.py:56-66 | the loop fills `simple_types` with the specification's aliases |
| `XsdCatalog.WriteEntry` | scripts/gen_adif_catalog_from_xsd.py:96-101 | one entry is written with its type and label, and "enum" only when non-empty |
| `XsdCatalog.CollectRecordFields` | scripts/gen_adif_catalog_from_xsd.py:71-101 | the RECORD loop gives the specification `AddRecords` |
| `XsdCatalog.CollectHeaderFields` | scripts/gen_adif_catalog_from_xsd.py:104-122 | the HEADER loop, skipping tags already present, gives the specification `AddHeaders` |
| `XsdCatalog.GenerateCatalog` | scripts/gen_adif_catalog_from_xsd.py:51-122 | `main`'s three loops give the specification `XsdToCatalog` |
| `XsdCatalog.CatalogWellFormed` | scripts/gen_adif_catalog_from_xsd.py:96-122 | every entry is labelled from its tag, has one of the six types, and carries an enum exactly for "enum" |
| `XsdCatalog.AddRecordsAt` | scripts/gen_adif_catalog_from_xsd.py:71-101 | among RECORD fields the last one with a tag decides its entry; other entries stay |
| `XsdCatalog.AddHeadersAt` | scripts/gen_adif_catalog_from_xsd.py:104-122 | HEADER fields never override, and a new tag gets the first HEADER field's entry |
| `XsdCatalog.RecordBeforeHeader` | scripts/gen_adif_catalog_from_xsd.py:71-122 | a RECORD field wins over any HEADER field of the same tag |
| `XsdCatalog.AliasToBase` | scripts/gen_adif_catalog_from_xsd.py:80-85 | a str type naming a simple type is re-mapped through the alias's base |
| `XsdCatalog.AliasResolvedOnce` | scripts/gen_adif_catalog_from_xsd.py:83-85 | the alias is followed only once: an alias of a str alias stays str |

## Left out

- Files and hashing: `gzip_bytes` and `compute_sha256` in `logbook/imports.py`, the JSON file read of `_load_catalog_from_json` (the loaded entries are an input), and the `json.dump` of the generated catalog (its key order and formatting) are I/O and library calls.
- XML: the ElementTree parsing in `n1mm.py` and the schema walk of `scripts/gen_adif_catalog_from_xsd.py`.
  - The XML document is given as the text of each element, so a missing element reads as no text rather than raising AttributeError.
  - The schema is given as three lists in document order: named simple types, RECORD fields and HEADER fields. Several RECORD or HEADER elements are taken as one list each.
- HTTP, the database and the web framework: `fetch_qsos` and `push_qso` are a client object that answers with fixed records and logs calls.
  - Tables are sequences and maps; transactions are "on failure, nothing changes".
  - `auto_now` timestamps, the query order of staged rows and local QSOs, and the request/response objects are not modelled.
  - The upload's `decode("utf-8", errors="ignore")` is taken as already-decoded text.
- QrzSync.SyncQsos: every fetched record carries an integer id in the model (`data.get("id")` may be None in Python).
  - The commit happening before the pushes is the order of the method body, not a stated postcondition.
- Floating point:
  - `freq_to_adif` in `n1mm.py` is a function parameter.
  - The float branch of `normalize_extra_value` is a function parameter.
  - `float(freq_mhz)` in `_derive_band_from_freq` is exact real arithmetic, so rounding at a range edge may differ from the program.
  - Decimal frequencies are reals read from plain decimal literals; Decimal's exponent, infinity and NaN spellings are not modelled.
- `strptime` leniency: dates and times are strict fixed-width digit strings with calendar and clock checks. Python also accepts some variable-width spellings, such as "12345" under `%H%M%S`, which the model refuses.
- AdifRecords.MatchAtShape: tag names are ASCII `[A-Za-z0-9_]`. Under `re.IGNORECASE` Python's class also admits 'İ' (U+0130), 'ı' (U+0131), 'ſ' (U+017F) and the Kelvin sign 'K' (U+212A), so `"<ſ:1>x<EOR>"` yields `{"S": "x"}` in Python but `{}` in the model; the tokenizer members (`AdifRecords.ScanRecord`, `AdifRecords.ParseAdifRecords`) share this restriction.
- Text: `strip`, `upper`, `lower`, `title`, `isdigit` and `isalpha` are modelled on ASCII, with Python's whitespace set for `strip`. `int()` is modelled for plain signed literals, without underscores.
- `datetime.fromisoformat` in `contact_to_adif` is modelled as the date and time it reads.
- Storage:
  - `LogEntry.save()` in `finalize_import` is a save function parameter; `AdifStaging.SavedEntryClean` instantiates it with `clean()`.
  - `full_clean`'s max_length checks and the ORM field declarations are not modelled.
- N1mm.OnlyN1mm: states only the app check; what a converted contact holds is stated by `N1mm.ContactWritten` and `N1mm.ContactReadBack`.
- AdifCatalog.NormalizeIdempotent: does not cover float tags, whose formatting is a parameter.
