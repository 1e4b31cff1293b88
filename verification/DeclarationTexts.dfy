/**
 * The guided declaration on the panel's two texts themselves: which texts are shown, what is shown for them,
 * which fault is reported, and what is written, without going through the reader's own steps.
 */
module DeclarationTexts {
  import opened Wrappers
  import opened GuidedDeclaration

  // ----- names and forms

  /** What a destination carries: a description, which may be a constant, an instant, or an observation. */
  datatype Role = Description | Instant | Observation | NoDestination

  function RoleOf(key: Key): Role {
    match key
    case SchemaVersion => Description
    case Venue => Description
    case Symbol => Description
    case Adjustment => Description
    case Source => Description
    case Revision => Description
    case IntervalStart => Instant
    case IntervalEnd => Instant
    case AvailableAt => Instant
    case Open => Observation
    case High => Observation
    case Low => Observation
    case Close => Observation
    case Volume => Observation
    case SourceSequence => Observation
    case _ => NoDestination
  }

  lemma DestinationsHaveRoles(key: Key)
    requires key in StrictDestinations()
    ensures RoleOf(key) != NoDestination
  {
  }

  lemma RolesAreDestinations(key: Key)
    requires RoleOf(key) != NoDestination
    ensures key in StrictDestinations()
  {
  }

  lemma DescriptionRoles(key: Key)
    ensures key in ConstantDestinations() <==> RoleOf(key) == Description
  {
  }

  lemma InstantRoles(key: Key)
    ensures key in TimestampDestinations() <==> RoleOf(key) == Instant
  {
  }

  lemma RolesExactly(key: Key)
    ensures key in StrictDestinations() <==> RoleOf(key) != NoDestination
    ensures key in ConstantDestinations() <==> RoleOf(key) == Description
    ensures key in TimestampDestinations() <==> RoleOf(key) == Instant
  {
    hide *;
    if key in StrictDestinations() {
      DestinationsHaveRoles(key);
    }
    if RoleOf(key) != NoDestination {
      RolesAreDestinations(key);
    }
    DescriptionRoles(key);
    InstantRoles(key);
  }

  /** What a time is written against, and how precisely. */
  datatype Zone = Utc | Offset | Naive

  datatype Precision = Microseconds | Seconds

  function FormText(zone: Zone, precision: Precision): string {
    (match zone case Utc => "utc" case Offset => "offset" case Naive => "naive") + "-"
    + (match precision case Microseconds => "microseconds" case Seconds => "seconds")
  }

  ghost predicate IsForm(text: string) { exists zone, precision :: text == FormText(zone, precision) }

  lemma FormTexts(precision: Precision)
    ensures FormText(Utc, precision)
      == match precision case Microseconds => "utc-microseconds" case Seconds => "utc-seconds"
    ensures FormText(Offset, precision)
      == match precision case Microseconds => "offset-microseconds" case Seconds => "offset-seconds"
    ensures FormText(Naive, precision)
      == match precision case Microseconds => "naive-microseconds" case Seconds => "naive-seconds"
  {
  }

  lemma FormsExactly(text: string)
    ensures text in TimeFormatIds() <==> IsForm(text)
  {
    FormTexts(Microseconds);
    FormTexts(Seconds);
    hide FormText;
    var ids := TimeFormatIds();
    assert ids[0] == FormText(Utc, Microseconds) && ids[1] == FormText(Utc, Seconds);
    assert ids[2] == FormText(Offset, Microseconds) && ids[3] == FormText(Offset, Seconds);
    assert ids[4] == FormText(Naive, Microseconds) && ids[5] == FormText(Naive, Seconds);
    hide TimeFormatIds;
    if zone, precision :| text == FormText(zone, precision) {
      match zone {
        case Utc => assert text == ids[if precision == Microseconds then 0 else 1];
        case Offset => assert text == ids[if precision == Microseconds then 2 else 3];
        case Naive => assert text == ids[if precision == Microseconds then 4 else 5];
      }
    }
  }

  ghost predicate IsColumnEntry(e: Entry) { RoleOf(e.key) != NoDestination && e.value.Text? && e.value.text != "" }

  ghost predicate IsConstantEntry(e: Entry) { RoleOf(e.key) == Description && e.value.Text? }

  ghost predicate IsFormatEntry(e: Entry) { RoleOf(e.key) == Instant && e.value.Text? && IsForm(e.value.text) }

  // ----- what a text states

  ghost predicate IsSection(key: Key) { key.Columns? || key.Constants? || key.Timezone? || key.Formats? }

  /** Blank, or one JSON object. */
  ghost predicate IsOneObject(text: Document) { text.Blank? || text.Parsed? }

  ghost predicate States(text: Document, key: Key, value: Json) { text.Parsed? && Entry(key, value) in text.entries }

  /** Under the key stands an object with this entry. */
  ghost predicate StatesIn(text: Document, key: Key, e: Entry) {
    exists value :: States(text, key, value) && value.Object? && e in value.entries
  }

  /** Some entry under the key has this name. */
  ghost predicate IsNamed(text: Document, key: Key, name: Key) { exists e :: StatesIn(text, key, e) && e.key == name }

  ghost predicate HasOnlySections(text: Document) {
    text.Parsed? ==> forall e :: e in text.entries ==> IsSection(e.key)
  }

  /** An object stands under the key, if anything does. */
  ghost predicate HoldsObject(text: Document, key: Key) { forall value :: States(text, key, value) ==> value.Object? }

  ghost predicate ShowsColumns(mapping: Document) {
    HoldsObject(mapping, Columns) && forall e :: StatesIn(mapping, Columns, e) ==> IsColumnEntry(e)
  }

  /** A constant of a destination that no column is named for. */
  ghost predicate IsFreshConstant(mapping: Document, e: Entry) {
    IsConstantEntry(e) && !IsNamed(mapping, Columns, e.key)
  }

  ghost predicate ShowsConstants(mapping: Document) {
    HoldsObject(mapping, Constants) && forall e :: StatesIn(mapping, Constants, e) ==> IsFreshConstant(mapping, e)
  }

  ghost predicate ShowsTimezone(time: Document) { forall value :: States(time, Timezone, value) ==> value.Text? }

  ghost predicate ShowsFormats(time: Document) {
    HoldsObject(time, Formats) && forall e :: StatesIn(time, Formats, e) ==> IsFormatEntry(e)
  }

  /** The two texts can be shown as these controls. */
  ghost predicate AreShowable(mapping: Document, time: Document) {
    && IsOneObject(mapping) && IsOneObject(time) && HasOnlySections(mapping) && HasOnlySections(time)
    && ShowsColumns(mapping) && ShowsConstants(mapping) && ShowsTimezone(time) && ShowsFormats(time)
  }

  // ----- entries

  lemma {:induction false} LookedUp(entries: seq<Entry>, key: Key, value: Json)
    requires DistinctKeys(entries)
    ensures Lookup(entries, key) == Some(value) <==> Entry(key, value) in entries
    ensures key in Keys(entries) <==> exists e :: e in entries && e.key == key
  {
    if entries != [] {
      LookedUp(entries[1..], key, value);
      assert entries == [entries[0]] + entries[1..];
      assert forall e :: e in entries <==> e == entries[0] || e in entries[1..];
    }
  }

  lemma EntryIs(e: Entry)
    ensures IsColumn(e) <==> IsColumnEntry(e)
    ensures IsConstant(e) <==> IsConstantEntry(e)
    ensures IsFormat(e) <==> IsFormatEntry(e)
  {
    RolesExactly(e.key);
    if e.value.Text? {
      FormsExactly(e.value.text);
    }
    hide StrictDestinations, ConstantDestinations, TimestampDestinations, TimeFormatIds, IsForm, RoleOf;
  }

  lemma InRest(entries: seq<Entry>)
    requires entries != []
    ensures forall e :: e in entries <==> e == entries[0] || e in entries[1..]
  {
  }

  lemma {:induction false} EntriesAre(entries: seq<Entry>)
    ensures AreColumns(entries) <==> forall e :: e in entries ==> IsColumnEntry(e)
    ensures AreConstants(entries) <==> forall e :: e in entries ==> IsConstantEntry(e)
    ensures AreFormats(entries) <==> forall e :: e in entries ==> IsFormatEntry(e)
  {
    hide IsColumn, IsColumnEntry, IsConstant, IsConstantEntry, IsFormat, IsFormatEntry;
    if entries != [] {
      EntriesAre(entries[1..]);
      EntryIs(entries[0]);
      InRest(entries);
    }
  }

  lemma {:induction false} StraysAre(entries: seq<Entry>, key: Key)
    ensures key in Strays(entries) <==> !IsSection(key) && exists e :: e in entries && e.key == key
  {
    if entries != [] {
      StraysAre(entries[1..], key);
      assert forall e :: e in entries <==> e == entries[0] || e in entries[1..];
    }
  }

  /** The object under a key, when nothing else stands there, holds the entries the text states in it. */
  lemma SectionExactly(text: Document, key: Key)
    requires IsDocument(text) && IsOneObject(text)
    ensures NamedObject(EntriesOf(text), key).Success? <==> HoldsObject(text, key)
    ensures NamedObject(EntriesOf(text), key).Success? ==>
      forall e :: e in NamedObject(EntriesOf(text), key).value <==> StatesIn(text, key, e)
  {
    hide DistinctKeys, InnerDistinct, Lookup, Keys;
    var entries := EntriesOf(text);
    assert DistinctKeys([]) by { NothingRepeats(); }
    forall value ensures Lookup(entries, key) == Some(value) <==> States(text, key, value) {
      LookedUp(entries, key, value);
    }
  }

  lemma NothingRepeats()
    ensures DistinctKeys([])
  {
  }

  lemma OnlySectionsExactly(text: Document)
    requires IsOneObject(text)
    ensures Strays(EntriesOf(text)) == [] <==> HasOnlySections(text)
  {
    hide Strays, IsSection;
    var strays := Strays(EntriesOf(text));
    forall key ensures key in strays <==> !IsSection(key) && exists e :: e in EntriesOf(text) && e.key == key {
      StraysAre(EntriesOf(text), key);
    }
    if strays != [] {
      assert strays[0] in strays;
    }
    if e :| e in EntriesOf(text) && !IsSection(e.key) {
      assert e.key in strays;
    }
  }

  /** The first faults looked for, before any entry is read. */
  ghost predicate HasParts(mapping: Document, time: Document) {
    && IsOneObject(mapping) && IsOneObject(time) && HasOnlySections(mapping) && HasOnlySections(time)
    && HoldsObject(mapping, Columns) && HoldsObject(mapping, Constants)
  }

  lemma PartsExactly(mapping: Document, time: Document)
    requires IsDocument(mapping) && IsDocument(time)
    ensures PartsOf(mapping, time).Success? <==> HasParts(mapping, time)
    ensures PartsOf(mapping, time).Success? ==>
      PartsOf(mapping, time).value
        == Parts(NamedObject(EntriesOf(mapping), Columns).value, NamedObject(EntriesOf(mapping), Constants).value,
                 Lookup(EntriesOf(time), Timezone), NamedObject(EntriesOf(time), Formats))
  {
    hide IsDocument, NamedObject, HoldsObject, HasOnlySections, Strays, Lookup;
    if IsOneObject(mapping) && IsOneObject(time) {
      SectionExactly(mapping, Columns);
      SectionExactly(mapping, Constants);
      OnlySectionsExactly(mapping);
      OnlySectionsExactly(time);
    }
  }

  lemma ColumnsExactly(mapping: Document)
    requires IsDocument(mapping) && IsOneObject(mapping) && HoldsObject(mapping, Columns)
    ensures NamedObject(EntriesOf(mapping), Columns).Success?
    ensures AreColumns(NamedObject(EntriesOf(mapping), Columns).value) <==> ShowsColumns(mapping)
  {
    hide NamedObject, IsColumnEntry, IsDocument, AreColumns;
    SectionExactly(mapping, Columns);
    EntriesAre(NamedObject(EntriesOf(mapping), Columns).value);
  }

  lemma KeysExactly(text: Document, key: Key, name: Key)
    requires IsDocument(text) && IsOneObject(text) && HoldsObject(text, key)
    ensures NamedObject(EntriesOf(text), key).Success?
    ensures name in Keys(NamedObject(EntriesOf(text), key).value) <==> IsNamed(text, key, name)
  {
    SectionExactly(text, key);
    SectionIsDistinct(text, key);
    hide NamedObject, DistinctKeys, InnerDistinct, Keys, StatesIn;
    LookedUp(NamedObject(EntriesOf(text), key).value, name, OtherValue);
  }

  lemma SectionIsDistinct(text: Document, key: Key)
    requires IsDocument(text) && IsOneObject(text) && NamedObject(EntriesOf(text), key).Success?
    ensures DistinctKeys(NamedObject(EntriesOf(text), key).value)
  {
    hide NamedObject, DistinctKeys, InnerDistinct;
    EmptyIsDistinct();
    PartIsObject(EntriesOf(text), key);
  }

  /** No destination has both a column and a constant. */
  ghost predicate AreApart(mapping: Document) {
    forall name :: !(IsNamed(mapping, Columns, name) && IsNamed(mapping, Constants, name))
  }

  lemma ApartExactly(mapping: Document)
    requires IsDocument(mapping) && IsOneObject(mapping)
    requires HoldsObject(mapping, Columns) && HoldsObject(mapping, Constants)
    ensures NamedObject(EntriesOf(mapping), Columns).Success? && NamedObject(EntriesOf(mapping), Constants).Success?
    ensures var columns, constants := NamedObject(EntriesOf(mapping), Columns).value,
                                      NamedObject(EntriesOf(mapping), Constants).value;
      AreApart(mapping) <==> Keys(columns) !! Keys(constants)
  {
    hide *;
    KeysExactly(mapping, Columns, Columns);
    KeysExactly(mapping, Constants, Columns);
    var columns := NamedObject(EntriesOf(mapping), Columns).value;
    var constants := NamedObject(EntriesOf(mapping), Constants).value;
    forall name ensures name in Keys(columns) <==> IsNamed(mapping, Columns, name) {
      KeysExactly(mapping, Columns, name);
    }
    forall name ensures name in Keys(constants) <==> IsNamed(mapping, Constants, name) {
      KeysExactly(mapping, Constants, name);
    }
    NamesApart(mapping, Keys(columns), Keys(constants));
  }

  lemma NamesApart(mapping: Document, columns: set<Key>, constants: set<Key>)
    requires forall name :: name in columns <==> IsNamed(mapping, Columns, name)
    requires forall name :: name in constants <==> IsNamed(mapping, Constants, name)
    ensures AreApart(mapping) <==> columns !! constants
  {
    hide IsNamed;
    if !(columns !! constants) {
      var name :| name in columns && name in constants;
    }
  }

  lemma ConstantsExactly(mapping: Document)
    requires IsDocument(mapping) && IsOneObject(mapping)
    requires HoldsObject(mapping, Columns) && HoldsObject(mapping, Constants)
    ensures NamedObject(EntriesOf(mapping), Columns).Success? && NamedObject(EntriesOf(mapping), Constants).Success?
    ensures var columns, constants := NamedObject(EntriesOf(mapping), Columns).value,
                                      NamedObject(EntriesOf(mapping), Constants).value;
      AreConstants(constants) && Keys(columns) !! Keys(constants) <==> ShowsConstants(mapping)
  {
    SectionExactly(mapping, Constants);
    ApartExactly(mapping);
    hide NamedObject, IsConstantEntry, IsDocument, AreConstants, Keys, StatesIn, EntriesOf, HoldsObject;
    EntriesAre(NamedObject(EntriesOf(mapping), Constants).value);
    hide AreColumns, AreFormats, IsColumnEntry, IsFormatEntry;
  }

  lemma TimeExactly(time: Document)
    requires IsDocument(time) && IsOneObject(time)
    ensures var timezone, formats := Lookup(EntriesOf(time), Timezone), NamedObject(EntriesOf(time), Formats);
      && ((timezone.Some? ==> timezone.value.Text?) <==> ShowsTimezone(time))
      && (formats.Success? && AreFormats(formats.value) <==> ShowsFormats(time))
  {
    SectionExactly(time, Formats);
    var formats := NamedObject(EntriesOf(time), Formats);
    if formats.Success? {
      EntriesAre(formats.value);
    }
    forall value ensures Lookup(EntriesOf(time), Timezone) == Some(value) <==> States(time, Timezone, value) {
      assert DistinctKeys([]) by { NothingRepeats(); }
      LookedUp(EntriesOf(time), Timezone, value);
    }
    hide NamedObject, IsFormatEntry, IsDocument, AreFormats, Lookup, StatesIn;
  }

  /**
   * The controls show exactly the declarations of which both texts are blank or one object, with none but the
   * four sections; whose columns and constants are objects of names to text, columns not empty, constants only
   * of descriptions and of no destination that has a column; whose timezone is text; and whose formats are
   * accepted forms of instants.
   */
  lemma ReadableExactly(mapping: Document, time: Document)
    requires IsDocument(mapping) && IsDocument(time)
    ensures Reading(mapping, time).Success? <==> AreShowable(mapping, time)
  {
    PartsExactly(mapping, time);
    ReadingIsExact(mapping, time);
    hide IsDocument, PartsOf, Reading, PartsReading, NamedObject, Lookup, Shown, AreColumns, AreConstants, AreFormats,
         Keys, HasOnlySections, ShowsTimezone;
    if HasParts(mapping, time) {
      ColumnsExactly(mapping);
      ConstantsExactly(mapping);
      TimeExactly(time);
      ReadingHasParts(mapping, time);
    }
  }

  // ----- what is shown

  ghost predicate AreTexts(entries: seq<Entry>) { forall e :: e in entries ==> e.value.Text? }

  lemma TextAtExactly(entries: seq<Entry>, f: Key, text: string)
    requires DistinctKeys(entries) && AreTexts(entries)
    ensures Entry(f, Text(text)) in entries <==> f in Keys(entries) && TextAt(entries, f) == text
  {
    hide DistinctKeys, Lookup, Keys;
    LookedUp(entries, f, Text(text));
    if f in Keys(entries) {
      var e :| e in entries && e.key == f;
      LookedUp(entries, f, e.value);
      assert e == Entry(f, e.value);
    }
  }

  lemma PartsAreTexts(parts: Parts)
    requires IsShowable(parts)
    ensures AreTexts(parts.columns) && AreTexts(parts.constants) && AreTexts(parts.formats.value)
  {
    hide AreColumns, AreConstants, AreFormats, Keys;
    EntriesAre(parts.columns);
    EntriesAre(parts.constants);
    EntriesAre(parts.formats.value);
  }

  lemma ShownParts(parts: Parts, f: Key, text: string)
    requires PartsAreObjects(parts) && IsShowable(parts)
    ensures var shown := Shown(parts);
      && (f in shown.choices && shown.choices[f] == Column(text) <==> Entry(f, Text(text)) in parts.columns)
      && (f in shown.choices && shown.choices[f] == Constant(text) <==> Entry(f, Text(text)) in parts.constants)
      && (f in shown.formats && shown.formats[f] == text <==> Entry(f, Text(text)) in parts.formats.value)
  {
    PartsAreTexts(parts);
    hide AreColumns, AreConstants, AreFormats, Keys, DistinctKeys, TextAt, AreTexts;
    TextAtExactly(parts.columns, f, text);
    TextAtExactly(parts.constants, f, text);
    TextAtExactly(parts.formats.value, f, text);
  }

  /** These are the four parts of the two texts, and they were shown. */
  ghost predicate AreRead(mapping: Document, time: Document, parts: Parts) {
    && PartsAreObjects(parts) && IsShowable(parts) && Reading(mapping, time) == Success(Shown(parts))
    && NamedObject(EntriesOf(mapping), Columns) == Success(parts.columns)
    && NamedObject(EntriesOf(mapping), Constants) == Success(parts.constants)
    && NamedObject(EntriesOf(time), Formats) == parts.formats && Lookup(EntriesOf(time), Timezone) == parts.timezone
  }

  lemma ReadPartsExactly(mapping: Document, time: Document) returns (parts: Parts)
    requires IsDocument(mapping) && IsDocument(time) && Reading(mapping, time).Success?
    ensures IsOneObject(mapping) && IsOneObject(time) && AreRead(mapping, time, parts)
  {
    PartsExactly(mapping, time);
    ReadingIsExact(mapping, time);
    ReadingHasParts(mapping, time);
    ReadParts(mapping, time);
    ReadPartsAreObjects(mapping, time);
    hide IsDocument, PartsOf, Reading, PartsReading, NamedObject, Lookup, Shown, AreColumns, AreConstants, AreFormats,
         Keys, HasOnlySections, ShowsTimezone, DistinctKeys;
    parts := PartsOf(mapping, time).value;
  }

  lemma TimezoneExactly(parts: Parts, entries: seq<Entry>, text: string)
    requires DistinctKeys(entries) && Lookup(entries, Timezone) == parts.timezone
    requires parts.timezone.Some? ==> parts.timezone.value.Text?
    ensures TimezoneText(parts) == text <==>
      Entry(Timezone, Text(text)) in entries || (text == "" && forall e :: e in entries ==> e.key != Timezone)
  {
    hide DistinctKeys, Lookup, Keys;
    LookedUp(entries, Timezone, Text(text));
    if parts.timezone.Some? {
      LookedUp(entries, Timezone, parts.timezone.value);
    }
  }

  lemma StatedParts(mapping: Document, time: Document, parts: Parts, e: Entry)
    requires IsDocument(mapping) && IsDocument(time) && IsOneObject(mapping) && IsOneObject(time)
    requires AreRead(mapping, time, parts)
    ensures parts.formats.Success?
    ensures e in parts.columns <==> StatesIn(mapping, Columns, e)
    ensures e in parts.constants <==> StatesIn(mapping, Constants, e)
    ensures e in parts.formats.value <==> StatesIn(time, Formats, e)
  {
    SectionExactly(mapping, Columns);
    SectionExactly(mapping, Constants);
    SectionExactly(time, Formats);
    hide IsDocument, Reading, NamedObject, Lookup, Shown, PartsAreObjects, StatesIn, AreColumns, AreConstants,
         AreFormats, Keys;
  }

  lemma ShownTimezoneExactly(time: Document, parts: Parts, text: string)
    requires IsDocument(time) && IsOneObject(time) && Lookup(EntriesOf(time), Timezone) == parts.timezone
    requires parts.timezone.Some? ==> parts.timezone.value.Text?
    ensures TimezoneText(parts) == text <==> States(time, Timezone, Text(text)) || (text == "" && HasNo(time, Timezone))
  {
    assert DistinctKeys(EntriesOf(time)) by { NothingRepeats(); }
    TimezoneExactly(parts, EntriesOf(time), text);
    assert forall value :: States(time, Timezone, value) <==> Entry(Timezone, value) in EntriesOf(time);
    forall e | e in EntriesOf(time) && e.key == Timezone ensures States(time, Timezone, e.value) {
      assert e == Entry(Timezone, e.value);
    }
    hide IsDocument, Lookup, DistinctKeys, TimezoneText;
  }

  ghost predicate HasNo(text: Document, key: Key) { forall value :: !States(text, key, value) }

  /**
   * What is shown is what the two texts state: a column for a destination exactly where the mapping text has
   * that entry among its columns, and so for constants and formats; and the timezone, or none.
   */
  lemma ShownExactly(mapping: Document, time: Document, f: Key, text: string)
    requires IsDocument(mapping) && IsDocument(time) && Reading(mapping, time).Success?
    ensures var shown := Reading(mapping, time).value;
      && ((f in shown.choices && shown.choices[f] == Column(text))
            <==> StatesIn(mapping, Columns, Entry(f, Text(text))))
      && ((f in shown.choices && shown.choices[f] == Constant(text))
            <==> StatesIn(mapping, Constants, Entry(f, Text(text))))
      && ((f in shown.formats && shown.formats[f] == text) <==> StatesIn(time, Formats, Entry(f, Text(text))))
      && (shown.timezone == text <==> States(time, Timezone, Text(text)) || (text == "" && HasNo(time, Timezone)))
  {
    var parts := ReadPartsExactly(mapping, time);
    assert Shown(parts).timezone == TimezoneText(parts);
    hide IsDocument, NamedObject, Lookup, Shown, PartsAreObjects, StatesIn, AreColumns, AreConstants,
         AreFormats, Keys, HasNo, States, TimezoneText, Reading;
    ShownParts(parts, f, text);
    StatedParts(mapping, time, parts, Entry(f, Text(text)));
    ShownTimezoneExactly(time, parts, text);
  }

  // ----- what is written

  lemma {:induction false} SelectedIs(fields: seq<Key>, keep: Key -> bool, text: Key -> string, e: Entry)
    ensures e in Selected(fields, keep, text) <==> e.key in fields && keep(e.key) && e.value == Text(text(e.key))
  {
    if fields != [] {
      SelectedIs(fields[1..], keep, text, e);
      InCons(fields);
    }
  }

  /** A derived availability policy computes this destination itself. */
  ghost predicate IsLeftOut(f: Key, policy: string) {
    f == AvailableAt && policy == "ea.availability.simulated-bar-end-plus-latency.v1"
  }

  lemma TwoStated(a: Entry, b: Entry, key: Key, value: Json)
    ensures States(Parsed([a, b]), key, value) <==> Entry(key, value) == a || Entry(key, value) == b
  {
  }

  lemma WrittenEntries(state: State, policy: string, e: Entry)
    ensures e in ColumnsOf(state, policy) <==>
      && RoleOf(e.key) != NoDestination && !IsLeftOut(e.key, policy) && e.key in state.choices
      && state.choices[e.key].Column? && state.choices[e.key].value != "" && e.value == Text(state.choices[e.key].value)
    ensures e in ConstantsOf(state, policy) <==>
      && RoleOf(e.key) != NoDestination && !IsLeftOut(e.key, policy) && e.key in state.choices
      && state.choices[e.key].Constant? && e.value == Text(state.choices[e.key].value)
    ensures e in FormatsOf(state, policy) <==>
      && RoleOf(e.key) == Instant && !IsLeftOut(e.key, policy) && e.key in state.formats
      && state.formats[e.key] != "" && e.value == Text(state.formats[e.key])
  {
    RolesExactly(e.key);
    hide StrictDestinations, TimestampDestinations, ConstantDestinations, RoleOf, Selected;
    SelectedIs(StrictDestinations(), IsColumnOf(state, policy), ChoiceText(state), e);
    SelectedIs(StrictDestinations(), IsConstantOf(state, policy), ChoiceText(state), e);
    SelectedIs(TimestampDestinations(), IsFormatOf(state, policy), FormatText(state), e);
  }

  lemma ObjectStates(a: Entry, b: Entry, inner: seq<Entry>, e: Entry)
    requires a.value == Object(inner) && a.key != b.key
    ensures StatesIn(Parsed([a, b]), a.key, e) <==> e in inner
    ensures StatesIn(Parsed([b, a]), a.key, e) <==> e in inner
  {
    forall value ensures States(Parsed([a, b]), a.key, value) ==> value == Object(inner) {
      TwoStated(a, b, a.key, value);
    }
    forall value ensures States(Parsed([b, a]), a.key, value) ==> value == Object(inner) {
      TwoStated(b, a, a.key, value);
    }
    assert States(Parsed([a, b]), a.key, Object(inner)) && States(Parsed([b, a]), a.key, Object(inner));
  }

  /**
   * What is written is what was chosen, whatever the state: each column that is named, each constant even while
   * it is empty, each form that is chosen, and the timezone; of the destinations, except the one the policy
   * computes. No other section and no other destination is written.
   */
  lemma WrittenExactly(state: State, policy: string, e: Entry)
    ensures var mapping, time := MappingDocument(state, policy), TimeDocument(state, policy);
      && (StatesIn(mapping, Columns, e) <==>
            && RoleOf(e.key) != NoDestination && !IsLeftOut(e.key, policy) && e.key in state.choices
            && state.choices[e.key].Column? && state.choices[e.key].value != ""
            && e.value == Text(state.choices[e.key].value))
      && (StatesIn(mapping, Constants, e) <==>
            && RoleOf(e.key) != NoDestination && !IsLeftOut(e.key, policy) && e.key in state.choices
            && state.choices[e.key].Constant? && e.value == Text(state.choices[e.key].value))
      && (StatesIn(time, Formats, e) <==>
            && RoleOf(e.key) == Instant && !IsLeftOut(e.key, policy) && e.key in state.formats
            && state.formats[e.key] != "" && e.value == Text(state.formats[e.key]))
      && (States(time, Timezone, e.value) <==> e.value == Text(state.timezone))
      && (States(mapping, e.key, e.value) ==> e.key == Columns || e.key == Constants)
      && (States(time, e.key, e.value) ==> e.key == Timezone || e.key == Formats)
  {
    WrittenEntries(state, policy, e);
    hide ColumnsOf, ConstantsOf, FormatsOf, RoleOf, StatesIn, IsLeftOut;
    var a, b := Entry(Columns, Object(ColumnsOf(state, policy))), Entry(Constants, Object(ConstantsOf(state, policy)));
    var c, d := Entry(Timezone, Text(state.timezone)), Entry(Formats, Object(FormatsOf(state, policy)));
    ObjectStates(a, b, ColumnsOf(state, policy), e);
    ObjectStates(b, a, ConstantsOf(state, policy), e);
    ObjectStates(d, c, FormatsOf(state, policy), e);
    TwoStated(c, d, Timezone, e.value);
    TwoStated(a, b, e.key, e.value);
    TwoStated(c, d, e.key, e.value);
  }

  /** A destination is still undeclared exactly while neither a column nor a constant has a value for it. */
  lemma UndeclaredExactly(state: State, policy: string, f: Key)
    ensures f in Undeclared(state, policy) <==>
      && RoleOf(f) != NoDestination && !IsLeftOut(f, policy)
      && !(f in state.choices && state.choices[f].value != "")
  {
    RolesExactly(f);
  }

  // ----- the fault that is reported

  /** Entry `i` under the key is the first that fails a test. */
  ghost predicate IsFirstBad(text: Document, key: Key, i: nat, e: Entry, good: Entry -> bool) {
    exists entries :: States(text, key, Object(entries)) && IsFirstBadOf(entries, i, e, good)
  }

  ghost predicate IsFirstBadOf(entries: seq<Entry>, i: nat, e: Entry, good: Entry -> bool) {
    i < |entries| && entries[i] == e && !good(e) && forall j :: 0 <= j < i ==> good(entries[j])
  }

  ghost predicate HasBadColumn(mapping: Document, e: Entry) {
    exists i: nat :: IsFirstBad(mapping, Columns, i, e, IsColumnEntry)
  }

  ghost function FreshConstants(mapping: Document): Entry -> bool { e => IsFreshConstant(mapping, e) }

  ghost predicate HasBadConstant(mapping: Document, e: Entry) {
    exists i: nat :: IsFirstBad(mapping, Constants, i, e, FreshConstants(mapping))
  }

  ghost predicate HasBadFormat(time: Document, e: Entry) {
    exists i: nat :: IsFirstBad(time, Formats, i, e, IsFormatEntry)
  }

  ghost predicate AreStrays(keys: seq<Key>, mapping: Document, time: Document) {
    forall key :: key in keys <==> !IsSection(key) && !(HasNo(mapping, key) && HasNo(time, key))
  }

  /** The fault is in the two texts, and nothing looked at before it is at fault. */
  ghost predicate IsFirstFault(mapping: Document, time: Document, problem: Problem) {
    match problem
    case InvalidJson => mapping.Malformed? || (IsOneObject(mapping) && time.Malformed?)
    case NotOneObject => mapping.NotAnObject? || (IsOneObject(mapping) && time.NotAnObject?)
    case StrayKeys(keys) =>
      IsOneObject(mapping) && IsOneObject(time) && keys != [] && AreStrays(keys, mapping, time)
    case NotNamesToText(key) =>
      && IsOneObject(mapping) && IsOneObject(time) && HasOnlySections(mapping) && HasOnlySections(time)
      && (|| (key == Columns && !HoldsObject(mapping, Columns))
          || (key == Constants && HoldsObject(mapping, Columns) && !HoldsObject(mapping, Constants))
          || (key == Formats && HasParts(mapping, time) && ShowsColumns(mapping) && ShowsConstants(mapping)
              && ShowsTimezone(time) && !HoldsObject(time, Formats)))
    case NotADestination(f) =>
      HasParts(mapping, time) && exists e :: HasBadColumn(mapping, e) && e.key == f && RoleOf(f) == NoDestination
    case NoColumnName(f) =>
      HasParts(mapping, time) && exists e :: HasBadColumn(mapping, e) && e.key == f && RoleOf(f) != NoDestination
    case ColumnAndConstant(f) =>
      && HasParts(mapping, time) && ShowsColumns(mapping)
      && exists e :: HasBadConstant(mapping, e) && e.key == f && IsNamed(mapping, Columns, f)
    case NotAConstantDestination(f) =>
      && HasParts(mapping, time) && ShowsColumns(mapping)
      && !IsNamed(mapping, Columns, f) && RoleOf(f) != Description
      && exists e :: HasBadConstant(mapping, e) && e.key == f
    case ConstantNotText(f) =>
      && HasParts(mapping, time) && ShowsColumns(mapping)
      && !IsNamed(mapping, Columns, f) && RoleOf(f) == Description
      && exists e :: HasBadConstant(mapping, e) && e.key == f
    case TimezoneNotText =>
      HasParts(mapping, time) && ShowsColumns(mapping) && ShowsConstants(mapping) && !ShowsTimezone(time)
    case NotATimestampDestination(f) =>
      && HasParts(mapping, time) && ShowsColumns(mapping) && ShowsConstants(mapping) && ShowsTimezone(time)
      && HoldsObject(time, Formats) && exists e :: HasBadFormat(time, e) && e.key == f && RoleOf(f) != Instant
    case UnacceptedForm(f) =>
      && HasParts(mapping, time) && ShowsColumns(mapping) && ShowsConstants(mapping) && ShowsTimezone(time)
      && HoldsObject(time, Formats) && exists e :: HasBadFormat(time, e) && e.key == f && RoleOf(f) == Instant
  }

  lemma {:induction false} ColumnsFail(entries: seq<Entry>, choices: map<Key, Choice>) returns (i: nat)
    requires ReadColumns(entries, choices).Failure?
    ensures i < |entries| && IsFirstBadOf(entries, i, entries[i], IsColumnEntry)
    ensures ReadColumns(entries, choices).error ==
      if RoleOf(entries[i].key) == NoDestination then NotADestination(entries[i].key) else NoColumnName(entries[i].key)
  {
    var e := entries[0];
    EntryIs(e);
    RolesExactly(e.key);
    hide StrictDestinations, RoleOf;
    if IsColumnEntry(e) {
      i := ColumnsFail(entries[1..], choices[e.key := Column(e.value.text)]);
      i := i + 1;
      assert forall j :: 0 < j < |entries| ==> entries[j] == entries[1..][j - 1];
    } else {
      i := 0;
    }
  }

  lemma {:induction false} ConstantsFail(entries: seq<Entry>, choices: map<Key, Choice>, taken: iset<Key>)
      returns (i: nat)
    requires DistinctKeys(entries) && forall k :: k in Keys(entries) ==> (k in choices <==> k in taken)
    requires ReadConstants(entries, choices).Failure?
    ensures i < |entries|
    ensures IsFirstBadOf(entries, i, entries[i], e => IsConstantEntry(e) && e.key !in taken)
    ensures ReadConstants(entries, choices).error ==
      if entries[i].key in taken then ColumnAndConstant(entries[i].key)
      else if RoleOf(entries[i].key) != Description then NotAConstantDestination(entries[i].key)
      else ConstantNotText(entries[i].key)
  {
    var e := entries[0];
    EntryIs(e);
    RolesExactly(e.key);
    hide ConstantDestinations, RoleOf;
    if IsConstantEntry(e) && e.key !in taken {
      i := ConstantsFail(entries[1..], choices[e.key := Constant(e.value.text)], taken);
      i := i + 1;
      assert forall j :: 0 < j < |entries| ==> entries[j] == entries[1..][j - 1];
    } else {
      i := 0;
    }
  }

  lemma {:induction false} FormatsFail(entries: seq<Entry>, formats: map<Key, string>) returns (i: nat)
    requires ReadFormats(entries, formats).Failure?
    ensures i < |entries| && IsFirstBadOf(entries, i, entries[i], IsFormatEntry)
    ensures ReadFormats(entries, formats).error ==
      if RoleOf(entries[i].key) != Instant then NotATimestampDestination(entries[i].key)
      else UnacceptedForm(entries[i].key)
  {
    var e := entries[0];
    EntryIs(e);
    RolesExactly(e.key);
    if e.value.Text? {
      FormsExactly(e.value.text);
    }
    hide TimestampDestinations, TimeFormatIds, RoleOf, IsForm;
    if IsFormatEntry(e) {
      i := FormatsFail(entries[1..], formats[e.key := e.value.text]);
      i := i + 1;
      assert forall j :: 0 < j < |entries| ==> entries[j] == entries[1..][j - 1];
    } else {
      i := 0;
    }
  }

  lemma HasSomeExactly(text: Document, key: Key)
    requires IsOneObject(text)
    ensures HasNo(text, key) <==> !exists e :: e in EntriesOf(text) && e.key == key
  {
    assert forall e :: e in EntriesOf(text) ==> States(text, e.key, e.value);
    assert forall value :: States(text, key, value) ==> Entry(key, value) in EntriesOf(text);
  }

  lemma StraysExactly(mapping: Document, time: Document)
    requires IsOneObject(mapping) && IsOneObject(time)
    ensures AreStrays(Strays(EntriesOf(mapping)) + Strays(EntriesOf(time)), mapping, time)
  {
    hide Strays, IsSection, EntriesOf, HasNo;
    var a, b := Strays(EntriesOf(mapping)), Strays(EntriesOf(time));
    forall key ensures key in a + b <==> !IsSection(key) && !(HasNo(mapping, key) && HasNo(time, key)) {
      StraysAre(EntriesOf(mapping), key);
      StraysAre(EntriesOf(time), key);
      HasSomeExactly(mapping, key);
      HasSomeExactly(time, key);
    }
  }

  lemma PartsFault(mapping: Document, time: Document)
    requires IsDocument(mapping) && IsDocument(time) && PartsOf(mapping, time).Failure?
    ensures IsFirstFault(mapping, time, PartsOf(mapping, time).error)
  {
    hide IsDocument, NamedObject, HoldsObject, HasOnlySections, Strays, Lookup, AreStrays, HasParts;
    if IsOneObject(mapping) && IsOneObject(time) {
      StraysExactly(mapping, time);
      OnlySectionsExactly(mapping);
      OnlySectionsExactly(time);
      SectionExactly(mapping, Columns);
      SectionExactly(mapping, Constants);
      NamedFault(EntriesOf(mapping), Columns);
      NamedFault(EntriesOf(mapping), Constants);
    }
  }

  lemma NamedFault(entries: seq<Entry>, key: Key)
    ensures NamedObject(entries, key).Failure? ==> NamedObject(entries, key) == Failure(NotNamesToText(key))
  {
  }

  /** An object under the key is the one the reader takes. */
  lemma SectionStands(text: Document, key: Key)
    requires IsDocument(text) && IsOneObject(text) && NamedObject(EntriesOf(text), key).Success?
    ensures var entries := NamedObject(EntriesOf(text), key).value;
      entries != [] ==> States(text, key, Object(entries))
  {
    hide Keys, Lookup, DistinctKeys;
    assert DistinctKeys(EntriesOf(text)) by { NothingRepeats(); }
    LookedUp(EntriesOf(text), key, Object(NamedObject(EntriesOf(text), key).value));
  }

  lemma ColumnsFault(mapping: Document, time: Document, columns: seq<Entry>)
    requires IsDocument(mapping) && HasParts(mapping, time)
    requires NamedObject(EntriesOf(mapping), Columns) == Success(columns) && ReadColumns(columns, map[]).Failure?
    ensures IsFirstFault(mapping, time, ReadColumns(columns, map[]).error)
  {
    var i := ColumnsFail(columns, map[]);
    SectionStands(mapping, Columns);
    hide NamedObject, IsFirstBadOf, IsDocument, HasParts, ReadColumns, RoleOf;
    assert IsFirstBad(mapping, Columns, i, columns[i], IsColumnEntry);
    assert HasBadColumn(mapping, columns[i]);
  }

  lemma BadConstantStands(mapping: Document, constants: seq<Entry>, choices: map<Key, Choice>) returns (e: Entry)
    requires IsDocument(mapping) && IsOneObject(mapping)
    requires NamedObject(EntriesOf(mapping), Constants) == Success(constants)
    requires forall k :: k in choices <==> IsNamed(mapping, Columns, k)
    requires ReadConstants(constants, choices).Failure?
    ensures HasBadConstant(mapping, e)
    ensures ReadConstants(constants, choices).error ==
      if IsNamed(mapping, Columns, e.key) then ColumnAndConstant(e.key)
      else if RoleOf(e.key) != Description then NotAConstantDestination(e.key)
      else ConstantNotText(e.key)
  {
    SectionIsDistinct(mapping, Constants);
    SectionStands(mapping, Constants);
    hide NamedObject, IsDocument, ReadConstants, RoleOf, IsNamed, DistinctKeys, Keys, EntriesOf, IsConstantEntry;
    var taken := iset k | IsNamed(mapping, Columns, k);
    var i := ConstantsFail(constants, choices, taken);
    e := constants[i];
    SameFirstBad(constants, i, x => IsConstantEntry(x) && x.key !in taken, FreshConstants(mapping));
    hide IsFirstBadOf, FreshConstants;
    assert IsFirstBad(mapping, Constants, i, e, FreshConstants(mapping));
  }

  lemma ConstantsFault(mapping: Document, time: Document, constants: seq<Entry>, choices: map<Key, Choice>)
    requires IsDocument(mapping) && HasParts(mapping, time) && ShowsColumns(mapping)
    requires NamedObject(EntriesOf(mapping), Constants) == Success(constants)
    requires forall k :: k in choices <==> IsNamed(mapping, Columns, k)
    requires ReadConstants(constants, choices).Failure?
    ensures IsFirstFault(mapping, time, ReadConstants(constants, choices).error)
  {
    var e := BadConstantStands(mapping, constants, choices);
    hide NamedObject, IsDocument, HasParts, ReadConstants, RoleOf, IsNamed, ShowsColumns, HasBadConstant;
  }

  lemma SameFirstBad(entries: seq<Entry>, i: nat, good: Entry -> bool, right: Entry -> bool)
    requires i < |entries| && IsFirstBadOf(entries, i, entries[i], good) && forall e :: good(e) <==> right(e)
    ensures IsFirstBadOf(entries, i, entries[i], right)
  {
  }

  lemma FormatsFault(mapping: Document, time: Document, formats: seq<Entry>)
    requires IsDocument(time) && HasParts(mapping, time) && ShowsColumns(mapping) && ShowsConstants(mapping)
    requires ShowsTimezone(time) && NamedObject(EntriesOf(time), Formats) == Success(formats)
    requires ReadFormats(formats, map[]).Failure?
    ensures IsFirstFault(mapping, time, ReadFormats(formats, map[]).error)
  {
    var i := FormatsFail(formats, map[]);
    SectionStands(time, Formats);
    SectionExactly(time, Formats);
    hide NamedObject, IsFirstBadOf, IsDocument, HasParts, ReadFormats, RoleOf, ShowsColumns, ShowsConstants,
         ShowsTimezone;
    assert IsFirstBad(time, Formats, i, formats[i], IsFormatEntry);
    assert HasBadFormat(time, formats[i]);
  }

  /** The four parts the reader takes from two texts that have them. */
  ghost predicate AreTaken(mapping: Document, time: Document, parts: Parts) {
    && IsDocument(mapping) && IsDocument(time) && HasParts(mapping, time) && PartsAreObjects(parts)
    && NamedObject(EntriesOf(mapping), Columns) == Success(parts.columns)
    && NamedObject(EntriesOf(mapping), Constants) == Success(parts.constants)
    && NamedObject(EntriesOf(time), Formats) == parts.formats && Lookup(EntriesOf(time), Timezone) == parts.timezone
  }

  lemma ColumnsShown(mapping: Document, time: Document, parts: Parts)
    requires AreTaken(mapping, time, parts) && ReadColumns(parts.columns, map[]).Success?
    ensures ShowsColumns(mapping)
    ensures forall k :: k in ReadColumns(parts.columns, map[]).value <==> IsNamed(mapping, Columns, k)
  {
    hide IsDocument, NamedObject, Lookup, AreColumns, Keys, ReadColumns, DistinctKeys, IsColumnEntry;
    ColumnsRead(parts.columns, map[]);
    ColumnsExactly(mapping);
    FromNothing(ColumnChoices(parts.columns), map[]);
    ColumnKeys(parts.columns);
    forall k ensures k in Keys(parts.columns) <==> IsNamed(mapping, Columns, k) {
      KeysExactly(mapping, Columns, k);
    }
  }

  lemma ConstantsShown(mapping: Document, time: Document, parts: Parts)
    requires AreTaken(mapping, time, parts) && ReadColumns(parts.columns, map[]).Success?
    requires ReadConstants(parts.constants, ReadColumns(parts.columns, map[]).value).Success?
    ensures ShowsConstants(mapping)
  {
    hide IsDocument, NamedObject, Lookup, AreColumns, AreConstants, Keys, ReadColumns, ReadConstants, DistinctKeys,
         ShowsConstants;
    ColumnsRead(parts.columns, map[]);
    FromNothing(ColumnChoices(parts.columns), map[]);
    ColumnKeys(parts.columns);
    ConstantsRead(parts.constants, ColumnChoices(parts.columns));
    ConstantsExactly(mapping);
  }

  lemma LaterFaultIsReported(mapping: Document, time: Document, parts: Parts)
    requires AreTaken(mapping, time, parts) && ReadColumns(parts.columns, map[]).Success?
    requires PartsReading(parts).Failure?
    ensures IsFirstFault(mapping, time, PartsReading(parts).error)
  {
    ColumnsShown(mapping, time, parts);
    hide IsDocument, NamedObject, Lookup, AreColumns, AreConstants, AreFormats, Keys, ReadColumns,
         ReadConstants, ReadFormats, HasParts, ShowsColumns, ShowsConstants, PartsAreObjects, ShowsFormats;
    var choices := ReadColumns(parts.columns, map[]).value;
    if ReadConstants(parts.constants, choices).Failure? {
      ConstantsFault(mapping, time, parts.constants, choices);
    } else {
      ConstantsShown(mapping, time, parts);
      TimeFaultIsReported(mapping, time, parts, ReadConstants(parts.constants, choices).value);
    }
    hide IsFirstFault, TimeReading;
  }

  lemma TimeFaultIsReported(mapping: Document, time: Document, parts: Parts, choices: map<Key, Choice>)
    requires AreTaken(mapping, time, parts) && ShowsColumns(mapping) && ShowsConstants(mapping)
    requires TimeReading(parts, choices).Failure?
    ensures IsFirstFault(mapping, time, TimeReading(parts, choices).error)
  {
    assert IsOneObject(time);
    TimeExactly(time);
    SectionExactly(time, Formats);
    NamedFault(EntriesOf(time), Formats);
    hide IsDocument, NamedObject, Lookup, AreFormats, ReadFormats, HasParts, ShowsColumns, ShowsConstants,
         PartsAreObjects;
    if ShowsTimezone(time) && parts.formats.Success? && ReadFormats(parts.formats.value, map[]).Failure? {
      FormatsFault(mapping, time, parts.formats.value);
      hide IsFirstFault;
    }
  }

  /** A declaration that is not shown is refused with its first fault, in the order in which faults are looked for. */
  lemma FirstFaultIsReported(mapping: Document, time: Document)
    requires IsDocument(mapping) && IsDocument(time) && Reading(mapping, time).Failure?
    ensures IsFirstFault(mapping, time, Reading(mapping, time).error)
  {
    PartsExactly(mapping, time);
    hide IsDocument, PartsOf, NamedObject, Lookup, AreColumns, AreConstants, AreFormats, Keys, ReadColumns,
         ReadConstants, ReadFormats, IsFirstFault, HasParts, ColumnChoices;
    if PartsOf(mapping, time).Failure? {
      PartsFault(mapping, time);
    } else {
      var parts := PartsOf(mapping, time).value;
      ReadPartsAreObjects(mapping, time);
      ColumnsRead(parts.columns, map[]);
      if ReadColumns(parts.columns, map[]).Failure? {
        ColumnsFault(mapping, time, parts.columns);
      } else {
        LaterFaultIsReported(mapping, time, parts);
      }
    }
  }
}
