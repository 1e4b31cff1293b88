/**
 * The guided mapping editor's two directions: choices written as a declaration, and a declaration
 * read back as choices. A JSON object is its sequence of entries in key order of insertion; the text
 * of a document is represented by what parsing it gives.
 */
module GuidedDeclaration {
  import opened Wrappers

  const AVAILABILITY_SIMULATED := "ea.availability.simulated-bar-end-plus-latency.v1"

  /** The names a declaration may use, and any other name. */
  datatype Key =
    | Columns | Constants | Timezone | Formats
    | SchemaVersion | Venue | Symbol | IntervalStart | IntervalEnd | Adjustment
    | Open | High | Low | Close | Volume | Source | SourceSequence | Revision | AvailableAt
    | Unlisted(name: string)

  function StrictDestinations(): seq<Key> {
    [SchemaVersion, Venue, Symbol, IntervalStart, IntervalEnd, Adjustment,
     Open, High, Low, Close, Volume, Source, SourceSequence, Revision, AvailableAt]
  }

  function ConstantDestinations(): seq<Key> {
    [SchemaVersion, Venue, Symbol, Adjustment, Source, Revision]
  }

  function TimestampDestinations(): seq<Key> {
    [IntervalStart, IntervalEnd, AvailableAt]
  }

  function TimeFormatIds(): seq<string> {
    ["utc-microseconds", "utc-seconds", "offset-microseconds", "offset-seconds",
     "naive-microseconds", "naive-seconds"]
  }

  datatype Choice = Column(value: string) | Constant(value: string)

  datatype State = State(choices: map<Key, Choice>, timezone: string, formats: map<Key, string>)

  // ----- JSON documents

  datatype Json = Text(text: string) | Object(entries: seq<Entry>) | OtherValue

  datatype Entry = Entry(key: Key, value: Json)

  /** What the panel's text parses to. */
  datatype Document = Blank | Malformed | NotAnObject | Parsed(entries: seq<Entry>)

  datatype Problem =
    | InvalidJson
    | NotOneObject
    | StrayKeys(keys: seq<Key>)
    | NotNamesToText(key: Key)
    | NotADestination(field: Key)
    | NoColumnName(field: Key)
    | ColumnAndConstant(field: Key)
    | NotAConstantDestination(field: Key)
    | ConstantNotText(field: Key)
    | TimezoneNotText
    | NotATimestampDestination(field: Key)
    | UnacceptedForm(field: Key)

  ghost predicate DistinctKeys(entries: seq<Entry>) {
    entries != [] ==> entries[0].key !in Keys(entries[1..]) && DistinctKeys(entries[1..])
  }

  /** A parsed object has each key once, at every level these declarations reach. */
  ghost predicate IsDocument(document: Document) {
    document.Parsed? ==> DistinctKeys(document.entries) && InnerDistinct(document.entries)
  }

  ghost predicate InnerDistinct(entries: seq<Entry>) {
    entries != [] ==>
      (entries[0].value.Object? ==> DistinctKeys(entries[0].value.entries)) && InnerDistinct(entries[1..])
  }

  ghost function Keys(entries: seq<Entry>): set<Key> {
    if entries == [] then {} else {entries[0].key} + Keys(entries[1..])
  }

  function Lookup(entries: seq<Entry>, key: Key): (value: Option<Json>)
    ensures value.Some? <==> key in Keys(entries)
  {
    if entries == [] then None
    else if entries[0].key == key then Some(entries[0].value)
    else Lookup(entries[1..], key)
  }

  function TextAt(entries: seq<Entry>, key: Key): string {
    match Lookup(entries, key)
    case Some(Text(text)) => text
    case _ => ""
  }

  /** `jsonObject(text)`. */
  function ObjectOf(document: Document): Result<seq<Entry>, Problem> {
    match document
    case Blank => Success([])
    case Malformed => Failure(InvalidJson)
    case NotAnObject => Failure(NotOneObject)
    case Parsed(entries) => Success(entries)
  }

  /** `namedObject(document, key)`: an absent key is an empty object. */
  function NamedObject(entries: seq<Entry>, key: Key): Result<seq<Entry>, Problem> {
    match Lookup(entries, key)
    case None => Success([])
    case Some(Object(inner)) => Success(inner)
    case Some(_) => Failure(NotNamesToText(key))
  }

  function Strays(entries: seq<Entry>): seq<Key> {
    if entries == [] then []
    else (if entries[0].key in [Columns, Constants, Timezone, Formats] then [] else [entries[0].key])
         + Strays(entries[1..])
  }

  // ----- reading

  function ReadColumns(entries: seq<Entry>, choices: map<Key, Choice>): Result<map<Key, Choice>, Problem> {
    if entries == [] then Success(choices)
    else
      var Entry(field, value) := entries[0];
      if field !in StrictDestinations() then Failure(NotADestination(field))
      else if !value.Text? || value.text == "" then Failure(NoColumnName(field))
      else ReadColumns(entries[1..], choices[field := Column(value.text)])
  }

  function ReadConstants(entries: seq<Entry>, choices: map<Key, Choice>): Result<map<Key, Choice>, Problem> {
    if entries == [] then Success(choices)
    else
      var Entry(field, value) := entries[0];
      if field in choices then Failure(ColumnAndConstant(field))
      else if field !in ConstantDestinations() then Failure(NotAConstantDestination(field))
      else if !value.Text? then Failure(ConstantNotText(field))
      else ReadConstants(entries[1..], choices[field := Constant(value.text)])
  }

  function ReadFormats(entries: seq<Entry>, formats: map<Key, string>): Result<map<Key, string>, Problem> {
    if entries == [] then Success(formats)
    else
      var Entry(field, value) := entries[0];
      if field !in TimestampDestinations() then Failure(NotATimestampDestination(field))
      else if !value.Text? || value.text !in TimeFormatIds() then Failure(UnacceptedForm(field))
      else ReadFormats(entries[1..], formats[field := value.text])
  }

  /** The four parts of a declaration; the formats are looked at last, so their fault is kept. */
  datatype Parts = Parts(columns: seq<Entry>, constants: seq<Entry>, timezone: Option<Json>,
                         formats: Result<seq<Entry>, Problem>)

  function PartsOf(mapping: Document, time: Document): Result<Parts, Problem> {
    match ObjectOf(mapping)
    case Failure(problem) => Failure(problem)
    case Success(mappingEntries) =>
      match ObjectOf(time)
      case Failure(problem) => Failure(problem)
      case Success(timeEntries) =>
        var strays := Strays(mappingEntries) + Strays(timeEntries);
        if strays != [] then Failure(StrayKeys(strays))
        else
          match NamedObject(mappingEntries, Columns)
          case Failure(problem) => Failure(problem)
          case Success(columns) =>
            match NamedObject(mappingEntries, Constants)
            case Failure(problem) => Failure(problem)
            case Success(constants) =>
              Success(Parts(columns, constants, Lookup(timeEntries, Timezone), NamedObject(timeEntries, Formats)))
  }

  function TimeReading(parts: Parts, choices: map<Key, Choice>): Result<State, Problem> {
    if parts.timezone.Some? && !parts.timezone.value.Text? then Failure(TimezoneNotText)
    else
      match parts.formats
      case Failure(problem) => Failure(problem)
      case Success(stated) =>
        match ReadFormats(stated, map[])
        case Failure(problem) => Failure(problem)
        case Success(formats) => Success(State(choices, TimezoneText(parts), formats))
  }

  function TimezoneText(parts: Parts): string {
    if parts.timezone.Some? && parts.timezone.value.Text? then parts.timezone.value.text else ""
  }

  /** Columns first, then constants on top of them. */
  function ChoicesReading(columns: seq<Entry>, constants: seq<Entry>): Result<map<Key, Choice>, Problem> {
    match ReadColumns(columns, map[])
    case Failure(problem) => Failure(problem)
    case Success(named) => ReadConstants(constants, named)
  }

  function PartsReading(parts: Parts): Result<State, Problem> {
    match ChoicesReading(parts.columns, parts.constants)
    case Failure(problem) => Failure(problem)
    case Success(choices) => TimeReading(parts, choices)
  }

  /** The choices a declaration shows, or the first reason it shows none. */
  function Reading(mapping: Document, time: Document): Result<State, Problem> {
    match PartsOf(mapping, time)
    case Failure(problem) => Failure(problem)
    case Success(parts) => PartsReading(parts)
  }

  method ReadChoices(columns: seq<Entry>, constants: seq<Entry>) returns (r: Result<map<Key, Choice>, Problem>)
    ensures r == ChoicesReading(columns, constants)
  {
    hide StrictDestinations, ConstantDestinations;
    var choices: map<Key, Choice> := map[];
    assert columns[0..] == columns && constants[0..] == constants;
    for k := 0 to |columns|
      invariant ReadColumns(columns[k..], choices) == ReadColumns(columns, map[])
    {
      var Entry(field, value) := columns[k];
      assert columns[k..][1..] == columns[k + 1..];
      if field !in StrictDestinations() {
        return Failure(NotADestination(field));
      }
      if !value.Text? || value.text == "" {
        return Failure(NoColumnName(field));
      }
      choices := choices[field := Column(value.text)];
    }
    ghost var named := choices;
    hide ReadColumns;
    for k := 0 to |constants|
      invariant ReadConstants(constants[k..], choices) == ReadConstants(constants, named)
    {
      var Entry(field, value) := constants[k];
      assert constants[k..][1..] == constants[k + 1..];
      if field in choices {
        return Failure(ColumnAndConstant(field));
      }
      if field !in ConstantDestinations() {
        return Failure(NotAConstantDestination(field));
      }
      if !value.Text? {
        return Failure(ConstantNotText(field));
      }
      choices := choices[field := Constant(value.text)];
    }
    return Success(choices);
  }

  method ReadGuidedDeclaration(mappingText: Document, timeText: Document) returns (r: Result<State, Problem>)
    requires IsDocument(mappingText) && IsDocument(timeText)
    ensures r == Reading(mappingText, timeText)
  {
    hide TimestampDestinations, TimeFormatIds, ReadColumns, ReadConstants, PartsOf, DistinctKeys, InnerDistinct;
    var read := PartsOf(mappingText, timeText);
    if read.Failure? {
      return Failure(read.error);
    }
    var parts := read.value;
    var chosen := ReadChoices(parts.columns, parts.constants);
    if chosen.Failure? {
      return Failure(chosen.error);
    }
    if parts.timezone.Some? && !parts.timezone.value.Text? {
      return Failure(TimezoneNotText);
    }
    if parts.formats.Failure? {
      return Failure(parts.formats.error);
    }
    var stated := parts.formats.value;
    var formats: map<Key, string> := map[];
    assert stated[0..] == stated;
    for k := 0 to |stated|
      invariant ReadFormats(stated[k..], formats) == ReadFormats(stated, map[])
    {
      var Entry(field, value) := stated[k];
      assert stated[k..][1..] == stated[k + 1..];
      if field !in TimestampDestinations() {
        return Failure(NotATimestampDestination(field));
      }
      if !value.Text? || value.text !in TimeFormatIds() {
        return Failure(UnacceptedForm(field));
      }
      formats := formats[field := value.text];
    }
    return Success(State(chosen.value, TimezoneText(parts), formats));
  }

  // ----- what a reading means

  ghost predicate IsColumn(e: Entry) { e.key in StrictDestinations() && e.value.Text? && e.value.text != "" }

  ghost predicate IsConstant(e: Entry) { e.key in ConstantDestinations() && e.value.Text? }

  ghost predicate IsFormat(e: Entry) {
    e.key in TimestampDestinations() && e.value.Text? && e.value.text in TimeFormatIds()
  }

  ghost predicate AreColumns(entries: seq<Entry>) {
    entries != [] ==> IsColumn(entries[0]) && AreColumns(entries[1..])
  }

  ghost predicate AreConstants(entries: seq<Entry>) {
    entries != [] ==> IsConstant(entries[0]) && AreConstants(entries[1..])
  }

  ghost predicate AreFormats(entries: seq<Entry>) {
    entries != [] ==> IsFormat(entries[0]) && AreFormats(entries[1..])
  }

  ghost function ColumnChoices(entries: seq<Entry>): map<Key, Choice> {
    map key | key in Keys(entries) :: Column(TextAt(entries, key))
  }

  ghost function ConstantChoices(entries: seq<Entry>): map<Key, Choice> {
    map key | key in Keys(entries) :: Constant(TextAt(entries, key))
  }

  ghost function StatedFormats(entries: seq<Entry>): map<Key, string> {
    map key | key in Keys(entries) :: TextAt(entries, key)
  }

  lemma NoEntries(choices: map<Key, Choice>, formats: map<Key, string>)
    ensures choices + ColumnChoices([]) == choices == choices + ConstantChoices([])
    ensures formats + StatedFormats([]) == formats
  {
  }

  lemma MapCons<T>(base: map<Key, T>, key: Key, value: T, rest: map<Key, T>, whole: map<Key, T>)
    requires key !in rest && whole.Keys == rest.Keys + {key} && whole[key] == value
    requires forall other :: other in rest ==> whole[other] == rest[other]
    ensures base[key := value] + rest == base + whole
  {
  }

  lemma MapsAgree<T>(a: map<Key, T>, b: map<Key, T>)
    requires forall f :: (f in a <==> f in b) && (f in a ==> a[f] == b[f])
    ensures a == b
  {
  }

  /** The first entry may be recorded before the others, since its key is not among theirs. */
  lemma FirstEntry(entries: seq<Entry>, choices: map<Key, Choice>, formats: map<Key, string>)
    requires entries != [] && DistinctKeys(entries) && entries[0].value.Text?
    ensures var key, text := entries[0].key, entries[0].value.text;
      && choices[key := Column(text)] + ColumnChoices(entries[1..]) == choices + ColumnChoices(entries)
      && choices[key := Constant(text)] + ConstantChoices(entries[1..]) == choices + ConstantChoices(entries)
      && formats[key := text] + StatedFormats(entries[1..]) == formats + StatedFormats(entries)
  {
    var rest, key, text := entries[1..], entries[0].key, entries[0].value.text;
    KeysCons(entries);
    hide Keys, TextAt, DistinctKeys;
    MapCons(choices, key, Column(text), ColumnChoices(rest), ColumnChoices(entries));
    MapCons(choices, key, Constant(text), ConstantChoices(rest), ConstantChoices(entries));
    MapCons(formats, key, text, StatedFormats(rest), StatedFormats(entries));
  }

  lemma KeysCons(entries: seq<Entry>)
    requires entries != [] && DistinctKeys(entries)
    ensures var rest, key := entries[1..], entries[0].key;
      && key !in Keys(rest) && Keys(entries) == Keys(rest) + {key}
      && (forall other :: other in Keys(rest) ==> TextAt(entries, other) == TextAt(rest, other))
      && (entries[0].value.Text? ==> TextAt(entries, key) == entries[0].value.text)
  {
  }

  lemma {:induction false} ColumnsRead(entries: seq<Entry>, choices: map<Key, Choice>)
    requires DistinctKeys(entries)
    ensures if AreColumns(entries) then ReadColumns(entries, choices) == Success(choices + ColumnChoices(entries))
            else ReadColumns(entries, choices).Failure?
    decreases |entries|
  {
    hide StrictDestinations, ColumnChoices, Keys;
    if entries == [] {
      NoEntries(choices, map[]);
    } else if IsColumn(entries[0]) {
      ColumnsRead(entries[1..], choices[entries[0].key := Column(entries[0].value.text)]);
      FirstEntry(entries, choices, map[]);
    }
  }

  ghost predicate AreDisjoint(entries: seq<Entry>, choices: map<Key, Choice>) { Keys(entries) !! choices.Keys }

  lemma DisjointStep(entries: seq<Entry>, choices: map<Key, Choice>, choice: Choice)
    requires entries != [] && DistinctKeys(entries)
    ensures var key := entries[0].key;
      AreDisjoint(entries, choices) <==> key !in choices && AreDisjoint(entries[1..], choices[key := choice])
  {
    var key := entries[0].key;
    var next := choices[key := choice];
    assert next.Keys == choices.Keys + {key};
    assert key in choices ==> key in Keys(entries) * choices.Keys;
  }

  lemma {:induction false} ConstantsRead(entries: seq<Entry>, choices: map<Key, Choice>)
    requires DistinctKeys(entries)
    ensures if AreConstants(entries) && AreDisjoint(entries, choices)
            then ReadConstants(entries, choices) == Success(choices + ConstantChoices(entries))
            else ReadConstants(entries, choices).Failure?
    decreases |entries|
  {
    hide ConstantDestinations, ConstantChoices;
    if entries == [] {
      NoEntries(choices, map[]);
    } else {
      hide AreDisjoint, Keys;
      DisjointStep(entries, choices, Constant(if entries[0].value.Text? then entries[0].value.text else ""));
      if entries[0].key !in choices && IsConstant(entries[0]) {
        ConstantsRead(entries[1..], choices[entries[0].key := Constant(entries[0].value.text)]);
        FirstEntry(entries, choices, map[]);
      }
    }
  }

  lemma {:induction false} FormatsRead(entries: seq<Entry>, formats: map<Key, string>)
    requires DistinctKeys(entries)
    ensures if AreFormats(entries) then ReadFormats(entries, formats) == Success(formats + StatedFormats(entries))
            else ReadFormats(entries, formats).Failure?
    decreases |entries|
  {
    hide TimestampDestinations, TimeFormatIds, StatedFormats, Keys;
    if entries == [] {
      NoEntries(map[], formats);
    } else if IsFormat(entries[0]) {
      FormatsRead(entries[1..], formats[entries[0].key := entries[0].value.text]);
      FirstEntry(entries, map[], formats);
    }
  }

  /** What these controls can show. */
  ghost predicate IsShowable(parts: Parts) {
    && AreColumns(parts.columns) && AreConstants(parts.constants)
    && Keys(parts.columns) !! Keys(parts.constants)
    && (parts.timezone.Some? ==> parts.timezone.value.Text?)
    && parts.formats.Success? && AreFormats(parts.formats.value)
  }

  ghost function Shown(parts: Parts): State
    requires parts.formats.Success?
  {
    State(ColumnChoices(parts.columns) + ConstantChoices(parts.constants), TimezoneText(parts),
          StatedFormats(parts.formats.value))
  }

  ghost predicate PartsAreObjects(parts: Parts) {
    && DistinctKeys(parts.columns) && DistinctKeys(parts.constants)
    && (parts.formats.Success? ==> DistinctKeys(parts.formats.value))
  }

  lemma FromNothing(choices: map<Key, Choice>, formats: map<Key, string>)
    ensures map[] + choices == choices && map[] + formats == formats
  {
  }

  /** A declaration is read exactly when it is showable, and then as precisely its own choices. */
  lemma PartsReadingIsExact(parts: Parts)
    requires PartsAreObjects(parts)
    ensures if IsShowable(parts) then PartsReading(parts) == Success(Shown(parts)) else PartsReading(parts).Failure?
  {
    hide ReadColumns, ReadConstants, ReadFormats, AreColumns, AreConstants, AreFormats, Keys, DistinctKeys;
    hide StatedFormats, ConstantChoices, ColumnChoices;
    ColumnsRead(parts.columns, map[]);
    ConstantsRead(parts.constants, ColumnChoices(parts.columns));
    ColumnKeys(parts.columns);
    FromNothing(ColumnChoices(parts.columns), map[]);
    if parts.formats.Success? {
      FormatsRead(parts.formats.value, map[]);
      FromNothing(map[], StatedFormats(parts.formats.value));
    }
  }

  lemma ColumnKeys(entries: seq<Entry>)
    ensures ColumnChoices(entries).Keys == Keys(entries)
  {
  }

  lemma {:induction false} PartIsObject(entries: seq<Entry>, key: Key)
    requires InnerDistinct(entries) && NamedObject(entries, key).Success?
    ensures DistinctKeys(NamedObject(entries, key).value)
  {
    if entries != [] && entries[0].key != key {
      PartIsObject(entries[1..], key);
    }
  }

  lemma ReadPartsAreObjects(mapping: Document, time: Document)
    requires IsDocument(mapping) && IsDocument(time) && PartsOf(mapping, time).Success?
    ensures PartsAreObjects(PartsOf(mapping, time).value)
  {
    hide NamedObject, DistinctKeys, InnerDistinct, Strays;
    var mappingEntries, timeEntries := ObjectOf(mapping).value, ObjectOf(time).value;
    assert InnerDistinct([]) by { EmptyIsDistinct(); }
    PartIsObject(mappingEntries, Columns);
    PartIsObject(mappingEntries, Constants);
    if NamedObject(timeEntries, Formats).Success? {
      PartIsObject(timeEntries, Formats);
    }
  }

  lemma EmptyIsDistinct()
    ensures InnerDistinct([])
  {
  }

  /** The same for the panel's two texts: read exactly when they hold a showable declaration. */
  lemma ReadingIsExact(mapping: Document, time: Document)
    requires IsDocument(mapping) && IsDocument(time)
    ensures Reading(mapping, time) ==
      match PartsOf(mapping, time)
      case Failure(problem) => Failure(problem)
      case Success(parts) => if IsShowable(parts) then Success(Shown(parts)) else PartsReading(parts)
    ensures PartsOf(mapping, time).Success? && !IsShowable(PartsOf(mapping, time).value)
      ==> Reading(mapping, time).Failure?
  {
    hide PartsOf, PartsReading, Shown, IsDocument;
    if PartsOf(mapping, time).Success? {
      ReadPartsAreObjects(mapping, time);
      PartsReadingIsExact(PartsOf(mapping, time).value);
    }
  }

  // ----- writing

  predicate IsOmitted(field: Key, policy: string) {
    field == AvailableAt && policy == AVAILABILITY_SIMULATED
  }

  /** The choice is written as a column: it names one. */
  predicate WritesColumn(state: State, policy: string, field: Key) {
    && !IsOmitted(field, policy) && field in state.choices
    && state.choices[field].Column? && state.choices[field].value != ""
  }

  predicate WritesConstant(state: State, policy: string, field: Key) {
    !IsOmitted(field, policy) && field in state.choices && state.choices[field].Constant?
  }

  predicate WritesFormat(state: State, policy: string, field: Key) {
    !IsOmitted(field, policy) && field in state.formats && state.formats[field] != ""
  }

  /** The entries of the fields a predicate keeps, in the fields' own order. */
  function Selected(fields: seq<Key>, keep: Key -> bool, text: Key -> string): seq<Entry> {
    if fields == [] then []
    else (if keep(fields[0]) then [Entry(fields[0], Text(text(fields[0])))] else []) + Selected(fields[1..], keep, text)
  }

  function ChoiceText(state: State): Key -> string {
    field => if field in state.choices then state.choices[field].value else ""
  }

  function FormatText(state: State): Key -> string {
    field => if field in state.formats then state.formats[field] else ""
  }

  function ColumnsOf(state: State, policy: string): seq<Entry> {
    Selected(StrictDestinations(), field => WritesColumn(state, policy, field), ChoiceText(state))
  }

  function ConstantsOf(state: State, policy: string): seq<Entry> {
    Selected(StrictDestinations(), field => WritesConstant(state, policy, field), ChoiceText(state))
  }

  function FormatsOf(state: State, policy: string): seq<Entry> {
    Selected(TimestampDestinations(), field => WritesFormat(state, policy, field), FormatText(state))
  }

  function MappingDocument(state: State, policy: string): Document {
    Parsed([Entry(Columns, Object(ColumnsOf(state, policy))), Entry(Constants, Object(ConstantsOf(state, policy)))])
  }

  function TimeDocument(state: State, policy: string): Document {
    Parsed([Entry(Timezone, Text(state.timezone)), Entry(Formats, Object(FormatsOf(state, policy)))])
  }

  lemma {:induction false} SelectedAppend(before: seq<Key>, field: Key, keep: Key -> bool, text: Key -> string)
    ensures Selected(before + [field], keep, text)
      == Selected(before, keep, text) + (if keep(field) then [Entry(field, Text(text(field)))] else [])
  {
    if before == [] {
      assert before + [field] == [field];
      assert [field][1..] == [];
    } else {
      SelectedAppend(before[1..], field, keep, text);
      assert (before + [field])[1..] == before[1..] + [field];
    }
  }

  method MappingOf(state: State, policy: string) returns (document: Document)
    ensures document == MappingDocument(state, policy)
  {
    hide StrictDestinations, ConstantDestinations, TimestampDestinations, TimeFormatIds;
    var columns: seq<Entry>, constants: seq<Entry> := [], [];
    ghost var isColumn := field => WritesColumn(state, policy, field);
    ghost var isConstant := field => WritesConstant(state, policy, field);
    var fields := StrictDestinations();
    for k := 0 to |fields|
      invariant columns == Selected(fields[..k], isColumn, ChoiceText(state))
      invariant constants == Selected(fields[..k], isConstant, ChoiceText(state))
    {
      var field := fields[k];
      assert fields[..k + 1] == fields[..k] + [field];
      SelectedAppend(fields[..k], field, isColumn, ChoiceText(state));
      SelectedAppend(fields[..k], field, isConstant, ChoiceText(state));
      if field == AvailableAt && policy == AVAILABILITY_SIMULATED {
        continue;
      }
      if field !in state.choices {
        continue;
      }
      var choice := state.choices[field];
      if choice.Constant? {
        constants := constants + [Entry(field, Text(choice.value))];
      } else if choice.value != "" {
        columns := columns + [Entry(field, Text(choice.value))];
      }
    }
    assert fields[..|fields|] == fields;
    return Parsed([Entry(Columns, Object(columns)), Entry(Constants, Object(constants))]);
  }

  method TimeOf(state: State, policy: string) returns (document: Document)
    ensures document == TimeDocument(state, policy)
  {
    hide StrictDestinations, ConstantDestinations, TimestampDestinations, TimeFormatIds;
    var formats: seq<Entry> := [];
    ghost var isFormat := field => WritesFormat(state, policy, field);
    var fields := TimestampDestinations();
    for k := 0 to |fields|
      invariant formats == Selected(fields[..k], isFormat, FormatText(state))
    {
      var field := fields[k];
      assert fields[..k + 1] == fields[..k] + [field];
      SelectedAppend(fields[..k], field, isFormat, FormatText(state));
      if field == AvailableAt && policy == AVAILABILITY_SIMULATED {
        continue;
      }
      if field in state.formats && state.formats[field] != "" {
        formats := formats + [Entry(field, Text(state.formats[field]))];
      }
    }
    assert fields[..|fields|] == fields;
    return Parsed([Entry(Timezone, Text(state.timezone)), Entry(Formats, Object(formats))]);
  }

  // ----- the round trips

  predicate AllDifferent(fields: seq<Key>) {
    forall i, j :: 0 <= i < j < |fields| ==> fields[i] != fields[j]
  }

  lemma SelectedCons(fields: seq<Key>, keep: Key -> bool, text: Key -> string)
    requires fields != []
    ensures var rest, entries := Selected(fields[1..], keep, text), Selected(fields, keep, text);
      if keep(fields[0]) then
        entries != [] && entries[0] == Entry(fields[0], Text(text(fields[0]))) && entries[1..] == rest
      else entries == rest
  {
  }

  /** The entries hold exactly the kept fields, each with its text. */
  ghost predicate Holds(entries: seq<Entry>, fields: seq<Key>, keep: Key -> bool, text: Key -> string) {
    && DistinctKeys(entries)
    && (forall key :: key in Keys(entries) <==> key in fields && keep(key))
    && (forall key :: key in Keys(entries) ==> TextAt(entries, key) == text(key))
  }

  lemma InCons(fields: seq<Key>)
    requires fields != []
    ensures forall f :: f in fields <==> f == fields[0] || f in fields[1..]
  {
  }

  lemma {:induction false} SelectedHolds(fields: seq<Key>, keep: Key -> bool, text: Key -> string)
    requires AllDifferent(fields)
    ensures Holds(Selected(fields, keep, text), fields, keep, text)
  {
    if fields != [] {
      SelectedHolds(fields[1..], keep, text);
      SelectedCons(fields, keep, text);
      InCons(fields);
      assert fields[0] !in fields[1..];
      hide Selected, AllDifferent;
    }
  }

  lemma {:induction false} SelectedColumns(fields: seq<Key>, keep: Key -> bool, text: Key -> string)
    requires forall f :: f in fields && keep(f) ==> f in StrictDestinations() && text(f) != ""
    ensures AreColumns(Selected(fields, keep, text))
  {
    hide StrictDestinations;
    if fields != [] {
      SelectedColumns(fields[1..], keep, text);
      SelectedCons(fields, keep, text);
    }
  }

  lemma {:induction false} SelectedConstants(fields: seq<Key>, keep: Key -> bool, text: Key -> string)
    ensures AreConstants(Selected(fields, keep, text))
      <==> forall f :: f in fields && keep(f) ==> f in ConstantDestinations()
  {
    hide ConstantDestinations;
    if fields != [] {
      SelectedConstants(fields[1..], keep, text);
      SelectedCons(fields, keep, text);
      InCons(fields);
      hide Selected;
    }
  }

  lemma {:induction false} SelectedFormats(fields: seq<Key>, keep: Key -> bool, text: Key -> string)
    requires forall f :: f in fields ==> f in TimestampDestinations()
    ensures AreFormats(Selected(fields, keep, text))
      <==> forall f :: f in fields && keep(f) ==> text(f) in TimeFormatIds()
  {
    hide TimestampDestinations, TimeFormatIds;
    if fields != [] {
      SelectedFormats(fields[1..], keep, text);
      SelectedCons(fields, keep, text);
      InCons(fields);
      hide Selected;
    }
  }

  lemma DestinationsDiffer()
    ensures AllDifferent(StrictDestinations()) && AllDifferent(TimestampDestinations())
    ensures forall f :: f in TimestampDestinations() ==> f in StrictDestinations()
    ensures forall f :: f in ConstantDestinations() ==> f in StrictDestinations()
  {
  }

  function IsColumnOf(state: State, policy: string): Key -> bool { field => WritesColumn(state, policy, field) }

  function IsConstantOf(state: State, policy: string): Key -> bool { field => WritesConstant(state, policy, field) }

  function IsFormatOf(state: State, policy: string): Key -> bool { field => WritesFormat(state, policy, field) }

  lemma ColumnsHold(state: State, policy: string)
    ensures Holds(ColumnsOf(state, policy), StrictDestinations(), IsColumnOf(state, policy), ChoiceText(state))
    ensures AreColumns(ColumnsOf(state, policy))
  {
    DestinationsDiffer();
    hide StrictDestinations, Holds;
    SelectedHolds(StrictDestinations(), IsColumnOf(state, policy), ChoiceText(state));
    SelectedColumns(StrictDestinations(), IsColumnOf(state, policy), ChoiceText(state));
  }

  lemma ConstantsHold(state: State, policy: string)
    ensures Holds(ConstantsOf(state, policy), StrictDestinations(), IsConstantOf(state, policy), ChoiceText(state))
    ensures AreConstants(ConstantsOf(state, policy))
      <==> forall f :: f in StrictDestinations() && WritesConstant(state, policy, f) ==> f in ConstantDestinations()
  {
    DestinationsDiffer();
    hide StrictDestinations, ConstantDestinations, Holds, WritesConstant;
    SelectedHolds(StrictDestinations(), IsConstantOf(state, policy), ChoiceText(state));
    SelectedConstants(StrictDestinations(), IsConstantOf(state, policy), ChoiceText(state));
  }

  lemma FormatsHold(state: State, policy: string)
    ensures Holds(FormatsOf(state, policy), TimestampDestinations(), IsFormatOf(state, policy), FormatText(state))
    ensures AreFormats(FormatsOf(state, policy)) <==>
      forall f :: f in TimestampDestinations() && WritesFormat(state, policy, f) ==> state.formats[f] in TimeFormatIds()
  {
    DestinationsDiffer();
    hide StrictDestinations, TimestampDestinations, TimeFormatIds, Holds;
    SelectedHolds(TimestampDestinations(), IsFormatOf(state, policy), FormatText(state));
    SelectedFormats(TimestampDestinations(), IsFormatOf(state, policy), FormatText(state));
  }

  /** The state the text can carry: no empty column, no empty format, nothing the policy omits. */
  ghost function Carried(state: State, policy: string): State {
    State(
      map field | field in state.choices && field in StrictDestinations()
          && (WritesColumn(state, policy, field) || WritesConstant(state, policy, field)) :: state.choices[field],
      state.timezone,
      map field | field in state.formats && field in TimestampDestinations()
          && WritesFormat(state, policy, field) :: state.formats[field])
  }

  /** Constants only where constants are allowed, and only accepted forms. */
  ghost predicate IsWellFormed(state: State, policy: string) {
    && (forall f :: f in StrictDestinations() && WritesConstant(state, policy, f) ==> f in ConstantDestinations())
    && (forall f :: f in TimestampDestinations() && WritesFormat(state, policy, f) ==>
          state.formats[f] in TimeFormatIds())
  }

  function WrittenParts(state: State, policy: string): Parts {
    Parts(ColumnsOf(state, policy), ConstantsOf(state, policy), Some(Text(state.timezone)),
          Success(FormatsOf(state, policy)))
  }

  lemma TwoEntries(a: Entry, b: Entry)
    requires a.key != b.key
    ensures Lookup([a, b], a.key) == Some(a.value) && Lookup([a, b], b.key) == Some(b.value)
    ensures a.key in [Columns, Constants, Timezone, Formats] && b.key in [Columns, Constants, Timezone, Formats]
      ==> Strays([a, b]) == []
  {
    assert [a, b][1..] == [b];
    assert [b][1..] == [];
    assert Lookup([b], b.key) == Some(b.value);
    assert Strays([]) == [];
  }

  lemma WrittenPartsAreRead(state: State, policy: string)
    ensures PartsOf(MappingDocument(state, policy), TimeDocument(state, policy)) == Success(WrittenParts(state, policy))
  {
    hide ColumnsOf, ConstantsOf, FormatsOf, Lookup, Strays;
    TwoEntries(Entry(Columns, Object(ColumnsOf(state, policy))), Entry(Constants, Object(ConstantsOf(state, policy))));
    TwoEntries(Entry(Timezone, Text(state.timezone)), Entry(Formats, Object(FormatsOf(state, policy))));
  }

  /** What a shown declaration holds for one destination. */
  lemma ShownAt(parts: Parts, f: Key)
    requires parts.formats.Success?
    ensures f in Shown(parts).choices <==> f in Keys(parts.columns) || f in Keys(parts.constants)
    ensures f in Keys(parts.constants) ==> Shown(parts).choices[f] == Constant(TextAt(parts.constants, f))
    ensures f in Keys(parts.columns) && f !in Keys(parts.constants)
      ==> Shown(parts).choices[f] == Column(TextAt(parts.columns, f))
  {
    hide Keys, TextAt;
  }

  lemma WrittenDisjoint(state: State, policy: string)
    ensures Keys(ColumnsOf(state, policy)) !! Keys(ConstantsOf(state, policy))
  {
    hide StrictDestinations, ColumnsOf, ConstantsOf, Keys, TextAt, DistinctKeys;
    ColumnsHold(state, policy);
    ConstantsHold(state, policy);
  }

  lemma ShownChoiceAt(state: State, policy: string, f: Key)
    ensures var shown, carried := Shown(WrittenParts(state, policy)).choices, Carried(state, policy).choices;
      (f in shown <==> f in carried) && (f in carried ==> shown[f] == carried[f])
  {
    hide StrictDestinations, ColumnsOf, ConstantsOf, FormatsOf, Keys, TextAt, DistinctKeys, Shown;
    ShownAt(WrittenParts(state, policy), f);
    ColumnsHold(state, policy);
    ConstantsHold(state, policy);
  }

  lemma ShownChoices(state: State, policy: string)
    ensures Shown(WrittenParts(state, policy)).choices == Carried(state, policy).choices
  {
    var shown, carried := Shown(WrittenParts(state, policy)).choices, Carried(state, policy).choices;
    hide *;
    forall f ensures (f in shown <==> f in carried) && (f in shown ==> shown[f] == carried[f]) {
      ShownChoiceAt(state, policy, f);
    }
    MapsAgree(shown, carried);
  }

  lemma ShownFormats(state: State, policy: string)
    ensures Shown(WrittenParts(state, policy)).formats == Carried(state, policy).formats
  {
    hide TimestampDestinations, ColumnsOf, ConstantsOf, FormatsOf;
    FormatsHold(state, policy);
    var shown, carried := Shown(WrittenParts(state, policy)).formats, Carried(state, policy).formats;
    assert shown.Keys == carried.Keys;
    assert forall f :: f in carried ==> shown[f] == carried[f];
  }

  /**
   * Reading back what was written succeeds exactly for the well-formed states, and gives the state
   * itself minus what the text does not carry.
   */
  lemma WriteReadRoundTrip(state: State, policy: string)
    ensures var read := Reading(MappingDocument(state, policy), TimeDocument(state, policy));
      if IsWellFormed(state, policy) then read == Success(Carried(state, policy)) else read.Failure?
  {
    hide ColumnsOf, ConstantsOf, FormatsOf, MappingDocument, TimeDocument, PartsOf, PartsReading;
    hide StrictDestinations, TimestampDestinations, ConstantDestinations, TimeFormatIds, AreColumns, AreConstants,
         AreFormats, Keys;
    var parts := WrittenParts(state, policy);
    WrittenPartsAreRead(state, policy);
    WrittenAreObjects(state, policy);
    PartsReadingIsExact(parts);
    ShowableIsWellFormed(state, policy);
    hide IsShowable, IsWellFormed, Shown, Carried, WrittenParts;
    ShownChoices(state, policy);
    ShownFormats(state, policy);
    ShownTimezone(state, policy);
  }

  lemma WrittenAreObjects(state: State, policy: string)
    ensures PartsAreObjects(WrittenParts(state, policy))
  {
    hide ColumnsOf, ConstantsOf, FormatsOf, StrictDestinations, TimestampDestinations, AreColumns, AreConstants,
         AreFormats;
    ColumnsHold(state, policy);
    ConstantsHold(state, policy);
    FormatsHold(state, policy);
    hide DistinctKeys, Keys, TextAt;
  }

  lemma ShowableIsWellFormed(state: State, policy: string)
    ensures IsShowable(WrittenParts(state, policy)) <==> IsWellFormed(state, policy)
  {
    hide ColumnsOf, ConstantsOf, FormatsOf, StrictDestinations, TimestampDestinations, ConstantDestinations,
         TimeFormatIds;
    hide AreColumns, AreConstants, AreFormats, Holds, Keys, WritesConstant, WritesFormat;
    WrittenDisjoint(state, policy);
    ColumnsHold(state, policy);
    ConstantsHold(state, policy);
    FormatsHold(state, policy);
  }

  lemma ShownTimezone(state: State, policy: string)
    ensures Shown(WrittenParts(state, policy)).timezone == Carried(state, policy).timezone
  {
  }

  lemma {:induction false} SelectedSame(fields: seq<Key>, keep: Key -> bool, text: Key -> string,
                                        kept: Key -> bool, shown: Key -> string)
    requires forall f :: f in fields ==> keep(f) == kept(f) && (keep(f) ==> text(f) == shown(f))
    ensures Selected(fields, keep, text) == Selected(fields, kept, shown)
  {
    if fields != [] {
      SelectedSame(fields[1..], keep, text, kept, shown);
    }
  }

  /** Writing, reading and writing again gives the very same two documents. */
  lemma WriteReadWriteIsFixed(state: State, policy: string)
    ensures MappingDocument(Carried(state, policy), policy) == MappingDocument(state, policy)
    ensures TimeDocument(Carried(state, policy), policy) == TimeDocument(state, policy)
  {
    hide StrictDestinations, TimestampDestinations, Selected;
    var carried := Carried(state, policy);
    SelectedSame(StrictDestinations(), IsColumnOf(carried, policy), ChoiceText(carried),
                 IsColumnOf(state, policy), ChoiceText(state));
    SelectedSame(StrictDestinations(), IsConstantOf(carried, policy), ChoiceText(carried),
                 IsConstantOf(state, policy), ChoiceText(state));
    SelectedSame(TimestampDestinations(), IsFormatOf(carried, policy), FormatText(carried),
                 IsFormatOf(state, policy), FormatText(state));
  }

  /** The written entries are the original ones, except for what the policy omits. */
  ghost predicate IsSameBut(written: seq<Entry>, original: seq<Entry>, policy: string) {
    && (forall f :: f in Keys(written) <==> f in Keys(original) && !IsOmitted(f, policy))
    && (forall f :: f in Keys(written) ==> TextAt(written, f) == TextAt(original, f))
  }

  lemma {:induction false} ColumnTexts(entries: seq<Entry>)
    requires AreColumns(entries)
    ensures forall f :: f in Keys(entries) ==> TextAt(entries, f) != "" && f in StrictDestinations()
  {
    hide StrictDestinations;
    if entries != [] {
      ColumnTexts(entries[1..]);
    }
  }

  lemma {:induction false} ConstantTexts(entries: seq<Entry>)
    requires AreConstants(entries)
    ensures forall f :: f in Keys(entries) ==> f in ConstantDestinations()
  {
    hide ConstantDestinations;
    if entries != [] {
      ConstantTexts(entries[1..]);
    }
  }

  lemma {:induction false} FormatTexts(entries: seq<Entry>)
    requires AreFormats(entries)
    ensures forall f :: f in Keys(entries) ==>
      f in TimestampDestinations() && TextAt(entries, f) in TimeFormatIds() && TextAt(entries, f) != ""
  {
    FormIdsAreNotEmpty();
    hide TimestampDestinations, TimeFormatIds;
    if entries != [] {
      FormatTexts(entries[1..]);
    }
  }

  lemma FormIdsAreNotEmpty()
    ensures "" !in TimeFormatIds()
  {
  }

  lemma ColumnKept(parts: Parts, policy: string, f: Key)
    requires IsShowable(parts)
    ensures var again := ColumnsOf(Shown(parts), policy);
      && (f in Keys(again) <==> f in Keys(parts.columns) && !IsOmitted(f, policy))
      && (f in Keys(again) ==> TextAt(again, f) == TextAt(parts.columns, f))
  {
    hide StrictDestinations, ColumnsOf, AreConstants, AreFormats, AreColumns, Keys, TextAt, DistinctKeys, Shown;
    ColumnsHold(Shown(parts), policy);
    ColumnTexts(parts.columns);
    ShownAt(parts, f);
  }

  lemma ConstantKept(parts: Parts, policy: string, f: Key)
    requires IsShowable(parts)
    ensures var again := ConstantsOf(Shown(parts), policy);
      && (f in Keys(again) <==> f in Keys(parts.constants) && !IsOmitted(f, policy))
      && (f in Keys(again) ==> TextAt(again, f) == TextAt(parts.constants, f))
  {
    DestinationsDiffer();
    hide StrictDestinations, ConstantDestinations, TimestampDestinations;
    hide ConstantsOf, AreConstants, AreFormats, AreColumns, Keys, TextAt, DistinctKeys, Shown;
    ConstantsHold(Shown(parts), policy);
    ConstantTexts(parts.constants);
    ShownAt(parts, f);
  }

  lemma ColumnsKept(parts: Parts, policy: string)
    requires IsShowable(parts)
    ensures IsSameBut(ColumnsOf(Shown(parts), policy), parts.columns, policy)
  {
    hide ColumnsOf, Keys, TextAt, Shown, IsShowable, IsOmitted;
    forall f {
      ColumnKept(parts, policy, f);
    }
  }

  lemma ConstantsKept(parts: Parts, policy: string)
    requires IsShowable(parts)
    ensures IsSameBut(ConstantsOf(Shown(parts), policy), parts.constants, policy)
  {
    hide ConstantsOf, Keys, TextAt, Shown, IsShowable, IsOmitted;
    forall f {
      ConstantKept(parts, policy, f);
    }
  }

  lemma FormatsKept(parts: Parts, policy: string)
    requires IsShowable(parts)
    ensures IsSameBut(FormatsOf(Shown(parts), policy), parts.formats.value, policy)
  {
    hide StrictDestinations, TimestampDestinations, FormatsOf, AreConstants, AreFormats, AreColumns, TimeFormatIds;
    FormatsHold(Shown(parts), policy);
    FormatTexts(parts.formats.value);
  }

  /**
   * A declaration that can be shown is written back with the same columns, constants, formats and
   * timezone, except for what a derived availability policy omits.
   */
  lemma ReadWriteKeepsDeclaration(mapping: Document, time: Document, policy: string)
    requires IsDocument(mapping) && IsDocument(time) && Reading(mapping, time).Success?
    ensures PartsOf(mapping, time).Success? && PartsOf(mapping, time).value.formats.Success?
    ensures var parts, state := PartsOf(mapping, time).value, Reading(mapping, time).value;
      var again := WrittenParts(state, policy);
      && PartsOf(MappingDocument(state, policy), TimeDocument(state, policy)) == Success(again)
      && IsSameBut(again.columns, parts.columns, policy)
      && IsSameBut(again.constants, parts.constants, policy)
      && IsSameBut(again.formats.value, parts.formats.value, policy)
      && TimezoneText(again) == TimezoneText(parts)
  {
    hide IsSameBut, PartsOf, MappingDocument, TimeDocument, ColumnsOf, ConstantsOf, FormatsOf, IsDocument, Reading;
    hide AreColumns, AreConstants, AreFormats, ColumnChoices, ConstantChoices, StatedFormats, PartsReading;
    ReadingIsExact(mapping, time);
    ReadingHasParts(mapping, time);
    var parts, state := PartsOf(mapping, time).value, Reading(mapping, time).value;
    ColumnsKept(parts, policy);
    ConstantsKept(parts, policy);
    FormatsKept(parts, policy);
    WrittenPartsAreRead(state, policy);
  }

  lemma ReadingHasParts(mapping: Document, time: Document)
    ensures Reading(mapping, time).Success? ==> PartsOf(mapping, time).Success?
  {
  }

  // ----- when nothing is lost

  function EntriesOf(document: Document): seq<Entry> { if document.Parsed? then document.entries else [] }

  /** Each key stands in the text that it is read from. */
  ghost predicate IsAtHome(mapping: Document, time: Document) {
    Keys(EntriesOf(mapping)) <= {Columns, Constants} && Keys(EntriesOf(time)) <= {Timezone, Formats}
  }

  /** Every name of the original is written again with its text. */
  ghost predicate StatesAll(written: seq<Entry>, original: seq<Entry>) {
    forall f :: f in Keys(original) ==> f in Keys(written) && TextAt(written, f) == TextAt(original, f)
  }

  ghost predicate IsSameValue(original: Json, written: Json) {
    if original.Object? && written.Object? then StatesAll(written.entries, original.entries)
    else original == written
  }

  /** Whatever the original states is stated again: every key, and under it every name with its text. */
  ghost predicate IsKept(original: Document, written: Document) { AreKept(EntriesOf(original), EntriesOf(written)) }

  ghost predicate AreKept(original: seq<Entry>, written: seq<Entry>) {
    forall k :: k in Keys(original) ==> IsKeptAt(original, written, k)
  }

  ghost predicate IsKeptAt(original: seq<Entry>, written: seq<Entry>, k: Key)
    requires k in Keys(original)
  {
    k in Keys(written) && IsSameValue(Lookup(original, k).value, Lookup(written, k).value)
  }

  /** What is written back states everything exactly when the policy omits none of it. */
  lemma StatesAllExactly(written: seq<Entry>, original: seq<Entry>, policy: string)
    requires IsSameBut(written, original, policy)
    ensures StatesAll(written, original) <==> !(policy == AVAILABILITY_SIMULATED && AvailableAt in Keys(original))
  {
  }

  lemma TwoKeys(a: Entry, b: Entry)
    ensures Keys([a, b]) == {a.key, b.key}
  {
    assert [a, b][1..] == [b] && [b][1..] == [];
    assert Keys([]) == {};
    assert Keys([b]) == {b.key};
    assert Keys([a, b]) == {a.key} + Keys([b]);
  }

  /** The value under this key of the original, if there is one, is the entry's. */
  ghost predicate Repeats(original: seq<Entry>, e: Entry) {
    e.key in Keys(original) ==> IsSameValue(Lookup(original, e.key).value, e.value)
  }

  /** A text of two entries keeps an original exactly when that has no other key and the same values. */
  lemma KeptByTwo(original: seq<Entry>, a: Entry, b: Entry)
    requires a.key != b.key
    requires a.key in [Columns, Constants, Timezone, Formats] && b.key in [Columns, Constants, Timezone, Formats]
    ensures AreKept(original, [a, b])
      <==> Keys(original) <= {a.key, b.key} && Repeats(original, a) && Repeats(original, b)
  {
    TwoEntries(a, b);
    TwoKeys(a, b);
    hide IsSameValue, Lookup, Keys;
    if Keys(original) <= {a.key, b.key} && Repeats(original, a) && Repeats(original, b) {
      forall k | k in Keys(original) ensures IsKeptAt(original, [a, b], k) {
        assert k == a.key || k == b.key;
      }
    }
    if AreKept(original, [a, b]) {
      assert a.key in Keys(original) ==> IsKeptAt(original, [a, b], a.key);
      assert b.key in Keys(original) ==> IsKeptAt(original, [a, b], b.key);
    }
  }

  lemma NamedObjectStands(entries: seq<Entry>, key: Key)
    requires NamedObject(entries, key).Success? && key in Keys(entries)
    ensures Lookup(entries, key) == Some(Object(NamedObject(entries, key).value))
  {
    hide Lookup, Keys;
  }

  /** Where a successful reading found its four parts. */
  lemma ReadParts(mapping: Document, time: Document)
    requires Reading(mapping, time).Success?
    ensures PartsOf(mapping, time).Success?
    ensures var parts := PartsOf(mapping, time).value;
      && NamedObject(EntriesOf(mapping), Columns) == Success(parts.columns)
      && NamedObject(EntriesOf(mapping), Constants) == Success(parts.constants)
      && Lookup(EntriesOf(time), Timezone) == parts.timezone
      && NamedObject(EntriesOf(time), Formats) == parts.formats
  {
    hide NamedObject, Lookup, Strays, PartsReading;
  }

  lemma ReadTimezone(parts: Parts)
    requires PartsReading(parts).Success? && parts.timezone.Some?
    ensures parts.timezone == Some(Text(TimezoneText(parts)))
  {
    hide ChoicesReading, ReadFormats;
  }

  /** An object that was read and is written back is repeated exactly when the policy omits none of it. */
  lemma ObjectRepeats(entries: seq<Entry>, key: Key, written: seq<Entry>, policy: string)
    requires NamedObject(entries, key).Success? && IsSameBut(written, NamedObject(entries, key).value, policy)
    ensures Repeats(entries, Entry(key, Object(written)))
      <==> !(policy == AVAILABILITY_SIMULATED && AvailableAt in Keys(NamedObject(entries, key).value))
  {
    StatesAllExactly(written, NamedObject(entries, key).value, policy);
    if key in Keys(entries) {
      NamedObjectStands(entries, key);
      hide StatesAll, NamedObject, Keys, IsSameBut;
    }
  }

  /** The declaration states an availability time, which the simulated policy does not let be written. */
  ghost predicate StatesOmitted(parts: Parts, policy: string)
    requires parts.formats.Success?
  {
    policy == AVAILABILITY_SIMULATED && (AvailableAt in Keys(parts.columns) || AvailableAt in Keys(parts.formats.value))
  }

  lemma NoOmittedConstant(mapping: Document, time: Document)
    requires IsDocument(mapping) && IsDocument(time) && Reading(mapping, time).Success?
    ensures PartsOf(mapping, time).Success? && AvailableAt !in Keys(PartsOf(mapping, time).value.constants)
  {
    hide IsDocument, DistinctKeys, InnerDistinct, PartsOf, PartsReading, Keys, Shown;
    ReadingIsExact(mapping, time);
    ReadingHasParts(mapping, time);
    ConstantTexts(PartsOf(mapping, time).value.constants);
  }

  /** The mapping text is kept exactly when it states its own two keys at most and no omitted column. */
  lemma MappingKeptExactly(mapping: Document, time: Document, policy: string)
    requires IsDocument(mapping) && IsDocument(time) && Reading(mapping, time).Success?
    ensures PartsOf(mapping, time).Success?
    ensures IsKept(mapping, MappingDocument(Reading(mapping, time).value, policy))
      <==> Keys(EntriesOf(mapping)) <= {Columns, Constants}
           && !(policy == AVAILABILITY_SIMULATED && AvailableAt in Keys(PartsOf(mapping, time).value.columns))
  {
    hide IsDocument, IsSameBut, Keys, Lookup, NamedObject, PartsOf, Reading, ColumnsOf, ConstantsOf, FormatsOf, Repeats;
    var state, entries := Reading(mapping, time).value, EntriesOf(mapping);
    var a, b := Entry(Columns, Object(ColumnsOf(state, policy))), Entry(Constants, Object(ConstantsOf(state, policy)));
    ReadWriteKeepsDeclaration(mapping, time, policy);
    ReadParts(mapping, time);
    NoOmittedConstant(mapping, time);
    ObjectRepeats(entries, Columns, ColumnsOf(state, policy), policy);
    ObjectRepeats(entries, Constants, ConstantsOf(state, policy), policy);
    KeptByTwo(entries, a, b);
    hide AreKept;
    assert EntriesOf(MappingDocument(state, policy)) == [a, b];
  }

  /** The same for the time text and an omitted format. */
  lemma TimeKeptExactly(mapping: Document, time: Document, policy: string)
    requires IsDocument(mapping) && IsDocument(time) && Reading(mapping, time).Success?
    ensures PartsOf(mapping, time).Success? && PartsOf(mapping, time).value.formats.Success?
    ensures IsKept(time, TimeDocument(Reading(mapping, time).value, policy))
      <==> Keys(EntriesOf(time)) <= {Timezone, Formats}
           && !(policy == AVAILABILITY_SIMULATED && AvailableAt in Keys(PartsOf(mapping, time).value.formats.value))
  {
    hide IsDocument, IsSameBut, Keys, Lookup, NamedObject, PartsOf, PartsReading, ColumnsOf, ConstantsOf, FormatsOf,
         Repeats;
    var state, entries := Reading(mapping, time).value, EntriesOf(time);
    var a, b := Entry(Timezone, Text(state.timezone)), Entry(Formats, Object(FormatsOf(state, policy)));
    ReadWriteKeepsDeclaration(mapping, time, policy);
    ReadParts(mapping, time);
    var parts := PartsOf(mapping, time).value;
    assert PartsReading(parts).Success?;
    hide Reading;
    TimezoneRepeats(entries, parts, state.timezone);
    ObjectRepeats(entries, Formats, FormatsOf(state, policy), policy);
    KeptByTwo(entries, a, b);
    hide AreKept;
    assert EntriesOf(TimeDocument(state, policy)) == [a, b];
  }

  lemma TimezoneRepeats(entries: seq<Entry>, parts: Parts, text: string)
    requires PartsReading(parts).Success? && Lookup(entries, Timezone) == parts.timezone && text == TimezoneText(parts)
    ensures Repeats(entries, Entry(Timezone, Text(text)))
  {
    hide PartsReading, Lookup, Keys, TimezoneText;
    if Timezone in Keys(entries) {
      ReadTimezone(parts);
    }
  }

  /**
   * Showing a declaration and writing it back loses nothing it states exactly when the mapping text
   * states no timezone or formats, the time text no columns or constants, and, under the simulated
   * policy, neither the columns nor the formats an availability time. All four names are accepted in
   * either text, and read from their own alone.
   */
  lemma LosesNothingExactly(mapping: Document, time: Document, policy: string)
    requires IsDocument(mapping) && IsDocument(time) && Reading(mapping, time).Success?
    ensures PartsOf(mapping, time).Success? && PartsOf(mapping, time).value.formats.Success?
    ensures LosesNothing(mapping, time, Reading(mapping, time).value, policy)
      <==> IsAtHome(mapping, time) && !StatesOmitted(PartsOf(mapping, time).value, policy)
  {
    MappingKeptExactly(mapping, time, policy);
    TimeKeptExactly(mapping, time, policy);
    hide IsKept, Reading, MappingDocument, TimeDocument, Keys, PartsOf;
  }

  /** Both texts are kept when the state is written. */
  ghost predicate LosesNothing(mapping: Document, time: Document, state: State, policy: string) {
    IsKept(mapping, MappingDocument(state, policy)) && IsKept(time, TimeDocument(state, policy))
  }

  /** A timezone stated in the mapping text is accepted, not shown, and not written again. */
  lemma MisplacedTimezoneIsDropped(policy: string)
    ensures var mapping, state := Parsed([Entry(Timezone, Text("UTC"))]), State(map[], "", map[]);
      Reading(mapping, Blank) == Success(state) && !LosesNothing(mapping, Blank, state, policy)
  {
    var mapping := Parsed([Entry(Timezone, Text("UTC"))]);
    assert mapping.entries[1..] == [];
    assert Timezone in Keys(EntriesOf(mapping));
    assert !IsAtHome(mapping, Blank);
    hide LosesNothing, IsAtHome;
    LosesNothingExactly(mapping, Blank, policy);
  }

  /** Under the simulated policy a column stated for the availability time is shown and not written again. */
  lemma StatedAvailabilityIsDropped()
    ensures var mapping := Parsed([Entry(Columns, Object([Entry(AvailableAt, Text("ts"))]))]);
      var state := State(map[AvailableAt := Column("ts")], "", map[]);
      Reading(mapping, Blank) == Success(state) && !LosesNothing(mapping, Blank, state, AVAILABILITY_SIMULATED)
  {
    var inner := [Entry(AvailableAt, Text("ts"))];
    var mapping := Parsed([Entry(Columns, Object(inner))]);
    assert mapping.entries[1..] == [] && inner[1..] == [];
    assert DistinctKeys([]) && InnerDistinct([]) && DistinctKeys(inner);
    assert IsDocument(mapping);
    assert AvailableAt in Keys(inner);
    AvailabilityIsRead(inner);
    assert PartsOf(mapping, Blank) == Success(Parts(inner, [], None, Success([])));
    assert PartsReading(Parts(inner, [], None, Success([])))
      == Success(State(map[AvailableAt := Column("ts")], "", map[]));
    hide LosesNothing, PartsReading;
    LosesNothingExactly(mapping, Blank, AVAILABILITY_SIMULATED);
  }

  lemma AvailabilityIsRead(inner: seq<Entry>)
    requires inner == [Entry(AvailableAt, Text("ts"))]
    ensures ReadColumns(inner, map[]) == Success(map[AvailableAt := Column("ts")])
  {
    assert inner[1..] == [];
    assert AvailableAt in StrictDestinations();
    assert ReadColumns([], map[AvailableAt := Column("ts")]) == Success(map[AvailableAt := Column("ts")]);
  }

  // ----- what is still undeclared

  predicate IsRequired(field: Key, policy: string) {
    field in StrictDestinations() && !IsOmitted(field, policy)
  }

  predicate IsUndeclared(state: State, policy: string, field: Key) {
    !IsOmitted(field, policy) && (field !in state.choices || state.choices[field].value == "")
  }

  /** The undeclared ones among the fields, in the fields' own order. */
  function UndeclaredAmong(fields: seq<Key>, state: State, policy: string): (left: seq<Key>)
    ensures forall f :: f in left <==> f in fields && IsUndeclared(state, policy, f)
  {
    if fields == [] then []
    else
      (if IsUndeclared(state, policy, fields[0]) then [fields[0]] else []) + UndeclaredAmong(fields[1..], state, policy)
  }

  function Undeclared(state: State, policy: string): seq<Key> { UndeclaredAmong(StrictDestinations(), state, policy) }

  lemma NothingUndeclared(state: State, policy: string)
    ensures Undeclared(state, policy) == []
      <==> forall f :: f in StrictDestinations() ==> !IsUndeclared(state, policy, f)
  {
    hide StrictDestinations, IsUndeclared;
    var undeclared := Undeclared(state, policy);
    if undeclared != [] {
      assert undeclared[0] in undeclared;
    }
  }

  /** Every required destination and no other is written, and no constant is still empty. */
  ghost predicate IsCovered(columns: seq<Entry>, constants: seq<Entry>, policy: string) {
    && (forall f :: f in Keys(columns) || f in Keys(constants) <==> IsRequired(f, policy))
    && (forall f :: f in Keys(constants) ==> TextAt(constants, f) != "")
  }

  /**
   * Nothing is left to declare exactly when the written columns and constants, which never share a
   * destination, cover all and only the required destinations and no constant is still empty.
   */
  lemma DeclaredIsCovered(state: State, policy: string)
    ensures Keys(ColumnsOf(state, policy)) !! Keys(ConstantsOf(state, policy))
    ensures Undeclared(state, policy) == [] <==> IsCovered(ColumnsOf(state, policy), ConstantsOf(state, policy), policy)
  {
    hide ColumnsOf, ConstantsOf, StrictDestinations, Undeclared, Keys, TextAt, Carried, Shown, DistinctKeys;
    NothingUndeclared(state, policy);
    ColumnsHold(state, policy);
    ConstantsHold(state, policy);
    WrittenDisjoint(state, policy);
    forall f | f in StrictDestinations() && IsUndeclared(state, policy, f)
      ensures !IsCovered(ColumnsOf(state, policy), ConstantsOf(state, policy), policy)
    {
      assert IsRequired(f, policy);
    }
  }
}
