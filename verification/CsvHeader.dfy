/**
 * The header row of a CSV file (section 2 of RFC 4180): a character scanner over the first record,
 * and an independent writer of header rows. The scanner accepts exactly what the writer can write.
 */
module CsvHeader {
  import opened Wrappers

  datatype Problem =
    | EmptyFile
    | TextAfterQuote(junk: string)
    | QuoteInsideName(field: string)
    | UnterminatedQuote
    | UnnamedColumn(column: nat)
    | RepeatedColumn(name: string)

  datatype Notice = ByteOrderMarkDropped

  datatype Header = Header(names: seq<string>, notices: seq<Notice>)

  const BYTE_ORDER_MARK: char := '\U{FEFF}'

  predicate IsLineEnd(c: char) { c == '\n' || c == '\r' }

  /** What JavaScript's `trim` removes. */
  predicate IsWhite(c: char) {
    || c in "\t\n\r \U{0B}\U{0C}\U{A0}\U{1680}\U{2028}\U{2029}\U{202F}\U{205F}\U{3000}\U{FEFF}"
    || '\U{2000}' <= c <= '\U{200A}'
  }

  /** `name.trim() === ''`. */
  predicate IsBlank(name: string) { forall i :: 0 <= i < |name| ==> IsWhite(name[i]) }

  predicate AllNamed(names: seq<string>) { forall i :: 0 <= i < |names| ==> !IsBlank(names[i]) }

  predicate AllDistinct(names: seq<string>) {
    forall i, j :: 0 <= i < j < |names| ==> names[i] != names[j]
  }

  // ----- the scanner

  /** Where the scanner stands: in a bare name, inside quotes, or just after a closing quote. */
  datatype Mode = Bare | Quoted | Closed

  /** `rest.split(/[,\r\n]/, 1)[0]`. */
  function Junk(rest: string): string {
    if rest == "" || rest[0] == ',' || IsLineEnd(rest[0]) then "" else [rest[0]] + Junk(rest[1..])
  }

  function Scan(rest: string, field: string, mode: Mode, names: seq<string>): (r: Result<seq<string>, Problem>)
    decreases |rest|
  {
    if rest == "" then
      if mode.Quoted? then Failure(UnterminatedQuote) else Success(names + [field])
    else
      var c := rest[0];
      match mode
      case Quoted =>
        if c != '"' then Scan(rest[1..], field + [c], Quoted, names)
        else if |rest| > 1 && rest[1] == '"' then Scan(rest[2..], field + ['"'], Quoted, names)
        else Scan(rest[1..], field, Closed, names)
      case Closed =>
        if c == ',' then Scan(rest[1..], "", Bare, names + [field])
        else if IsLineEnd(c) then Success(names + [field])
        else Failure(TextAfterQuote(Junk(rest)))
      case Bare =>
        if c == '"' then
          if field != "" then Failure(QuoteInsideName(field)) else Scan(rest[1..], field, Quoted, names)
        else if c == ',' then Scan(rest[1..], "", Bare, names + [field])
        else if IsLineEnd(c) then Success(names + [field])
        else Scan(rest[1..], field + [c], Bare, names)
  }

  predicate HasMark(content: string) { content != "" && content[0] == BYTE_ORDER_MARK }

  function WithoutMark(content: string): string { if HasMark(content) then content[1..] else content }

  /** The first blank name's column, counted from one, or the first name seen before. */
  function NamingProblem(names: seq<string>): (p: Option<Problem>)
    ensures p.None? <==> AllNamed(names) && AllDistinct(names)
  {
    var unnamed := FirstBlank(names, 0);
    if unnamed < |names| then Some(UnnamedColumn(unnamed + 1))
    else
      var repeated := FirstRepeat(names, 0);
      if repeated < |names| then Some(RepeatedColumn(names[repeated])) else None
  }

  function FirstBlank(names: seq<string>, from: nat): (k: nat)
    requires from <= |names|
    ensures from <= k <= |names|
    ensures forall i :: from <= i < k ==> !IsBlank(names[i])
    ensures k < |names| ==> IsBlank(names[k])
    decreases |names| - from
  {
    if from == |names| || IsBlank(names[from]) then from else FirstBlank(names, from + 1)
  }

  function FirstRepeat(names: seq<string>, from: nat): (k: nat)
    requires from <= |names|
    ensures from <= k <= |names|
    ensures forall i :: from <= i < k ==> names[i] !in names[..i]
    ensures k < |names| ==> names[k] in names[..k]
    decreases |names| - from
  {
    if from == |names| || names[from] in names[..from] then from else FirstRepeat(names, from + 1)
  }

  /** What reading a header returns. */
  function HeaderOf(content: string): Result<Header, Problem> {
    if content == "" then Failure(EmptyFile)
    else
      match Scan(WithoutMark(content), "", Bare, [])
      case Failure(problem) => Failure(problem)
      case Success(names) =>
        match NamingProblem(names)
        case Some(problem) => Failure(problem)
        case None => Success(Header(names, if HasMark(content) then [ByteOrderMarkDropped] else []))
  }

  /** The scanning loop: the names of the first record, or why it does not say where a name ends. */
  method ReadNames(text: string) returns (r: Result<seq<string>, Problem>)
    ensures r == Scan(text, "", Bare, [])
  {
    ghost var whole := Scan(text, "", Bare, []);
    assert text[0..] == text;
    var names: seq<string> := [];
    var field, quoted, closed, index := "", false, false, 0;
    while index < |text|
      invariant 0 <= index <= |text|
      invariant !(quoted && closed)
      invariant whole == Scan(text[index..], field, ModeOf(quoted, closed), names)
      decreases |text| - index
    {
      var character := text[index];
      assert text[index..][1..] == text[index + 1..];
      if quoted {
        if character != '"' {
          field := field + [character];
          index := index + 1;
        } else if index + 1 < |text| && text[index + 1] == '"' {
          assert text[index..][2..] == text[index + 2..];
          field := field + ['"'];
          index := index + 2;
        } else {
          quoted := false;
          closed := true;
          index := index + 1;
        }
      } else if closed {
        if character == ',' {
          names, field, closed := names + [field], "", false;
          index := index + 1;
        } else if IsLineEnd(character) {
          break;
        } else {
          return Failure(TextAfterQuote(Junk(text[index..])));
        }
      } else if character == '"' {
        if field != "" {
          return Failure(QuoteInsideName(field));
        }
        quoted := true;
        index := index + 1;
      } else if character == ',' {
        names, field := names + [field], "";
        index := index + 1;
      } else if IsLineEnd(character) {
        break;
      } else {
        field := field + [character];
        index := index + 1;
      }
    }
    if quoted {
      return Failure(UnterminatedQuote);
    }
    return Success(names + [field]);
  }

  method ReadHeader(content: string) returns (r: Result<Header, Problem>)
    ensures r == HeaderOf(content)
  {
    if content == "" {
      return Failure(EmptyFile);
    }
    var notices: seq<Notice> := [];
    var text := content;
    if text[0] == BYTE_ORDER_MARK {
      text := text[1..];
      notices := notices + [ByteOrderMarkDropped];
    }
    var read := ReadNames(text);
    if read.Failure? {
      return Failure(read.error);
    }
    hide Scan;
    var names := read.value;
    var unnamed := FirstBlank(names, 0);
    if unnamed < |names| {
      return Failure(UnnamedColumn(unnamed + 1));
    }
    var seen: set<string> := {};
    for k := 0 to |names|
      invariant seen == set i | 0 <= i < k :: names[i]
      invariant FirstRepeat(names, 0) == FirstRepeat(names, k)
    {
      if names[k] in seen {
        return Failure(RepeatedColumn(names[k]));
      }
      seen := seen + {names[k]};
    }
    assert FirstRepeat(names, 0) == |names|;
    assert notices == if HasMark(content) then [ByteOrderMarkDropped] else [];
    return Success(Header(names, notices));
  }

  function ModeOf(quoted: bool, closed: bool): Mode {
    if quoted then Quoted else if closed then Closed else Bare
  }

  // ----- the writer

  /** A name with its quotes doubled. */
  function Doubled(name: string): string {
    if name == "" then "" else (if name[0] == '"' then "\"\"" else [name[0]]) + Doubled(name[1..])
  }

  predicate CanBeBare(name: string) {
    forall i :: 0 <= i < |name| ==> name[i] != ',' && name[i] != '"' && !IsLineEnd(name[i])
  }

  /** A name as it is written: wholly quoted, or bare. */
  function Written(name: string, quote: bool): string {
    if quote then "\"" + Doubled(name) + "\"" else name
  }

  function Row(names: seq<string>, quotes: seq<bool>): string
    requires |names| == |quotes|
  {
    if |names| == 0 then ""
    else if |names| == 1 then Written(names[0], quotes[0])
    else Written(names[0], quotes[0]) + "," + Row(names[1..], quotes[1..])
  }

  predicate IsWritable(names: seq<string>, quotes: seq<bool>) {
    && |names| == |quotes| > 0
    && forall i :: 0 <= i < |names| ==> quotes[i] || CanBeBare(names[i])
  }

  /** Nothing, or anything that begins with a line end. */
  predicate EndsRecord(tail: string) { tail == "" || IsLineEnd(tail[0]) }

  // ----- what is written is read back

  lemma {:induction false} ScanDoubled(name: string, after: string, field: string, names: seq<string>)
    requires after == "" || after[0] != '"'
    ensures Scan(Doubled(name) + "\"" + after, field, Quoted, names) == Scan(after, field + name, Closed, names)
    decreases |name|
  {
    var text := Doubled(name) + "\"" + after;
    if name == "" {
      assert text == "\"" + after;
      assert text[1..] == after;
      assert field + name == field;
    } else {
      var rest := Doubled(name[1..]) + "\"" + after;
      ScanDoubled(name[1..], after, field + [name[0]], names);
      assert field + [name[0]] + name[1..] == field + name;
      if name[0] == '"' {
        assert text == "\"\"" + rest;
        assert text[2..] == rest;
      } else {
        assert text == [name[0]] + rest;
        assert text[1..] == rest;
      }
    }
  }

  lemma {:induction false} ScanBare(name: string, after: string, field: string, names: seq<string>)
    requires CanBeBare(name)
    ensures Scan(name + after, field, Bare, names) == Scan(after, field + name, Bare, names)
    decreases |name|
  {
    if name == "" {
      assert name + after == after;
      assert field + name == field;
    } else {
      ScanBare(name[1..], after, field + [name[0]], names);
      assert (name + after)[1..] == name[1..] + after;
      assert field + [name[0]] + name[1..] == field + name;
    }
  }

  lemma ScanWritten(name: string, quote: bool, after: string, names: seq<string>)
    requires quote || CanBeBare(name)
    requires after == "" || after[0] == ',' || IsLineEnd(after[0])
    ensures Scan(Written(name, quote) + after, "", Bare, names) ==
      if after != "" && after[0] == ',' then Scan(after[1..], "", Bare, names + [name])
      else Success(names + [name])
  {
    if quote {
      var rest := Doubled(name) + "\"" + after;
      assert Written(name, quote) + after == "\"" + rest;
      assert ("\"" + rest)[1..] == rest;
      ScanDoubled(name, after, "", names);
      assert "" + name == name;
    } else {
      ScanBare(name, after, "", names);
      assert "" + name == name;
    }
  }

  lemma {:induction false} ScanRow(names: seq<string>, quotes: seq<bool>, tail: string, before: seq<string>)
    requires IsWritable(names, quotes) && EndsRecord(tail)
    ensures Scan(Row(names, quotes) + tail, "", Bare, before) == Success(before + names)
    decreases |names|
  {
    if |names| == 1 {
      hide Scan;
      ScanWritten(names[0], quotes[0], tail, before);
      assert before + names == before + [names[0]];
    } else {
      var first, row := Written(names[0], quotes[0]), Row(names[1..], quotes[1..]);
      var rest := row + tail;
      assert Row(names, quotes) == first + "," + row;
      Regroup(first + ",", row, tail);
      Regroup(first, ",", rest);
      assert ("," + rest)[1..] == rest;
      hide Scan, Row, Written, CanBeBare;
      ScanWritten(names[0], quotes[0], "," + rest, before);
      ScanRow(names[1..], quotes[1..], tail, before + [names[0]]);
      assert before + [names[0]] + names[1..] == before + names;
    }
  }

  /** What the scanner has already read of the name it is in. */
  function Consumed(field: string, mode: Mode): string {
    match mode
    case Bare => field
    case Quoted => "\"" + Doubled(field)
    case Closed => "\"" + Doubled(field) + "\""
  }

  lemma {:induction false} DoubledAppend(field: string, c: char)
    ensures Doubled(field + [c]) == Doubled(field) + (if c == '"' then "\"\"" else [c])
  {
    if field == "" {
      assert field + [c] == [c];
      assert [c][1..] == "";
    } else {
      DoubledAppend(field[1..], c);
      assert (field + [c])[1..] == field[1..] + [c];
    }
  }

  /** One complete name followed by a comma and a row, as one longer row. */
  lemma RowCons(name: string, quote: bool, names: seq<string>, quotes: seq<bool>)
    requires IsWritable(names, quotes) && (quote || CanBeBare(name))
    ensures IsWritable([name] + names, [quote] + quotes)
    ensures Row([name] + names, [quote] + quotes) == Written(name, quote) + "," + Row(names, quotes)
  {
    assert ([name] + names)[1..] == names;
    assert ([quote] + quotes)[1..] == quotes;
  }

  /** From this point the scanner succeeds, and what it reads completes a row of `names`. */
  ghost predicate CompletesRow(rest: string, field: string, mode: Mode, before: seq<string>,
                               names: seq<string>, quotes: seq<bool>, tail: string) {
    && IsWritable(names, quotes) && EndsRecord(tail)
    && (mode != Bare ==> quotes[0])
    && Consumed(field, mode) + rest == Row(names, quotes) + tail
    && Scan(rest, field, mode, before) == Success(before + names)
  }

  lemma CompletesAtEnd(rest: string, field: string, mode: Mode, before: seq<string>)
    requires !mode.Quoted? && EndsRecord(rest) && (mode.Bare? ==> CanBeBare(field))
    ensures CompletesRow(rest, field, mode, before, [field], [mode.Closed?], rest)
  {
  }

  /** A step that only moves characters from the rest into the name keeps what is read. */
  lemma CompletesByStep(rest: string, field: string, mode: Mode, before: seq<string>,
                        rest': string, field': string, mode': Mode,
                        names: seq<string>, quotes: seq<bool>, tail: string)
    requires CompletesRow(rest', field', mode', before, names, quotes, tail)
    requires Scan(rest, field, mode, before) == Scan(rest', field', mode', before)
    requires Consumed(field, mode) + rest == Consumed(field', mode') + rest'
    requires mode != Bare ==> mode' != Bare
    ensures CompletesRow(rest, field, mode, before, names, quotes, tail)
  {
  }

  lemma ConsumedIsWritten(field: string, mode: Mode)
    requires !mode.Quoted?
    ensures Consumed(field, mode) == Written(field, mode.Closed?)
  {
  }

  lemma Regroup(a: string, b: string, c: string)
    ensures a + (b + c) == a + b + c
  {
  }

  lemma CompletesByComma(rest: string, field: string, mode: Mode, before: seq<string>,
                         names: seq<string>, quotes: seq<bool>, tail: string)
    requires !mode.Quoted? && (mode.Bare? ==> CanBeBare(field))
    requires CompletesRow(rest, "", Bare, before + [field], names, quotes, tail)
    ensures CompletesRow("," + rest, field, mode, before, [field] + names, [mode.Closed?] + quotes, tail)
  {
    hide Row, Written, IsWritable;
    var text := "," + rest;
    assert text[1..] == rest;
    RowCons(field, mode.Closed?, names, quotes);
    assert "" + rest == rest;
    ConsumedIsWritten(field, mode);
    Regroup(Written(field, mode.Closed?), ",", rest);
    Regroup(Written(field, mode.Closed?) + ",", Row(names, quotes), tail);
    assert before + [field] + names == before + ([field] + names);
  }

  lemma ScanStep(rest: string, field: string, mode: Mode, before: seq<string>)
      returns (rest': string, field': string, mode': Mode)
    requires rest != "" && (mode.Bare? ==> CanBeBare(field))
    requires !mode.Quoted? ==> mode.Bare? && rest[0] != ',' && !IsLineEnd(rest[0]) && (rest[0] == '"' ==> field == "")
    ensures |rest'| < |rest| && Scan(rest, field, mode, before) == Scan(rest', field', mode', before)
    ensures Consumed(field, mode) + rest == Consumed(field', mode') + rest'
    ensures (mode != Bare ==> mode' != Bare) && (mode'.Bare? ==> CanBeBare(field'))
    ensures mode'.Closed? ==> rest' == "" || rest'[0] != '"'
  {
    hide Doubled;
    var c := rest[0];
    if mode.Quoted? && c == '"' && |rest| > 1 && rest[1] == '"' {
      rest', field', mode' := rest[2..], field + ['"'], Quoted;
      DoubledAppend(field, '"');
      assert rest == "\"\"" + rest';
    } else if mode.Quoted? && c == '"' {
      rest', field', mode' := rest[1..], field, Closed;
      assert rest == "\"" + rest';
    } else if mode.Quoted? {
      rest', field', mode' := rest[1..], field + [c], Quoted;
      DoubledAppend(field, c);
      assert rest == [c] + rest';
    } else if c == '"' {
      rest', field', mode' := rest[1..], field, Quoted;
      DoubledEmpty();
      assert rest == "\"" + rest';
    } else {
      rest', field', mode' := rest[1..], field + [c], Bare;
      assert rest == [c] + rest';
    }
  }

  /** Whenever the scanner succeeds, what it read is a written row and a record end. */
  lemma {:induction false} ScanReadsRow(rest: string, field: string, mode: Mode, before: seq<string>)
      returns (names: seq<string>, quotes: seq<bool>, tail: string)
    requires mode.Bare? ==> CanBeBare(field)
    requires Scan(rest, field, mode, before).Success?
    ensures CompletesRow(rest, field, mode, before, names, quotes, tail)
    decreases |rest|
  {
    if !mode.Quoted? && EndsRecord(rest) {
      names, quotes, tail := [field], [mode.Closed?], rest;
      CompletesAtEnd(rest, field, mode, before);
    } else if !mode.Quoted? && rest[0] == ',' {
      var others, styles;
      others, styles, tail := ScanReadsRow(rest[1..], "", Bare, before + [field]);
      names, quotes := [field] + others, [mode.Closed?] + styles;
      CompletesByComma(rest[1..], field, mode, before, others, styles, tail);
      assert rest == "," + rest[1..];
    } else {
      var rest', field', mode' := ScanStep(rest, field, mode, before);
      names, quotes, tail := ScanReadsRow(rest', field', mode', before);
      CompletesByStep(rest, field, mode, before, rest', field', mode', names, quotes, tail);
    }
  }

  lemma DoubledEmpty()
    ensures Doubled("") == ""
  {
  }

  /** A row that begins with a non-blank name begins as that name is written. */
  lemma RowBegins(names: seq<string>, quotes: seq<bool>)
    requires IsWritable(names, quotes) && !IsBlank(names[0])
    ensures var first := Written(names[0], quotes[0]);
      first != "" && Row(names, quotes) != "" && Row(names, quotes)[0] == first[0]
  {
    assert names[0] != "";
  }

  /** A header row of these names under these quoting choices, up to a record end. */
  ghost predicate IsHeaderRow(text: string, names: seq<string>, quotes: seq<bool>, tail: string) {
    IsWritable(names, quotes) && EndsRecord(tail) && text == Row(names, quotes) + tail
  }

  /**
   * The reader succeeds with `names` exactly when the text, after at most one byte-order mark, is
   * some written row of those names followed by a record end, and the names are non-blank and
   * pairwise distinct.
   */
  lemma HeaderIsExact(content: string, names: seq<string>)
    ensures (HeaderOf(content).Success? && HeaderOf(content).value.names == names)
      <==>
      (AllNamed(names) && AllDistinct(names)
       && exists quotes, tail :: IsHeaderRow(WithoutMark(content), names, quotes, tail))
    ensures HeaderOf(content).Success? ==>
      HeaderOf(content).value.notices == (if HasMark(content) then [ByteOrderMarkDropped] else [])
  {
    hide Scan, Row, Written, NamingProblem;
    var text := WithoutMark(content);
    if HeaderOf(content).Success? && HeaderOf(content).value.names == names {
      var read, quotes, tail := ScanReadsRow(text, "", Bare, []);
      assert [] + read == read && "" + text == text;
      assert IsHeaderRow(text, names, quotes, tail);
    }
    if AllNamed(names) && AllDistinct(names) && exists quotes, tail :: IsHeaderRow(text, names, quotes, tail) {
      var quotes, tail :| IsHeaderRow(text, names, quotes, tail);
      ScanRow(names, quotes, tail, []);
      RowBegins(names, quotes);
      assert [] + names == names;
    }
  }

  /** Distinct non-blank names survive being written in any style, with any line end and tail after them. */
  lemma HeaderRoundTrip(names: seq<string>, quotes: seq<bool>, tail: string)
    requires IsWritable(names, quotes) && EndsRecord(tail)
    requires AllNamed(names) && AllDistinct(names)
    requires !quotes[0] ==> !HasMark(names[0])
    ensures HeaderOf(Row(names, quotes) + tail) == Success(Header(names, []))
    ensures HeaderOf([BYTE_ORDER_MARK] + (Row(names, quotes) + tail)) == Success(Header(names, [ByteOrderMarkDropped]))
  {
    var content := Row(names, quotes) + tail;
    RowBegins(names, quotes);
    assert IsHeaderRow(content, names, quotes, tail);
    HeaderIsExact(content, names);
    assert ([BYTE_ORDER_MARK] + content)[1..] == content;
  }

  /** A naming refusal points at the first fault of its kind, blanks before repeats. */
  lemma NamingRefusals(names: seq<string>, column: nat, name: string)
    ensures NamingProblem(names) == Some(UnnamedColumn(column))
      <==> 1 <= column <= |names| && IsBlank(names[column - 1]) && AllNamed(names[..column - 1])
    ensures NamingProblem(names) == Some(RepeatedColumn(name))
      <==> AllNamed(names) && exists k :: IsFirstRepeat(names, k, name)
  {
    var unnamed, repeated := FirstBlank(names, 0), FirstRepeat(names, 0);
    if AllNamed(names) {
      if repeated < |names| {
        DistinctPrefix(names, repeated);
      }
      if repeated < |names| {
        assert IsFirstRepeat(names, repeated, names[repeated]);
      }
      if k :| IsFirstRepeat(names, k, name) {
        FirstRepeatIsFirst(names, k, name);
      }
    }
  }

  ghost predicate IsFirstRepeat(names: seq<string>, k: nat, name: string) {
    k < |names| && names[k] == name && name in names[..k] && AllDistinct(names[..k])
  }

  lemma FirstRepeatIsFirst(names: seq<string>, k: nat, name: string)
    requires IsFirstRepeat(names, k, name)
    ensures FirstRepeat(names, 0) == k
  {
    forall i | 0 <= i < k ensures names[i] !in names[..i] {
      forall j | 0 <= j < i ensures names[..i][j] != names[i] {
        assert names[..k][j] != names[..k][i];
      }
    }
  }

  lemma DistinctPrefix(names: seq<string>, k: nat)
    requires k <= |names| && forall i :: 0 <= i < k ==> names[i] !in names[..i]
    ensures AllDistinct(names[..k])
  {
    forall i, j | 0 <= i < j < k ensures names[..k][i] != names[..k][j] {
      assert names[..j][i] == names[i];
    }
  }

  /** A mark in front of unmarked, non-empty text adds its notice and changes nothing else. */
  lemma MarkChangesOnlyTheNotice(content: string)
    requires content != "" && !HasMark(content)
    ensures HeaderOf([BYTE_ORDER_MARK] + content) ==
      match HeaderOf(content)
      case Failure(problem) => Failure(problem)
      case Success(header) => Success(Header(header.names, [ByteOrderMarkDropped]))
  {
    assert ([BYTE_ORDER_MARK] + content)[1..] == content;
  }

  // ----- where reading stops

  /** Whole names, each with the comma after it. */
  function Started(names: seq<string>, quotes: seq<bool>): string
    requires |names| == |quotes|
  {
    if names == [] then "" else Written(names[0], quotes[0]) + "," + Started(names[1..], quotes[1..])
  }

  /** The text begins with these whole names, and `rest` comes after them. */
  ghost predicate IsStart(text: string, names: seq<string>, quotes: seq<bool>, rest: string) {
    && |names| == |quotes| && (forall i :: 0 <= i < |names| ==> quotes[i] || CanBeBare(names[i]))
    && text == Started(names, quotes) + rest
  }

  predicate EndsName(c: char) { c == ',' || IsLineEnd(c) }

  /** What stands before the next comma or line end. */
  ghost predicate IsJunk(junk: string, text: string) {
    && junk <= text && (forall i :: 0 <= i < |junk| ==> !EndsName(junk[i]))
    && (|junk| < |text| ==> EndsName(text[|junk|]))
  }

  /** The name that begins here is one whose end the text does not say, in one of three ways. */
  ghost predicate StopsAt(rest: string, problem: Problem) {
    match problem
    case UnterminatedQuote => exists name :: rest == "\"" + Doubled(name)
    case QuoteInsideName(field) => field != "" && CanBeBare(field) && exists after :: rest == field + "\"" + after
    case TextAfterQuote(junk) => exists name, after :: RunsOn(rest, name, after) && IsJunk(junk, after)
    case _ => false
  }

  /** A quoted name, and right after it something that ends no name. */
  ghost predicate RunsOn(rest: string, name: string, after: string) {
    rest == "\"" + Doubled(name) + "\"" + after && after != "" && !EndsName(after[0]) && after[0] != '"'
  }

  lemma {:induction false} ScanStarted(names: seq<string>, quotes: seq<bool>, rest: string, before: seq<string>)
    requires |names| == |quotes| && forall i :: 0 <= i < |names| ==> quotes[i] || CanBeBare(names[i])
    ensures Scan(Started(names, quotes) + rest, "", Bare, before) == Scan(rest, "", Bare, before + names)
    decreases |names|
  {
    if names == [] {
      assert Started(names, quotes) + rest == rest && before + names == before;
    } else {
      var first, more := Written(names[0], quotes[0]), Started(names[1..], quotes[1..]);
      Regroup(first + ",", more, rest);
      Regroup(first, ",", more + rest);
      assert ("," + (more + rest))[1..] == more + rest;
      hide Scan, Written, CanBeBare;
      ScanWritten(names[0], quotes[0], "," + (more + rest), before);
      ScanStarted(names[1..], quotes[1..], rest, before + [names[0]]);
      assert before + [names[0]] + names[1..] == before + names;
    }
  }

  lemma {:induction false} JunkExactly(junk: string, text: string)
    ensures Junk(text) == junk <==> IsJunk(junk, text)
  {
    if text != "" && !EndsName(text[0]) {
      if junk != "" {
        JunkExactly(junk[1..], text[1..]);
        assert junk == [junk[0]] + junk[1..] && text == [text[0]] + text[1..];
        assert |junk| < |text| ==> text[|junk|] == text[1..][|junk| - 1];
        assert forall i :: 0 < i < |junk| ==> junk[i] == junk[1..][i - 1];
        assert forall i :: 0 <= i < |junk| - 1 ==> junk[1..][i] == junk[i + 1];
      }
    }
  }

  /** Inside quotes with nothing left, the end of the name is missing. */
  lemma {:induction false} ScanUnterminated(name: string, field: string, names: seq<string>)
    ensures Scan(Doubled(name), field, Quoted, names) == Failure(UnterminatedQuote)
    decreases |name|
  {
    if name != "" {
      ScanUnterminated(name[1..], field + [name[0]], names);
      if name[0] == '"' {
        assert Doubled(name)[2..] == Doubled(name[1..]);
      } else {
        assert Doubled(name)[1..] == Doubled(name[1..]);
      }
    }
  }

  lemma ScanStopsThere(rest: string, problem: Problem, before: seq<string>)
    requires StopsAt(rest, problem)
    ensures Scan(rest, "", Bare, before) == Failure(problem)
  {
    match problem
    case UnterminatedQuote =>
      var name :| rest == "\"" + Doubled(name);
      assert rest[1..] == Doubled(name);
      ScanUnterminated(name, "", before);
    case QuoteInsideName(field) =>
      var after :| rest == field + "\"" + after;
      Regroup(field, "\"", after);
      ScanBare(field, "\"" + after, "", before);
      assert "" + field == field;
    case TextAfterQuote(junk) =>
      var name, after :| RunsOn(rest, name, after) && IsJunk(junk, after);
      var inside := Doubled(name) + "\"" + after;
      Regroup("\"", Doubled(name), "\"" + after);
      Regroup(Doubled(name), "\"", after);
      assert rest == "\"" + inside && rest[1..] == inside;
      ScanDoubled(name, after, "", before);
      JunkExactly(junk, after);
      assert "" + name == name;
  }

  lemma StartedMore(name: string, quote: bool, names: seq<string>, quotes: seq<bool>, text: string, rest: string)
    requires IsStart(text, names, quotes, rest) && (quote || CanBeBare(name))
    ensures IsStart(Written(name, quote) + "," + text, [name] + names, [quote] + quotes, rest)
  {
    assert ([name] + names)[1..] == names && ([quote] + quotes)[1..] == quotes;
    Regroup(Written(name, quote) + ",", Started(names, quotes), rest);
    hide Written, Started, CanBeBare;
  }

  lemma StopsHere(text: string)
    ensures IsStart(text, [], [], text)
  {
    assert "" + text == text;
  }

  lemma FailsAtEnd(field: string, mode: Mode)
    requires mode.Quoted?
    ensures StopsAt(Consumed(field, mode) + "", UnterminatedQuote)
  {
    assert Consumed(field, mode) + "" == "\"" + Doubled(field);
  }

  lemma FailsHere(rest: string, field: string, mode: Mode, before: seq<string>)
    requires rest != "" && !mode.Quoted? && rest[0] != ',' && !IsLineEnd(rest[0]) && (mode.Bare? ==> CanBeBare(field))
    requires mode.Bare? ==> rest[0] == '"' && field != ""
    requires mode.Closed? ==> rest[0] != '"'
    ensures Scan(rest, field, mode, before).Failure?
    ensures StopsAt(Consumed(field, mode) + rest, Scan(rest, field, mode, before).error)
  {
    if mode.Bare? {
      assert rest == "\"" + rest[1..];
      Regroup(field, "\"", rest[1..]);
      assert field + rest == field + "\"" + rest[1..];
    } else {
      JunkExactly(Junk(rest), rest);
      assert RunsOn(Consumed(field, mode) + rest, field, rest);
    }
  }

  lemma StopsByComma(rest: string, field: string, mode: Mode, names: seq<string>, quotes: seq<bool>, at: string)
    requires rest != "" && rest[0] == ',' && !mode.Quoted? && (mode.Bare? ==> CanBeBare(field))
    requires IsStart(Consumed("", Bare) + rest[1..], names, quotes, at)
    ensures IsStart(Consumed(field, mode) + rest, [field] + names, [mode.Closed?] + quotes, at)
  {
    hide Written, Started, IsStart, Doubled, CanBeBare;
    assert "" + rest[1..] == rest[1..];
    assert rest == "," + rest[1..];
    ConsumedIsWritten(field, mode);
    StartedMore(field, mode.Closed?, names, quotes, rest[1..], at);
    Regroup(Consumed(field, mode), ",", rest[1..]);
  }

  /** Whenever the scanner fails, whole names stand before a name whose end the text does not say. */
  lemma {:induction false} ScanStops(rest: string, field: string, mode: Mode, before: seq<string>)
      returns (names: seq<string>, quotes: seq<bool>, at: string)
    requires (mode.Bare? ==> CanBeBare(field)) && (mode.Closed? ==> rest == "" || rest[0] != '"')
    requires Scan(rest, field, mode, before).Failure?
    ensures IsStart(Consumed(field, mode) + rest, names, quotes, at)
    ensures StopsAt(at, Scan(rest, field, mode, before).error)
    decreases |rest|
  {
    assert CanBeBare("");
    hide Started, StopsAt, Doubled, IsStart, CanBeBare;
    if rest != "" && !mode.Quoted? && rest[0] == ',' {
      names, quotes, at := ScanStops(rest[1..], "", Bare, before + [field]);
      StopsByComma(rest, field, mode, names, quotes, at);
      names, quotes := [field] + names, [mode.Closed?] + quotes;
    } else if rest != "" && (mode.Quoted? || (mode.Bare? && !(rest[0] == '"' && field != ""))) {
      var rest', field', mode' := ScanStep(rest, field, mode, before);
      names, quotes, at := ScanStops(rest', field', mode', before);
    } else {
      names, quotes, at := [], [], Consumed(field, mode) + rest;
      StopsHere(at);
      if rest == "" {
        FailsAtEnd(field, mode);
      } else {
        FailsHere(rest, field, mode, before);
      }
    }
  }

  /** Reading stops within a name, for this reason. */
  ghost predicate StopsWithin(text: string, problem: Problem) {
    exists names, quotes, rest :: IsStart(text, names, quotes, rest) && StopsAt(rest, problem)
  }

  /** The scanner refuses a text with a problem exactly when, after some whole names, that is what it comes to. */
  lemma ScanRefusedExactly(text: string, problem: Problem)
    ensures Scan(text, "", Bare, []) == Failure(problem) <==> StopsWithin(text, problem)
  {
    hide Started, StopsAt, Scan;
    if Scan(text, "", Bare, []).Failure? {
      var names, quotes, at := ScanStops(text, "", Bare, []);
      assert "" + text == text;
    }
    if names, quotes, rest :| IsStart(text, names, quotes, rest) && StopsAt(rest, problem) {
      ScanStarted(names, quotes, rest, []);
      ScanStopsThere(rest, problem, [] + names);
    }
  }

  /**
   * Why a header is refused: because there is none; because some name does not say where it ends; or because a
   * row can be read whose names have that fault.
   */
  lemma HeaderRefusedExactly(content: string, problem: Problem)
    ensures HeaderOf(content) == Failure(problem) <==>
      match problem
      case EmptyFile => content == ""
      case UnnamedColumn(_) => content != "" && HasFaultyNames(WithoutMark(content), problem)
      case RepeatedColumn(_) => content != "" && HasFaultyNames(WithoutMark(content), problem)
      case _ => content != "" && StopsWithin(WithoutMark(content), problem)
  {
    hide Scan, StopsWithin, NamingProblem, HasFaultyNames;
    ScanRefusedExactly(WithoutMark(content), problem);
    StopsInScan(WithoutMark(content), problem);
    FaultyNamesExactly(WithoutMark(content), problem);
    var read := Scan(WithoutMark(content), "", Bare, []);
    if read.Success? {
      NamingKinds(read.value);
    } else {
      ScanRefusedExactly(WithoutMark(content), read.error);
      StopsInScan(WithoutMark(content), read.error);
    }
  }

  ghost predicate HasFaultyNames(text: string, problem: Problem) {
    exists names, quotes, tail :: IsHeaderRow(text, names, quotes, tail) && NamingProblem(names) == Some(problem)
  }

  lemma StopsInScan(text: string, problem: Problem)
    ensures StopsWithin(text, problem) ==>
      problem.UnterminatedQuote? || problem.QuoteInsideName? || problem.TextAfterQuote?
  {
    hide IsStart;
  }

  lemma NamingKinds(names: seq<string>)
    ensures NamingProblem(names).Some? ==>
      NamingProblem(names).value.UnnamedColumn? || NamingProblem(names).value.RepeatedColumn?
  {
  }

  lemma FaultyNamesExactly(text: string, problem: Problem)
    ensures HasFaultyNames(text, problem) <==>
      var read := Scan(text, "", Bare, []); read.Success? && NamingProblem(read.value) == Some(problem)
  {
    hide Scan, NamingProblem, Row, Written;
    var read := Scan(text, "", Bare, []);
    if read.Success? {
      var names, quotes, tail := ScanReadsRow(text, "", Bare, []);
      assert [] + names == names && "" + text == text;
      assert IsHeaderRow(text, names, quotes, tail);
    }
    if names, quotes, tail :| IsHeaderRow(text, names, quotes, tail) && NamingProblem(names) == Some(problem) {
      ScanRow(names, quotes, tail, []);
      assert [] + names == names;
    }
  }

  // ----- only the header record is read

  predicate EvenQuotes(text: string) {
    if text == "" then true else if text[0] == '"' then !EvenQuotes(text[1..]) else EvenQuotes(text[1..])
  }

  lemma {:induction false} JunkIsLocal(rest: string, tail: string)
    requires EndsRecord(tail)
    ensures Junk(rest + tail) == Junk(rest)
  {
    if rest == "" {
      assert rest + tail == tail;
    } else {
      JunkIsLocal(rest[1..], tail);
      assert (rest + tail)[1..] == rest[1..] + tail;
    }
  }

  lemma {:induction false} ScanIsLocal(rest: string, tail: string, field: string, mode: Mode, names: seq<string>)
    requires EndsRecord(tail) && (mode.Quoted? <==> !EvenQuotes(rest))
    ensures Scan(rest + tail, field, mode, names) == Scan(rest, field, mode, names)
    decreases |rest|
  {
    var text := rest + tail;
    if rest == "" {
      assert text == tail;
    } else {
      assert text[0] == rest[0] && text[1..] == rest[1..] + tail;
      match mode
      case Quoted =>
        if rest[0] != '"' {
          ScanIsLocal(rest[1..], tail, field + [rest[0]], Quoted, names);
        } else if |rest| > 1 && rest[1] == '"' {
          assert rest[1..][1..] == rest[2..];
          assert text[2..] == rest[2..] + tail;
          ScanIsLocal(rest[2..], tail, field + ['"'], Quoted, names);
        } else {
          assert |rest| == 1 ==> text[1..] == tail;
          ScanIsLocal(rest[1..], tail, field, Closed, names);
        }
      case Closed =>
        if rest[0] == ',' {
          ScanIsLocal(rest[1..], tail, "", Bare, names + [field]);
        } else {
          JunkIsLocal(rest, tail);
        }
      case Bare =>
        if rest[0] == '"' {
          if field == "" {
            ScanIsLocal(rest[1..], tail, field, Quoted, names);
          }
        } else if rest[0] == ',' {
          ScanIsLocal(rest[1..], tail, "", Bare, names + [field]);
        } else if !IsLineEnd(rest[0]) {
          ScanIsLocal(rest[1..], tail, field + [rest[0]], Bare, names);
        }
    }
  }

  /** The first CR or LF with an even number of quotes before it, or the end. */
  function RecordEnd(text: string, even: bool): (k: nat)
    ensures k <= |text|
    ensures k < |text| ==> IsLineEnd(text[k]) && EvenQuotes(text[..k]) == even
  {
    if text == "" || (even && IsLineEnd(text[0])) then 0
    else
      var k := RecordEnd(text[1..], if text[0] == '"' then !even else even);
      assert text[..1 + k][1..] == text[1..][..k];
      1 + k
  }

  /**
   * Everything from the first line end outside quotes onward is irrelevant: success, names, notices
   * and every refusal with its message are those of the header record alone.
   */
  lemma OnlyTheRecordIsRead(content: string)
    ensures var record := content[..RecordEnd(content, true)];
      record != "" ==> HeaderOf(content) == HeaderOf(record)
    ensures RecordEnd(content, true) == 0 && content != "" ==> HeaderOf(content) == Failure(UnnamedColumn(1))
  {
    var k := RecordEnd(content, true);
    var record, tail := content[..k], content[k..];
    assert content == record + tail;
    if k == |content| {
      assert record == content;
    } else if k == 0 {
      assert content[0] != BYTE_ORDER_MARK;
      assert Scan(content, "", Bare, []) == Success([] + [""]);
      assert NamingProblem([""]) == Some(UnnamedColumn(1)) by {
        assert IsBlank([""][0]);
      }
    } else {
      assert WithoutMark(content) == WithoutMark(record) + tail;
      assert EvenQuotes(WithoutMark(record));
      ScanIsLocal(WithoutMark(record), tail, "", Bare, []);
    }
  }
}
