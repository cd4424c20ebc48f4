/**
 Service files: the text format, its parser as a function of the text, and the theorem that
 printed files are read back (bus/desktop-file.c, line ends in dbus/dbus-string.c:1899-1950).
 */
module DesktopFiles {
  import opened BusTypes

  datatype Line = Line(key: string, value: string)
  datatype Section = Section(name: string, lines: seq<Line>)

  datatype ErrorKind = InvalidSyntax | InvalidEscapes | InvalidChars

  /** `NoSection`: a key before any section header, for which the program has no section to put it into. */
  datatype Result =
    | Loaded(sections: seq<Section>)
    | Failed(kind: ErrorKind, lineNum: nat, section: Option<string>)
    | NoSection

  // ----- characters

  const NUL: char := '\0'
  const FORM_FEED: char := '\U{0C}'

  predicate IsKeyChar(c: char) {
    c == '-' || '0' <= c <= '9' || 'A' <= c <= 'Z' || 'a' <= c <= 'z'
  }

  predicate IsSpace(c: char) {
    c == ' ' || c == '\t' || c == '\r' || c == FORM_FEED
  }

  /** The character that a letter stands for after a backslash. */
  function Escaped(letter: char): Option<char> {
    match letter
    case 's' => Some(' ')
    case 't' => Some('\t')
    case 'n' => Some('\n')
    case 'r' => Some('\r')
    case '\\' => Some('\\')
    case _ => None
  }

  // ----- unescaping

  function Cons(c: char, tail: Option<string>): Option<string> {
    match tail
    case Some(s) => Some([c] + s)
    case None => None
  }

  /** The text with its escape sequences replaced, or None for a NUL, an unknown sequence or a backslash at the end. */
  function Unescape(s: string): (r: Option<string>)
    ensures r.Some? ==> |r.value| <= |s| && (s != [] ==> r.value != []) && NUL !in r.value
  {
    if s == [] then Some([])
    else if s[0] == NUL then None
    else if s[0] != '\\' then Cons(s[0], Unescape(s[1..]))
    else if |s| == 1 || Escaped(s[1]).None? then None
    else Cons(Escaped(s[1]).value, Unescape(s[2..]))
  }

  // ----- lines

  predicate IsEol(c: char) { c == '\r' || c == '\n' }

  /** Where the first line ends. */
  function Eol(s: string): (n: nat)
    ensures n <= |s|
  {
    if s == [] || IsEol(s[0]) then 0 else 1 + Eol(s[1..])
  }

  /** Length of the line end at the start of `s`. */
  function EolLength(s: string): (n: nat)
    ensures n <= |s|
  {
    if s == [] then 0 else if s[0] == '\r' && |s| > 1 && s[1] == '\n' then 2 else 1
  }

  function FirstLine(s: string): string { s[..Eol(s)] }

  function AfterLine(s: string): (r: string)
    ensures s != [] ==> |r| < |s|
  {
    var e := Eol(s);
    s[e + EolLength(s[e..])..]
  }

  /** Nothing but white space up to a newline, a NUL or the end. A lone carriage return is white space here, although it ends a line. */
  predicate Blank(s: string) {
    s == [] || s[0] == NUL || s[0] == '\n' || (IsSpace(s[0]) && Blank(s[1..]))
  }

  function KeyLength(s: string): (n: nat)
    ensures n <= |s|
  {
    if s == [] || !IsKeyChar(s[0]) then 0 else 1 + KeyLength(s[1..])
  }

  function Spaces(s: string): (n: nat)
    ensures n <= |s|
  {
    if s == [] || s[0] != ' ' then 0 else 1 + Spaces(s[1..])
  }

  // ----- what a line says

  datatype Item = Header(name: string) | Pair(key: string, value: string) | Nothing | Bad(kind: ErrorKind)

  predicate IsNameChar(c: char) {
    'A' <= c <= 'Z' || c >= 'a' || c <= 'z' || c == '\n' || c == '\t'
  }

  /** `is_valid_section_name`. */
  predicate IsValidSectionName(name: string) {
    name == [] || name[0] == NUL || (IsNameChar(name[0]) && IsValidSectionName(name[1..]))
  }

  function HeaderItem(line: string): Item {
    if |line| <= 2 || line[|line| - 1] != ']' then Bad(InvalidSyntax)
    else
      match Unescape(line[1..|line| - 1])
      case Some(name) => if IsValidSectionName(name) then Header(name) else Bad(InvalidChars)
      case None => Bad(InvalidEscapes)
  }

  function PairItem(line: string): Item {
    AfterKey(line[..KeyLength(line)], line[KeyLength(line)..])
  }

  /** A key followed by a locale in brackets is ignored. */
  function AfterKey(key: string, rest: string): Item {
    if key == [] then Bad(InvalidSyntax)
    else if rest != [] && rest[0] == '[' then Nothing
    else AfterSpaces(key, rest[Spaces(rest)..])
  }

  function AfterSpaces(key: string, rest: string): Item {
    if rest == [] then Bad(InvalidSyntax)
    else if rest[0] != '=' then Bad(InvalidChars)
    else ValueItem(key, rest[1..])
  }

  function ValueItem(key: string, rest: string): Item {
    match Unescape(rest[Spaces(rest)..])
    case Some(value) => Pair(key, value)
    case None => Bad(InvalidEscapes)
  }

  function FirstItem(s: string): Item
    requires s != []
  {
    if s[0] == '[' then HeaderItem(FirstLine(s))
    else if Blank(s) || s[0] == '#' then Nothing
    else PairItem(FirstLine(s))
  }

  function AddLine(sections: seq<Section>, line: Line): (r: seq<Section>)
    requires sections != []
    ensures r != []
  {
    var last := sections[|sections| - 1];
    sections[..|sections| - 1] + [last.(lines := last.lines + [line])]
  }

  function CurrentName(sections: seq<Section>): Option<string> {
    if sections == [] then None else Some(sections[|sections| - 1].name)
  }

  /** Why reading stops at an item, if it does. */
  function ItemFailure(item: Item, sections: seq<Section>, n: nat): Option<Result> {
    if item.Bad? then Some(Failed(item.kind, n, CurrentName(sections)))
    else if item.Pair? && sections == [] then Some(NoSection)
    else None
  }

  function AfterItem(item: Item, sections: seq<Section>): seq<Section> {
    if item.Header? then sections + [Section(item.name, [])]
    else if item.Pair? && sections != [] then AddLine(sections, Line(item.key, item.value))
    else sections
  }

  /** Reading on from `s`, with these sections read so far. */
  function ParseFrom(s: string, sections: seq<Section>, lineNum: nat): Result
    decreases |s|
  {
    if s == [] then Loaded(sections)
    else
      match ItemFailure(FirstItem(s), sections, lineNum)
      case Some(failure) => failure
      case None => ParseFrom(AfterLine(s), AfterItem(FirstItem(s), sections), lineNum + 1)
  }

  function Parse(s: string): Result { ParseFrom(s, [], 1) }

  // ----- printing

  function EscapeChar(c: char): (r: string)
    ensures r != []
  {
    match c
    case ' ' => "\\s"
    case '\t' => "\\t"
    case '\n' => "\\n"
    case '\r' => "\\r"
    case '\\' => "\\\\"
    case _ => [c]
  }

  function Escape(s: string): string {
    if s == [] then [] else EscapeChar(s[0]) + Escape(s[1..])
  }

  function HeaderText(name: string): string { "[" + Escape(name) + "]" }
  function LineText(line: Line): string { line.key + "=" + Escape(line.value) }

  /** The lines, followed by `rest`. */
  function PrintLines(lines: seq<Line>, rest: string): string {
    if lines == [] then rest else LineText(lines[0]) + "\n" + PrintLines(lines[1..], rest)
  }

  function Print(sections: seq<Section>): string {
    if sections == [] then [] else HeaderText(sections[0].name) + "\n" + PrintLines(sections[0].lines, Print(sections[1..]))
  }

  predicate ValidLine(line: Line) {
    line.key != [] && (forall c :: c in line.key ==> IsKeyChar(c)) && NUL !in line.value
  }

  predicate ValidSection(s: Section) {
    s.name != [] && NUL !in s.name && forall l :: l in s.lines ==> ValidLine(l)
  }

  predicate ValidFile(sections: seq<Section>) {
    forall s :: s in sections ==> ValidSection(s)
  }

  // ----- escaped text

  lemma UnescapeChar(c: char, rest: string)
    requires c != NUL
    ensures Unescape(EscapeChar(c) + rest) == Cons(c, Unescape(rest))
  {
    var e := EscapeChar(c);
    if |e| == 1 {
      assert (e + rest)[1..] == rest;
    } else {
      assert |e| == 2 && (e + rest)[2..] == rest;
    }
  }

  lemma {:induction false} UnescapeEscape(s: string)
    requires NUL !in s
    ensures Unescape(Escape(s)) == Some(s)
  {
    if s != [] {
      UnescapeEscape(s[1..]);
      UnescapeChar(s[0], Escape(s[1..]));
      assert s == [s[0]] + s[1..];
    }
  }

  lemma {:induction false} EscapeFacts(s: string)
    ensures forall c :: c in Escape(s) ==> !IsEol(c) && c != ' '
    ensures s != [] ==> Escape(s) != []
  {
    if s != [] {
      EscapeFacts(s[1..]);
    }
  }

  // ----- reading a printed line

  lemma {:induction false} EolOfLine(line: string, rest: string)
    requires forall c :: c in line ==> !IsEol(c)
    ensures Eol(line + "\n" + rest) == |line|
  {
    var s := line + "\n" + rest;
    if line != [] {
      EolOfLine(line[1..], rest);
      assert s[1..] == line[1..] + "\n" + rest;
      assert s[0] == line[0];
    }
  }

  lemma LineAndRest(line: string, rest: string)
    requires forall c :: c in line ==> !IsEol(c)
    ensures FirstLine(line + "\n" + rest) == line && AfterLine(line + "\n" + rest) == rest
  {
    EolOfLine(line, rest);
    var s := line + "\n" + rest;
    assert s[|line|..] == "\n" + rest;
    assert s[|line| + 1..] == rest;
  }

  lemma {:induction false} KeyLengthOfKey(key: string, rest: string)
    requires (forall c :: c in key ==> IsKeyChar(c)) && rest != [] && !IsKeyChar(rest[0])
    ensures KeyLength(key + rest) == |key|
  {
    if key != [] {
      KeyLengthOfKey(key[1..], rest);
      assert (key + rest)[1..] == key[1..] + rest;
    } else {
      assert key + rest == rest;
    }
  }

  /** The rule of the file format for section names: ASCII without control characters and brackets. */
  predicate FollowsRule(name: string) {
    forall c :: c in name ==> ' ' <= c <= '~' && c != '[' && c != ']'
  }

  /** The check of section names refuses none. */
  lemma {:induction false} EveryNameIsAccepted(name: string)
    ensures IsValidSectionName(name)
  {
    if name != [] {
      EveryNameIsAccepted(name[1..]);
    }
  }

  /** A line is a section header if and only if it is long enough, ends in a bracket and unescapes: its characters never matter. */
  lemma HeaderIff(line: string)
    ensures HeaderItem(line).Header? <==>
            |line| > 2 && line[|line| - 1] == ']' && Unescape(line[1..|line| - 1]).Some?
    ensures HeaderItem(line) != Bad(InvalidChars)
  {
    if |line| > 2 && Unescape(line[1..|line| - 1]).Some? {
      EveryNameIsAccepted(Unescape(line[1..|line| - 1]).value);
    }
  }

  /** The header `[a[b]` is accepted although the rule forbids its name. */
  lemma BracketInHeader()
    ensures HeaderItem("[a[b]") == Header("a[b") && !FollowsRule("a[b")
  {
    var name := "a[b";
    assert "[a[b]"[1..4] == name && Escape(name) == name by {
      assert name[1..] == "[b" && name[1..][1..] == "b" && name[1..][1..][1..] == "";
    }
    UnescapeEscape(name);
    EveryNameIsAccepted(name);
    assert name[1] in name;
  }

  lemma HeaderRead(name: string)
    requires name != [] && NUL !in name
    ensures HeaderItem(HeaderText(name)) == Header(name)
  {
    UnescapeEscape(name);
    EscapeFacts(name);
    EveryNameIsAccepted(name);
    assert HeaderText(name)[1..|HeaderText(name)| - 1] == Escape(name);
  }

  /** A value that begins with no space stands behind the equals sign as it is. */
  lemma ValueRead(key: string, value: string, plain: string)
    requires key != [] && Spaces(value) == 0 && Unescape(value) == Some(plain)
    ensures AfterKey(key, "=" + value) == Pair(key, plain)
  {
    var rest := "=" + value;
    assert Spaces(rest) == 0 && rest[0..] == rest;
    assert rest[1..] == value && value[0..] == value;
  }

  lemma NoSpaces(s: string)
    ensures Spaces(Escape(s)) == 0
  {
    EscapeFacts(s);
  }

  lemma KeyRead(key: string, rest: string)
    requires (forall c :: c in key ==> IsKeyChar(c)) && rest != [] && !IsKeyChar(rest[0])
    ensures PairItem(key + rest) == AfterKey(key, rest)
  {
    KeyLengthOfKey(key, rest);
    assert (key + rest)[..|key|] == key && (key + rest)[|key|..] == rest;
  }

  lemma PairRead(line: Line)
    requires ValidLine(line)
    ensures PairItem(LineText(line)) == Pair(line.key, line.value)
  {
    var rest := "=" + Escape(line.value);
    assert LineText(line) == line.key + rest;
    KeyRead(line.key, rest);
    NoSpaces(line.value);
    UnescapeEscape(line.value);
    ValueRead(line.key, Escape(line.value), line.value);
  }

  /** A printed line is read as the line it prints, and reading goes on behind it. */
  lemma LineStep(line: Line, more: string)
    requires ValidLine(line)
    ensures var s := LineText(line) + "\n" + more; FirstItem(s) == Pair(line.key, line.value) && AfterLine(s) == more
  {
    EscapeFacts(line.value);
    forall c | c in LineText(line)
      ensures !IsEol(c)
    {
      assert c in line.key || c == '=' || c in Escape(line.value);
    }
    LineAndRest(LineText(line), more);
    PairRead(line);
    assert (LineText(line) + "\n" + more)[0] == line.key[0] && line.key[0] in line.key;
  }

  lemma HeaderStep(name: string, more: string)
    requires name != [] && NUL !in name
    ensures var s := HeaderText(name) + "\n" + more; FirstItem(s) == Header(name) && AfterLine(s) == more
  {
    EscapeFacts(name);
    forall c | c in HeaderText(name)
      ensures !IsEol(c)
    {
      assert c == '[' || c in Escape(name) || c == ']';
    }
    LineAndRest(HeaderText(name), more);
    HeaderRead(name);
  }

  lemma LineParsed(line: Line, more: string, sections: seq<Section>, lineNum: nat)
    requires ValidLine(line) && sections != []
    ensures ParseFrom(LineText(line) + "\n" + more, sections, lineNum) == ParseFrom(more, AddLine(sections, line), lineNum + 1)
  {
    LineStep(line, more);
  }

  lemma HeaderParsed(name: string, more: string, sections: seq<Section>, lineNum: nat)
    requires name != [] && NUL !in name
    ensures ParseFrom(HeaderText(name) + "\n" + more, sections, lineNum) ==
            ParseFrom(more, sections + [Section(name, [])], lineNum + 1)
  {
    HeaderStep(name, more);
  }

  lemma {:induction false} LinesRead(sections: seq<Section>, lines: seq<Line>, rest: string, lineNum: nat, after: nat)
    requires sections != [] && forall l :: l in lines ==> ValidLine(l)
    requires after == lineNum + |lines|
    ensures ParseFrom(PrintLines(lines, rest), sections, lineNum) == ParseFrom(rest, AddLines(sections, lines), after)
    decreases |lines|
  {
    if lines != [] {
      LineParsed(lines[0], PrintLines(lines[1..], rest), sections, lineNum);
      LinesRead(AddLine(sections, lines[0]), lines[1..], rest, lineNum + 1, after);
    }
  }

  function AddLines(sections: seq<Section>, lines: seq<Line>): seq<Section>
    requires sections != []
    decreases |lines|
  {
    if lines == [] then sections else AddLines(AddLine(sections, lines[0]), lines[1..])
  }

  lemma {:induction false} AddLinesTo(front: seq<Section>, s: Section, lines: seq<Line>)
    ensures AddLines(front + [s], lines) == front + [s.(lines := s.lines + lines)]
    decreases |lines|
  {
    if lines == [] {
      assert s.lines + lines == s.lines;
    } else {
      assert (front + [s])[..|front|] == front;
      AddLinesTo(front, s.(lines := s.lines + [lines[0]]), lines[1..]);
      assert s.lines + [lines[0]] + lines[1..] == s.lines + lines;
    }
  }

  lemma OneSectionRead(before: seq<Section>, sec: Section, rest: string, lineNum: nat, after: nat)
    requires ValidSection(sec) && after == lineNum + 1 + |sec.lines|
    ensures ParseFrom(HeaderText(sec.name) + "\n" + PrintLines(sec.lines, rest), before, lineNum) == ParseFrom(rest, before + [sec], after)
  {
    var started := before + [Section(sec.name, [])];
    assert AddLines(started, sec.lines) == before + [sec] by {
      AddLinesTo(before, Section(sec.name, []), sec.lines);
      assert [] + sec.lines == sec.lines;
    }
    HeaderParsed(sec.name, PrintLines(sec.lines, rest), before, lineNum);
    LinesRead(started, sec.lines, rest, lineNum + 1, after);
  }

  lemma {:induction false} SectionsRead(before: seq<Section>, sections: seq<Section>, lineNum: nat, whole: seq<Section>)
    requires ValidFile(sections) && whole == before + sections
    ensures ParseFrom(Print(sections), before, lineNum) == Loaded(whole)
    decreases |sections|
  {
    if sections == [] {
      assert whole == before;
    } else {
      var sec, tail := sections[0], sections[1..];
      assert sec in sections && whole == before + [sec] + tail;
      var after := lineNum + 1 + |sec.lines|;
      OneSectionRead(before, sec, Print(tail), lineNum, after);
      SectionsRead(before + [sec], tail, after, whole);
    }
  }

  /** Every file that can be written is read back as it was: names, keys, values and their order. */
  lemma ParsePrinted(sections: seq<Section>)
    requires ValidFile(sections)
    ensures Parse(Print(sections)) == Loaded(sections)
  {
    SectionsRead([], sections, 1, sections);
  }

  // ----- what the parser accepts can be written

  lemma {:induction false} KeyChars(s: string)
    ensures forall c :: c in s[..KeyLength(s)] ==> IsKeyChar(c)
  {
    if s != [] && IsKeyChar(s[0]) {
      KeyChars(s[1..]);
      var n := KeyLength(s[1..]);
      assert s[..1 + n] == [s[0]] + s[1..][..n];
    }
  }

  lemma ItemIsValid(s: string)
    requires s != []
    ensures var item := FirstItem(s);
            && (item.Header? ==> ValidSection(Section(item.name, [])))
            && (item.Pair? ==> ValidLine(Line(item.key, item.value)))
  {
    KeyChars(FirstLine(s));
  }

  lemma AddedLineIsValid(sections: seq<Section>, line: Line)
    requires ValidFile(sections) && sections != [] && ValidLine(line)
    ensures ValidFile(AddLine(sections, line))
  {
    var last := sections[|sections| - 1];
    assert last in sections;
    assert ValidSection(last.(lines := last.lines + [line]));
  }

  lemma {:induction false} ParsedIsValid(s: string, sections: seq<Section>, lineNum: nat)
    requires ValidFile(sections)
    ensures var r := ParseFrom(s, sections, lineNum); r.Loaded? ==> ValidFile(r.sections)
    decreases |s|
  {
    if s != [] {
      ItemIsValid(s);
      var item := FirstItem(s);
      if item.Nothing? {
        ParsedIsValid(AfterLine(s), sections, lineNum + 1);
      } else if item.Header? {
        ParsedIsValid(AfterLine(s), sections + [Section(item.name, [])], lineNum + 1);
      } else if item.Pair? && sections != [] {
        AddedLineIsValid(sections, Line(item.key, item.value));
        ParsedIsValid(AfterLine(s), AddLine(sections, Line(item.key, item.value)), lineNum + 1);
      }
    }
  }

  /** Whatever text is accepted, printing what was read gives a text with the same meaning. */
  lemma PrintedFormIsCanonical(s: string)
    requires Parse(s).Loaded?
    ensures ValidFile(Parse(s).sections) && Parse(Print(Parse(s).sections)) == Parse(s)
  {
    ParsedIsValid(s, [], 1);
    ParsePrinted(Parse(s).sections);
  }
}
