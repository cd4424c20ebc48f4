/**
 The service-file parser as the daemon runs it: a position in the text, a line counter and
 sections that grow in place (bus/desktop-file.c:179-263, 338-576, 610-769).
 */
module DesktopFileObject {
  import opened BusTypes
  import opened DesktopFiles

  method FindEol(data: string, start: nat) returns (found: nat, length: nat)
    requires start <= |data|
    ensures found == start + Eol(data[start..]) && length == EolLength(data[found..])
  {
    found := start;
    while found < |data| && !IsEol(data[found])
      invariant start <= found <= |data|
      invariant start + Eol(data[start..]) == found + Eol(data[found..])
    {
      assert data[found..][1..] == data[found + 1..];
      found := found + 1;
    }
    if found == |data| {
      length := 0;
    } else if data[found] == '\r' && found + 1 < |data| && data[found + 1] == '\n' {
      length := 2;
    } else {
      length := 1;
    }
  }

  function Prepend(s: string, tail: Option<string>): Option<string> {
    match tail
    case Some(t) => Some(s + t)
    case None => None
  }

  lemma PrependSnoc(s: string, c: char, tail: Option<string>)
    ensures Prepend(s, Cons(c, tail)) == Prepend(s + [c], tail)
  {
    if tail.Some? {
      assert s + ([c] + tail.value) == s + [c] + tail.value;
    }
  }

  lemma PrependNothing(tail: Option<string>)
    ensures Prepend([], tail) == tail
  {
    if tail.Some? {
      assert [] + tail.value == tail.value;
    }
  }

  /** One pass of the loop, by position. */
  lemma UnescapeAt(data: string, pos: nat, end: nat)
    requires pos < end <= |data|
    ensures Unescape(data[pos..end]) ==
            if data[pos] == NUL then None
            else if data[pos] != '\\' then Cons(data[pos], Unescape(data[pos + 1..end]))
            else if pos + 1 == end || Escaped(data[pos + 1]).None? then None
            else Cons(Escaped(data[pos + 1]).value, Unescape(data[pos + 2..end]))
  {
    var rest := data[pos..end];
    assert rest[1..] == data[pos + 1..end];
    assert |rest| > 1 ==> rest[2..] == data[pos + 2..end];
  }

  /** The text with what is written so far in front of what the rest of the value stands for. */
  function Written(data: string, pos: nat, end: nat, out: string): Option<string>
    requires pos <= end <= |data|
  {
    Prepend(out, Unescape(data[pos..end]))
  }

  lemma UnescapeStep(data: string, pos: nat, end: nat, out: string)
    requires pos < end <= |data|
    ensures Written(data, pos, end, out) ==
            if data[pos] == NUL then None
            else if data[pos] != '\\' then Written(data, pos + 1, end, out + [data[pos]])
            else if pos + 1 == end || Escaped(data[pos + 1]).None? then None
            else Written(data, pos + 2, end, out + [Escaped(data[pos + 1]).value])
  {
    UnescapeAt(data, pos, end);
    var escapes := data[pos] == '\\' && pos + 1 < end && Escaped(data[pos + 1]).Some?;
    if escapes {
      PrependSnoc(out, Escaped(data[pos + 1]).value, Unescape(data[pos + 2..end]));
    } else {
      PrependSnoc(out, data[pos], Unescape(data[pos + 1..end]));
    }
  }

  lemma UnescapeEnd(data: string, end: nat, out: string)
    requires end <= |data|
    ensures Written(data, end, end, out) == Some(out)
  {
    assert data[end..end] == [] && out + [] == out;
  }

  /** The allocated buffer, one byte longer than the source text, is always large enough. */
  method UnescapeString(data: string, start: nat, end: nat) returns (r: Option<string>)
    requires start <= end <= |data|
    ensures r == Unescape(data[start..end])
    ensures r.Some? ==> |r.value| + 1 <= end - start + 1
  {
    var pos, out := start, [];
    ghost var want := Unescape(data[start..end]);
    PrependNothing(want);
    while pos < end
      invariant start <= pos <= end && |out| <= pos - start
      invariant want == Written(data, pos, end, out)
    {
      UnescapeStep(data, pos, end, out);
      var c := data[pos];
      if c == NUL {
        return None;
      }
      if c == '\\' {
        pos := pos + 1;
        if pos >= end || Escaped(data[pos]).None? {
          return None;
        }
        c := Escaped(data[pos]).value;
      }
      pos := pos + 1;
      out := out + [c];
    }
    UnescapeEnd(data, end, out);
    return Some(out);
  }

  method IsBlankLine(data: string, pos: nat) returns (b: bool)
    requires pos <= |data|
    ensures b == Blank(data[pos..])
  {
    var p := pos;
    while p < |data| && data[p] != NUL && data[p] != '\n'
      invariant pos <= p <= |data|
      invariant Blank(data[pos..]) == Blank(data[p..])
    {
      if !IsSpace(data[p]) {
        return false;
      }
      assert data[p..][1..] == data[p + 1..];
      p := p + 1;
    }
    return true;
  }

  method SkipKey(data: string, start: nat, end: nat) returns (p: nat)
    requires start <= end <= |data|
    ensures p == start + KeyLength(data[start..end])
  {
    p := start;
    while p < end && IsKeyChar(data[p])
      invariant start <= p <= end
      invariant start + KeyLength(data[start..end]) == p + KeyLength(data[p..end])
    {
      assert data[p..end][1..] == data[p + 1..end];
      p := p + 1;
    }
  }

  method SkipSpaces(data: string, start: nat, end: nat) returns (p: nat)
    requires start <= end <= |data|
    ensures p == start + Spaces(data[start..end])
  {
    p := start;
    while p < end && data[p] == ' '
      invariant start <= p <= end
      invariant start + Spaces(data[start..end]) == p + Spaces(data[p..end])
    {
      assert data[p..end][1..] == data[p + 1..end];
      p := p + 1;
    }
  }

  lemma SliceOfSlice(data: string, start: nat, p: nat, end: nat)
    requires start <= p <= end <= |data|
    ensures data[start..end][p - start..] == data[p..end]
    ensures data[start..end][..p - start] == data[start..p]
  {
  }

  lemma AfterSpacesAt(data: string, key: string, p: nat, end: nat)
    requires p <= end <= |data|
    ensures AfterSpaces(key, data[p..end]) ==
            if p == end then Bad(InvalidSyntax) else if data[p] != '=' then Bad(InvalidChars) else ValueItem(key, data[p + 1..end])
  {
    if p < end {
      SliceOfSlice(data, p, p + 1, end);
    }
  }

  lemma AfterKeyAt(data: string, key: string, keyEnd: nat, p: nat, end: nat)
    requires keyEnd <= p <= end <= |data| && p == keyEnd + Spaces(data[keyEnd..end])
    requires key != [] && (keyEnd < end ==> data[keyEnd] != '[')
    ensures AfterKey(key, data[keyEnd..end]) ==
            if p == end then Bad(InvalidSyntax) else if data[p] != '=' then Bad(InvalidChars) else ValueItem(key, data[p + 1..end])
  {
    SliceOfSlice(data, keyEnd, p, end);
    assert AfterKey(key, data[keyEnd..end]) == AfterSpaces(key, data[p..end]) by {
      var rest := data[keyEnd..end];
      assert rest[Spaces(rest)..] == data[p..end];
    }
    AfterSpacesAt(data, key, p, end);
  }

  /** What follows a key: a locale, or spaces, an equals sign and the value. */
  method ReadAfterKey(data: string, key: string, keyEnd: nat, end: nat) returns (item: Item)
    requires keyEnd <= end <= |data|
    ensures item == AfterKey(key, data[keyEnd..end])
  {
    if key == [] {
      return Bad(InvalidSyntax);
    }
    if keyEnd < end && data[keyEnd] == '[' {
      return Nothing;
    }
    var p := SkipSpaces(data, keyEnd, end);
    AfterKeyAt(data, key, keyEnd, p, end);
    if p < end && data[p] != '=' {
      return Bad(InvalidChars);
    }
    if p == end {
      return Bad(InvalidSyntax);
    }
    item := ReadValue(data, key, p + 1, end);
  }

  method ReadValue(data: string, key: string, start: nat, end: nat) returns (item: Item)
    requires start <= end <= |data|
    ensures item == ValueItem(key, data[start..end])
  {
    var valueStart := SkipSpaces(data, start, end);
    SliceOfSlice(data, start, valueStart, end);
    var value := UnescapeString(data, valueStart, end);
    if value.None? {
      return Bad(InvalidEscapes);
    }
    return Pair(key, value.value);
  }

  lemma PairItemAt(data: string, start: nat, keyEnd: nat, end: nat)
    requires start <= end <= |data| && keyEnd == start + KeyLength(data[start..end])
    ensures PairItem(data[start..end]) == AfterKey(data[start..keyEnd], data[keyEnd..end])
  {
    var line := data[start..end];
    SliceOfSlice(data, start, keyEnd, end);
    assert line[..KeyLength(line)] == data[start..keyEnd] && line[KeyLength(line)..] == data[keyEnd..end];
  }

  /** What the line from `start` to `end` says, read character by character. */
  method ReadKeyValue(data: string, start: nat, end: nat) returns (item: Item)
    requires start <= end <= |data|
    ensures item == PairItem(data[start..end])
  {
    var keyEnd := SkipKey(data, start, end);
    PairItemAt(data, start, keyEnd, end);
    item := ReadAfterKey(data, data[start..keyEnd], keyEnd, end);
  }

  method CheckSectionName(name: string) returns (valid: bool)
    ensures valid <==> IsValidSectionName(name)
  {
    var i := 0;
    while i < |name| && name[i] != NUL
      invariant i <= |name| && (IsValidSectionName(name) <==> IsValidSectionName(name[i..]))
    {
      if !IsNameChar(name[i]) {
        return false;
      }
      assert name[i..][1..] == name[i + 1..];
      i := i + 1;
    }
    return true;
  }

  lemma InsideBrackets(data: string, start: nat, end: nat)
    requires start + 2 <= end <= |data|
    ensures var line := data[start..end]; line[1..|line| - 1] == data[start + 1..end - 1]
  {
    var line, inside := data[start..end], data[start + 1..end - 1];
    assert forall i :: 0 <= i < |inside| ==> line[1..|line| - 1][i] == inside[i];
  }

  method ReadHeader(data: string, start: nat, end: nat) returns (item: Item)
    requires start <= end <= |data|
    ensures item == HeaderItem(data[start..end]) && (item.Header? || item.Bad?)
  {
    if end - start <= 2 || data[end - 1] != ']' {
      return Bad(InvalidSyntax);
    }
    InsideBrackets(data, start, end);
    var name := UnescapeString(data, start + 1, end - 1);
    if name.None? {
      return Bad(InvalidEscapes);
    }
    var valid := CheckSectionName(name.value);
    if !valid {
      return Bad(InvalidChars);
    }
    return Header(name.value);
  }

  class Parser {
    const data: string
    var pos: nat
    var lineNum: nat
    var sections: seq<Section>

    ghost predicate Valid()
      reads this
    {
      pos <= |data|
    }

    ghost function Rest(): string
      requires Valid()
      reads this
    {
      data[pos..]
    }

    constructor (text: string)
      ensures Valid() && data == text && Rest() == text && sections == [] && lineNum == 1
    {
      data, pos, lineNum, sections := text, 0, 1, [];
    }

    /** Goes on behind the line that ends at `lineEnd`. */
    method NextLine(lineEnd: nat, length: nat)
      requires Valid() && lineEnd == pos + Eol(Rest()) && length == EolLength(data[lineEnd..])
      modifies this`pos, this`lineNum
      ensures Valid() && Rest() == AfterLine(old(Rest())) && lineNum == old(lineNum) + 1
      ensures old(Rest()) != [] ==> pos > old(pos)
    {
      assert Rest()[Eol(Rest())..] == data[lineEnd..];
      if lineEnd == |data| {
        pos := |data|;
      } else {
        pos := lineEnd + length;
      }
      lineNum := lineNum + 1;
      assert data[pos..] == AfterLine(old(Rest()));
    }

    method ParseCommentOrBlank()
      requires Valid() && Rest() != []
      modifies this`pos, this`lineNum
      ensures Valid() && Rest() == AfterLine(old(Rest())) && lineNum == old(lineNum) + 1 && pos > old(pos)
    {
      var lineEnd, length := FindEol(data, pos);
      NextLine(lineEnd, length);
    }

    /** `report_error` */
    function Report(kind: ErrorKind): Result
      reads this
    {
      Failed(kind, lineNum, CurrentName(sections))
    }

    method ParseSectionStart() returns (failure: Option<Result>)
      requires Valid() && Rest() != []
      modifies this
      ensures Valid()
      ensures match HeaderItem(FirstLine(old(Rest())))
              case Header(name) =>
                && failure == None && Rest() == AfterLine(old(Rest())) && lineNum == old(lineNum) + 1 && pos > old(pos)
                && sections == old(sections) + [Section(name, [])]
              case Bad(kind) =>
                && failure == Some(old(Report(kind)))
              case _ => false
    {
      var lineEnd, length := FindEol(data, pos);
      ghost var line := FirstLine(Rest());
      assert line == data[pos..lineEnd];
      var item := ReadHeader(data, pos, lineEnd);
      if item.Bad? {
        return Some(Report(item.kind));
      }
      sections := sections + [Section(item.name, [])];
      NextLine(lineEnd, length);
      return None;
    }

    method ParseKeyValue() returns (failure: Option<Result>)
      requires Valid() && Rest() != []
      modifies this
      ensures Valid()
      ensures match PairItem(FirstLine(old(Rest())))
              case Pair(key, value) =>
                if old(sections) == [] then failure == Some(NoSection)
                else
                  && failure == None && Rest() == AfterLine(old(Rest())) && lineNum == old(lineNum) + 1 && pos > old(pos)
                  && sections == AddLine(old(sections), Line(key, value))
              case Nothing =>
                && failure == None && Rest() == AfterLine(old(Rest())) && lineNum == old(lineNum) + 1 && pos > old(pos)
                && sections == old(sections)
              case Bad(kind) =>
                && failure == Some(old(Report(kind)))
              case Header(_) => false
    {
      var lineEnd, length := FindEol(data, pos);
      assert FirstLine(Rest()) == data[pos..lineEnd];
      var item := ReadKeyValue(data, pos, lineEnd);
      if item.Bad? {
        return Some(Report(item.kind));
      }
      if item.Pair? {
        if sections == [] {
          return Some(NoSection);
        }
        sections := AddLine(sections, Line(item.key, item.value));
      }
      NextLine(lineEnd, length);
      return None;
    }

    /** One pass of the main loop: reads the next item, and the text gets shorter. */
    method ParseNext() returns (failure: Option<Result>)
      requires Valid() && pos < |data|
      modifies this
      ensures Valid()
      ensures failure == ItemFailure(FirstItem(old(Rest())), old(sections), old(lineNum))
      ensures failure.None? ==>
                && Rest() == AfterLine(old(Rest())) && lineNum == old(lineNum) + 1 && pos > old(pos)
                && sections == AfterItem(FirstItem(old(Rest())), old(sections))
    {
      assert Rest()[0] == data[pos];
      if data[pos] == '[' {
        failure := ParseSectionStart();
      } else {
        var blank := IsBlankLine(data, pos);
        if blank || data[pos] == '#' {
          ParseCommentOrBlank();
          failure := None;
        } else {
          failure := ParseKeyValue();
        }
      }
    }

    /** The main loop of `bus_desktop_file_load`. */
    method Load() returns (r: Result)
      requires Valid() && pos == 0 && lineNum == 1 && sections == []
      modifies this
      ensures r == Parse(data)
    {
      assert Rest() == data;
      while pos < |data|
        invariant Valid() && ParseFrom(Rest(), sections, lineNum) == Parse(data)
        decreases |data| - pos
      {
        var failure := ParseNext();
        if failure.Some? {
          return failure.value;
        }
      }
      assert Rest() == [];
      return Loaded(sections);
    }
  }

  // ----- lookups

  ghost predicate IsFirst(sections: seq<Section>, name: string, i: nat) {
    i < |sections| && sections[i].name == name && forall j :: 0 <= j < i ==> sections[j].name != name
  }

  ghost predicate IsFirstLine(lines: seq<Line>, key: string, i: nat) {
    i < |lines| && lines[i].key == key && forall j :: 0 <= j < i ==> lines[j].key != key
  }

  method LookupSection(sections: seq<Section>, name: string) returns (r: Option<nat>)
    ensures r.Some? ==> IsFirst(sections, name, r.value)
    ensures r.None? ==> forall s :: s in sections ==> s.name != name
  {
    for i := 0 to |sections|
      invariant forall j :: 0 <= j < i ==> sections[j].name != name
    {
      if sections[i].name == name {
        return Some(i);
      }
    }
    return None;
  }

  method LookupLine(lines: seq<Line>, key: string) returns (r: Option<nat>)
    ensures r.Some? ==> IsFirstLine(lines, key, r.value)
    ensures r.None? ==> forall l :: l in lines ==> l.key != key
  {
    for i := 0 to |lines|
      invariant forall j :: 0 <= j < i ==> lines[j].key != key
    {
      if lines[i].key == key {
        return Some(i);
      }
    }
    return None;
  }

  /** `bus_desktop_file_get_raw`: the first line with the key in the first section with the name; later sections of that name are not searched. */
  method GetRaw(sections: seq<Section>, name: string, key: string) returns (r: Option<string>)
    ensures r.Some? ==> exists i: nat, k: nat ::
              IsFirst(sections, name, i) && IsFirstLine(sections[i].lines, key, k) && r.value == sections[i].lines[k].value
    ensures r.None? ==> forall i: nat :: IsFirst(sections, name, i) ==> forall l :: l in sections[i].lines ==> l.key != key
  {
    var i := LookupSection(sections, name);
    if i.None? {
      return None;
    }
    var k := LookupLine(sections[i.value].lines, key);
    if k.None? {
      return None;
    }
    return Some(sections[i.value].lines[k.value].value);
  }
}
