/** Deb822 control paragraphs: lines of fields, continuations and blank separators. */
module Deb822 {
  import opened Results
  import opened Text

  // ---------- characters and lines ----------

  predicate InSome(c: char, ranges: seq<(char, char)>) {
    exists i | 0 <= i < |ranges| :: ranges[i].0 <= c <= ranges[i].1
  }

  const BREAKS: seq<(char, char)> := [
    ('\n', '\r'), ('\U{1C}', '\U{1E}'), ('\U{85}', '\U{85}'), ('\U{2028}', '\U{2029}')
  ]

  const SPACES: seq<(char, char)> := [
    ('\t', '\r'), ('\U{1C}', ' '), ('\U{85}', '\U{85}'), ('\U{A0}', '\U{A0}'), ('\U{1680}', '\U{1680}'),
    ('\U{2000}', '\U{200A}'), ('\U{2028}', '\U{2029}'), ('\U{202F}', '\U{202F}'), ('\U{205F}', '\U{205F}'),
    ('\U{3000}', '\U{3000}')
  ]

  /** Characters that end a line when text is split into lines. */
  predicate IsBreak(c: char) { InSome(c, BREAKS) }

  predicate IsSpace(c: char) { InSome(c, SPACES) }

  lemma Characters()
    ensures IsSpace(' ') && IsBreak('\n') && !IsBreak(' ') && !IsBreak(':')
    ensures forall c: char | KeyChar(c) :: !IsBreak(c) && !IsSpace(c)
  {
    assert SPACES[1].0 <= ' ' <= SPACES[1].1;
    assert BREAKS[0].0 <= '\n' <= BREAKS[0].1;
  }

  predicate Unbroken(line: string) { forall i | 0 <= i < |line| :: !IsBreak(line[i]) }

  function StripLeft(s: string): string {
    if s != "" && IsSpace(s[0]) then StripLeft(s[1..]) else s
  }

  function StripRight(s: string): string {
    if s != "" && IsSpace(s[|s| - 1]) then StripRight(s[..|s| - 1]) else s
  }

  function Strip(s: string): string { StripRight(StripLeft(s)) }

  predicate Stripped(s: string) { s != "" ==> !IsSpace(s[0]) && !IsSpace(s[|s| - 1]) }

  predicate Blank(line: string) { Strip(line) == "" }

  lemma {:induction false} StripLeftSuffix(s: string)
    ensures |StripLeft(s)| <= |s| && StripLeft(s) == s[|s| - |StripLeft(s)|..]
    ensures StripLeft(s) != "" ==> !IsSpace(StripLeft(s)[0])
  {
    hide IsSpace;
    if s != "" && IsSpace(s[0]) {
      StripLeftSuffix(s[1..]);
    }
  }

  lemma {:induction false} StripRightPrefix(s: string)
    ensures |StripRight(s)| <= |s| && StripRight(s) == s[..|StripRight(s)|]
    ensures StripRight(s) != "" ==> !IsSpace(StripRight(s)[|StripRight(s)| - 1])
  {
    hide IsSpace;
    if s != "" && IsSpace(s[|s| - 1]) {
      StripRightPrefix(s[..|s| - 1]);
    }
  }

  lemma StripIsStripped(s: string)
    ensures Stripped(Strip(s))
    ensures Unbroken(s) ==> Unbroken(Strip(s))
  {
    hide IsSpace, IsBreak, StripLeft, StripRight;
    StripLeftSuffix(s);
    var left := StripLeft(s);
    StripRightPrefix(left);
    var r := StripRight(left);
    if r != "" {
      assert r[0] == left[0];
    }
    assert forall i | 0 <= i < |r| :: r[i] == left[i] == s[|s| - |left| + i];
  }

  lemma StrippedStays(s: string)
    requires Stripped(s)
    ensures Strip(s) == s && Strip(" " + s) == s
  {
    hide IsSpace, IsBreak;
    Characters();
    assert StripLeft(s) == s;
    assert StripRight(s) == s;
    assert (" " + s)[0] == ' ' && (" " + s)[1..] == s;
    assert StripLeft(" " + s) == StripLeft(s);
  }

  lemma {:induction false} StripLeftKeeps(s: string, i: nat)
    requires i < |s| && !IsSpace(s[i])
    ensures StripLeft(s) != "" && !IsSpace(StripLeft(s)[0])
  {
    hide IsSpace;
    if IsSpace(s[0]) {
      StripLeftKeeps(s[1..], i - 1);
    }
  }

  /** A line with anything but space in it is not blank. */
  lemma {:induction false} NotBlank(line: string, i: nat)
    requires i < |line| && !IsSpace(line[i])
    ensures !Blank(line)
  {
    hide IsSpace, StripLeft, StripRight;
    StripLeftKeeps(line, i);
    StripRightKeeps(StripLeft(line), 0);
  }

  lemma {:induction false} StripRightKeeps(s: string, i: nat)
    requires i < |s| && !IsSpace(s[i])
    ensures StripRight(s) != ""
  {
    hide IsSpace;
    if IsSpace(s[|s| - 1]) {
      StripRightKeeps(s[..|s| - 1], i);
    }
  }

  lemma {:induction false} SomewhereInk(line: string) returns (i: nat)
    requires !Blank(line)
    ensures i < |line| && !IsSpace(line[i])
  {
    hide IsSpace;
    StripLeftSuffix(line);
    var left := StripLeft(line);
    i := |line| - |left|;
    assert left[0] == line[i];
  }

  /** The number of characters before the first break. */
  function LineLength(text: string): (n: nat)
    ensures n <= |text|
  {
    if text == "" || IsBreak(text[0]) then 0 else 1 + LineLength(text[1..])
  }

  lemma {:induction false} LineUnbroken(text: string)
    ensures Unbroken(text[..LineLength(text)])
  {
    hide IsBreak;
    if text != "" && !IsBreak(text[0]) {
      LineUnbroken(text[1..]);
      assert text[..LineLength(text)] == [text[0]] + text[1..][..LineLength(text[1..])];
    }
  }

  /** A carriage return and the line feed after it are one break; no empty line follows the last break. */
  function SplitLines(text: string): seq<string> {
    if text == "" then []
    else
      var n := LineLength(text);
      if n == |text| then [text]
      else if text[n] == '\r' && n + 1 < |text| && text[n + 1] == '\n' then [text[..n]] + SplitLines(text[n + 2..])
      else [text[..n]] + SplitLines(text[n + 1..])
  }

  function Join(lines: seq<string>): string { Joined("\n", lines) }

  predicate AllUnbroken(lines: seq<string>) { forall i | 0 <= i < |lines| :: Unbroken(lines[i]) }

  lemma {:induction false} LineLengthAt(line: string, rest: string)
    requires Unbroken(line) && (rest == "" || IsBreak(rest[0]))
    ensures LineLength(line + rest) == |line|
  {
    hide IsBreak;
    if line == "" {
      assert line + rest == rest;
    } else {
      assert (line + rest)[0] == line[0] && (line + rest)[1..] == line[1..] + rest;
      LineLengthAt(line[1..], rest);
    }
  }

  lemma {:induction false} SplitLinesUnbroken(text: string)
    ensures AllUnbroken(SplitLines(text))
    decreases |text|
  {
    hide Unbroken, LineLength;
    if text != "" {
      LineUnbroken(text);
      var n := LineLength(text);
      if n == |text| {
        assert text[..n] == text;
      } else if text[n] == '\r' && n + 1 < |text| && text[n + 1] == '\n' {
        SplitLinesUnbroken(text[n + 2..]);
      } else {
        SplitLinesUnbroken(text[n + 1..]);
      }
    }
  }

  lemma SplitFirst(line: string, rest: string)
    requires Unbroken(line)
    ensures SplitLines(line + "\n" + rest) == [line] + SplitLines(rest)
  {
    Characters();
    hide IsBreak, LineLength, Unbroken;
    var text, n := line + "\n" + rest, |line|;
    assert text == line + ("\n" + rest);
    LineLengthAt(line, "\n" + rest);
    assert text[..n] == line && text[n] == '\n' && text[n + 1..] == rest;
  }

  /** Splitting undoes joining when no line breaks inside and the last line is not empty. */
  lemma {:induction false} SplitJoin(lines: seq<string>)
    requires AllUnbroken(lines) && (lines == [] || lines[|lines| - 1] != "")
    ensures SplitLines(Join(lines)) == lines
  {
    hide IsBreak, LineLength, Unbroken;
    if |lines| == 1 {
      LineLengthAt(lines[0], "");
      assert lines[0] + "" == lines[0];
    } else if |lines| > 1 {
      hide SplitLines;
      var rest := lines[1..];
      assert rest[|rest| - 1] == lines[|lines| - 1];
      SplitJoin(rest);
      SplitFirst(lines[0], Join(rest));
      assert Join(lines) == lines[0] + "\n" + Join(rest);
      assert lines == [lines[0]] + rest;
    } else {
      assert Join(lines) == "";
    }
  }

  // ---------- fields ----------

  predicate KeyChar(c: char) { 'A' <= c <= 'Z' || 'a' <= c <= 'z' || '0' <= c <= '9' || c == '-' }

  predicate KeyValid(key: string) { key != "" && forall i | 0 <= i < |key| :: KeyChar(key[i]) }

  predicate Continues(line: string) { line != "" && (line[0] == ' ' || line[0] == '\t') }

  /** The position of the first colon, or the length when there is none. */
  function Colon(line: string): (n: nat)
    ensures n <= |line| && (n < |line| ==> line[n] == ':')
    ensures forall i | 0 <= i < n :: line[i] != ':'
  {
    if line == "" || line[0] == ':' then 0 else 1 + Colon(line[1..])
  }

  predicate Heads(line: string) { Colon(line) < |line| && KeyValid(line[..Colon(line)]) }

  /** The dictionary filled so far and the field that a continuation line extends. */
  datatype Reading = Reading(result: map<string, string>, previous: Option<string>)

  predicate Consistent(s: Reading) { s.previous.Some? ==> s.previous.value in s.result }

  /** One line, or a refusal. */
  function Read(s: Reading, line: string): (r: Option<Reading>)
    requires Consistent(s)
    ensures r.Some? ==> Consistent(r.value)
  {
    if Continues(line) then
      match s.previous
      case None => None
      case Some(key) => Some(s.(result := s.result[key := s.result[key] + "\n" + line[1..]]))
    else
      var n := Colon(line);
      if n == |line| || !KeyValid(line[..n]) || line[..n] in s.result then None
      else Some(Reading(s.result[line[..n] := Strip(line[n + 1..])], Some(line[..n])))
  }

  function ReadLines(lines: seq<string>): (r: Option<Reading>)
    ensures r.Some? ==> Consistent(r.value)
  {
    if lines == [] then Some(Reading(map[], None))
    else
      match ReadLines(lines[..|lines| - 1])
      case None => None
      case Some(s) => Read(s, lines[|lines| - 1])
  }

  function Fields(text: string): Option<map<string, string>> {
    match ReadLines(SplitLines(text))
    case None => None
    case Some(s) => Some(s.result)
  }

  lemma ContinuesSomething(line: string)
    requires Continues(line)
    ensures line != ""
  {
  }

  method ParseFields(text: string) returns (r: Option<map<string, string>>)
    ensures r == Fields(text)
  {
    hide Strip, KeyValid, Continues, SplitLines;
    var lines := SplitLines(text);
    var result: map<string, string> := map[];
    var previous: Option<string> := None;
    for i := 0 to |lines|
      invariant ReadLines(lines[..i]) == Some(Reading(result, previous))
    {
      var line := lines[i];
      assert lines[..i + 1][..i] == lines[..i];
      if Continues(line) {
        if previous == None {
          ReadPrefix(lines, i + 1);
          return None;
        }
        assert line != "" by {
          ContinuesSomething(line);
        }
        result := result[previous.value := result[previous.value] + "\n" + line[1..]];
      } else {
        var n := Colon(line);
        if n == |line| || !KeyValid(line[..n]) || line[..n] in result {
          ReadPrefix(lines, i + 1);
          return None;
        }
        previous := Some(line[..n]);
        result := result[line[..n] := Strip(line[n + 1..])];
      }
    }
    assert lines[..|lines|] == lines;
    return Some(result);
  }

  lemma {:induction false} ReadPrefix(lines: seq<string>, k: nat)
    requires k <= |lines| && ReadLines(lines[..k]).None?
    ensures ReadLines(lines).None?
    decreases |lines|
  {
    if k == |lines| {
      assert lines[..k] == lines;
    } else {
      var front := lines[..|lines| - 1];
      assert front[..k] == lines[..k];
      ReadPrefix(front, k);
    }
  }

  // ---------- printing ----------

  datatype Field = Field(key: string, first: string, more: seq<string>)

  predicate FieldValid(f: Field) {
    KeyValid(f.key) && Stripped(f.first) && Unbroken(f.first) && AllUnbroken(f.more)
  }

  predicate ParagraphValid(fs: seq<Field>) {
    && (forall i | 0 <= i < |fs| :: FieldValid(fs[i]))
    && forall i, j | 0 <= i < j < |fs| :: fs[i].key != fs[j].key
  }

  function Extended(first: string, more: seq<string>): string {
    if more == [] then first else Extended(first, more[..|more| - 1]) + "\n" + more[|more| - 1]
  }

  /** What the field means: its lines joined by line feeds. */
  function Value(f: Field): string { Extended(f.first, f.more) }

  function Indented(more: seq<string>): seq<string> { seq(|more|, i requires 0 <= i < |more| => " " + more[i]) }

  function FieldLines(f: Field): seq<string> { [f.key + ": " + f.first] + Indented(f.more) }

  function Print(fs: seq<Field>): seq<string> {
    if fs == [] then [] else Print(fs[..|fs| - 1]) + FieldLines(fs[|fs| - 1])
  }

  function Dict(fs: seq<Field>): map<string, string> {
    if fs == [] then map[] else Dict(fs[..|fs| - 1])[fs[|fs| - 1].key := Value(fs[|fs| - 1])]
  }

  function LastKey(fs: seq<Field>): Option<string> { if fs == [] then None else Some(fs[|fs| - 1].key) }

  lemma {:induction false} DictKeys(fs: seq<Field>, key: string)
    ensures key in Dict(fs) <==> exists i :: 0 <= i < |fs| && fs[i].key == key
  {
    if fs != [] {
      DictKeys(fs[..|fs| - 1], key);
      if i :| 0 <= i < |fs| && fs[i].key == key && i < |fs| - 1 {
        assert fs[..|fs| - 1][i].key == key;
      }
    }
  }

  lemma {:induction false} ColonAfter(key: string, rest: string)
    requires forall i | 0 <= i < |key| :: key[i] != ':'
    ensures Colon(key + ":" + rest) == |key|
  {
    var line := key + ":" + rest;
    if key != "" {
      assert line[0] == key[0] && line[1..] == key[1..] + ":" + rest;
      ColonAfter(key[1..], rest);
    }
  }

  lemma HeaderReads(s: Reading, f: Field)
    requires Consistent(s) && FieldValid(f) && f.key !in s.result
    ensures Read(s, f.key + ": " + f.first) == Some(Reading(s.result[f.key := f.first], Some(f.key)))
  {
    hide Strip, Stripped;
    var line := f.key + ": " + f.first;
    assert forall i | 0 <= i < |f.key| :: KeyChar(f.key[i]);
    assert line[0] == f.key[0] && KeyChar(line[0]);
    hide KeyValid;
    assert line == f.key + ":" + (" " + f.first);
    ColonAfter(f.key, " " + f.first);
    assert line[..|f.key|] == f.key && line[|f.key| + 1..] == " " + f.first;
    StrippedStays(f.first);
  }

  lemma ContinuationReads(s: Reading, key: string, part: string)
    requires Consistent(s) && s.previous == Some(key)
    ensures Read(s, " " + part) == Some(s.(result := s.result[key := s.result[key] + "\n" + part]))
  {
    assert (" " + part)[1..] == part;
  }

  lemma ReadAppended(lines: seq<string>, line: string)
    requires ReadLines(lines).Some?
    ensures ReadLines(lines + [line]) == Read(ReadLines(lines).value, line)
  {
    assert (lines + [line])[..|lines|] == lines;
  }

  /** Reading the continuation lines of a field extends its value. */
  lemma {:induction false} FieldReads(lines: seq<string>, s: Reading, f: Field, k: nat)
    requires ReadLines(lines) == Some(s) && FieldValid(f) && f.key !in s.result && k <= |f.more|
    ensures ReadLines(lines + [f.key + ": " + f.first] + Indented(f.more)[..k])
      == Some(Reading(s.result[f.key := Extended(f.first, f.more[..k])], Some(f.key)))
  {
    hide FieldValid, Read, ReadLines;
    var header := lines + [f.key + ": " + f.first];
    if k == 0 {
      assert Consistent(s);
      HeaderReads(s, f);
      ReadAppended(lines, f.key + ": " + f.first);
      assert header + Indented(f.more)[..0] == header;
    } else {
      FieldReads(lines, s, f, k - 1);
      var part, value := f.more[k - 1], Extended(f.first, f.more[..k - 1]);
      assert header + Indented(f.more)[..k] == header + Indented(f.more)[..k - 1] + [" " + part];
      ReadAppended(header + Indented(f.more)[..k - 1], " " + part);
      var before := Reading(s.result[f.key := value], Some(f.key));
      ContinuationReads(before, f.key, part);
      assert f.more[..k][..k - 1] == f.more[..k - 1];
      assert s.result[f.key := value][f.key := value + "\n" + part] == s.result[f.key := value + "\n" + part];
    }
  }

  /** Reading printed lines gives back the paragraph. */
  lemma {:induction false} PrintedReads(fs: seq<Field>)
    requires ParagraphValid(fs)
    ensures ReadLines(Print(fs)) == Some(Reading(Dict(fs), LastKey(fs)))
  {
    hide FieldValid;
    if fs != [] {
      var front, f := fs[..|fs| - 1], fs[|fs| - 1];
      PrintedReads(front);
      DictKeys(front, f.key);
      FieldReads(Print(front), Reading(Dict(front), LastKey(front)), f, |f.more|);
      assert Indented(f.more)[..|f.more|] == Indented(f.more) && f.more[..|f.more|] == f.more;
      assert Print(fs) == Print(front) + [f.key + ": " + f.first] + Indented(f.more);
    }
  }

  predicate PrintedLine(line: string) { line != "" && Unbroken(line) }

  lemma {:induction false} PrintedUnbroken(fs: seq<Field>)
    requires ParagraphValid(fs)
    ensures forall i | 0 <= i < |Print(fs)| :: PrintedLine(Print(fs)[i])
  {
    if fs != [] {
      PrintedUnbroken(fs[..|fs| - 1]);
      var f := fs[|fs| - 1];
      assert FieldValid(f);
      assert Unbroken(f.key) by {
        assert forall i | 0 <= i < |f.key| :: KeyChar(f.key[i]);
      }
      assert PrintedLine(f.key + ": " + f.first);
      forall i | 0 <= i < |f.more| ensures PrintedLine(" " + f.more[i]) {
        assert Unbroken(f.more[i]);
      }
    }
  }

  /** Parsing undoes printing. */
  lemma PrintThenParse(fs: seq<Field>)
    requires ParagraphValid(fs)
    ensures Fields(Join(Print(fs))) == Some(Dict(fs))
  {
    hide Print, ParagraphValid, Dict;
    PrintedUnbroken(fs);
    PrintedReads(fs);
    SplitJoin(Print(fs));
  }

  lemma AcceptedStep(before: seq<Field>, line: string) returns (fs: seq<Field>)
    requires ParagraphValid(before) && Unbroken(line)
    requires var s := Reading(Dict(before), LastKey(before)); Consistent(s) && Read(s, line).Some?
    ensures ParagraphValid(fs)
    ensures Read(Reading(Dict(before), LastKey(before)), line).value == Reading(Dict(fs), LastKey(fs))
  {
    hide Strip, IsBreak;
    if Continues(line) {
      fs := ExtendLast(before, line[1..]);
    } else {
      var n := Colon(line);
      var f := Field(line[..n], Strip(line[n + 1..]), []);
      StripIsStripped(line[n + 1..]);
      DictKeys(before, f.key);
      fs := before + [f];
      assert fs[..|fs| - 1] == before;
    }
  }

  /** Every accepted text means a valid paragraph, so printing undoes parsing up to the meaning of the text. */
  lemma {:induction false} AcceptedLines(lines: seq<string>) returns (fs: seq<Field>)
    requires AllUnbroken(lines) && ReadLines(lines).Some?
    ensures ParagraphValid(fs) && ReadLines(lines).value == Reading(Dict(fs), LastKey(fs))
  {
    hide Read, ParagraphValid, Unbroken;
    fs := [];
    if lines != [] {
      var front, line := lines[..|lines| - 1], lines[|lines| - 1];
      var before := AcceptedLines(front);
      fs := AcceptedStep(before, line);
    } else {
      EmptyValid();
    }
  }

  lemma EmptyValid()
    ensures ParagraphValid([])
  {
  }

  lemma ExtendLast(before: seq<Field>, part: string) returns (fs: seq<Field>)
    requires ParagraphValid(before) && before != [] && Unbroken(part)
    ensures ParagraphValid(fs) && LastKey(fs) == LastKey(before)
    ensures var key := LastKey(before).value;
      key in Dict(before) && Dict(fs) == Dict(before)[key := Dict(before)[key] + "\n" + part]
  {
    var n := |before| - 1;
    var f := before[n];
    var g := f.(more := f.more + [part]);
    assert g.more[..|g.more| - 1] == f.more;
    fs := before[..n] + [g];
    assert fs[..n] == before[..n];
  }

  lemma ParseThenPrint(text: string) returns (fs: seq<Field>)
    requires Fields(text).Some?
    ensures ParagraphValid(fs) && Fields(text) == Some(Dict(fs)) == Fields(Join(Print(fs)))
  {
    hide ReadLines, ParagraphValid, Print, Dict;
    SplitLinesUnbroken(text);
    fs := AcceptedLines(SplitLines(text));
    PrintThenParse(fs);
  }

  /** White space at both ends, and nothing else, is taken off. */
  lemma StripExactly(s: string) returns (a: nat, b: nat)
    ensures a <= b <= |s| && Strip(s) == s[a..b]
    ensures forall i | 0 <= i < |s| && !(a <= i < b) :: IsSpace(s[i])
    ensures a < b ==> !IsSpace(s[a]) && !IsSpace(s[b - 1])
  {
    hide IsSpace;
    var left := LeftPart(s);
    var right := RightPart(s[left..]);
    a, b := left, left + right;
    assert s[left..][..right] == s[a..b];
    forall i | 0 <= i < |s| && !(a <= i < b) ensures IsSpace(s[i]) {
      if i >= b {
        assert s[i] == s[left..][i - left];
      }
    }
    if a < b {
      assert s[b - 1] == s[left..][right - 1];
    }
  }

  lemma {:induction false} LeftPart(s: string) returns (n: nat)
    ensures n <= |s| && StripLeft(s) == s[n..] && forall i | 0 <= i < n :: IsSpace(s[i])
    ensures n < |s| ==> !IsSpace(s[n])
  {
    hide IsSpace;
    if s != "" && IsSpace(s[0]) {
      n := LeftPart(s[1..]);
      n := n + 1;
    } else {
      n := 0;
    }
  }

  lemma {:induction false} RightPart(s: string) returns (n: nat)
    ensures n <= |s| && StripRight(s) == s[..n] && forall i | n <= i < |s| :: IsSpace(s[i])
    ensures n > 0 ==> !IsSpace(s[n - 1])
  {
    hide IsSpace;
    if s != "" && IsSpace(s[|s| - 1]) {
      n := RightPart(s[..|s| - 1]);
    } else {
      n := |s|;
    }
  }

  /** A field line: a name of letters, digits and hyphens up to the first colon. */
  predicate FieldLine(line: string, n: nat) {
    0 < n < |line| && line[n] == ':'
    && forall i | 0 <= i < n :: 'a' <= line[i] <= 'z' || 'A' <= line[i] <= 'Z' || '0' <= line[i] <= '9' || line[i] == '-'
  }

  /** What one more line does: it extends the last field, or begins a new one, or is refused. */
  lemma LineMeans(front: seq<string>, line: string, n: nat)
    requires ReadLines(front).Some?
    ensures var s, next := ReadLines(front).value, ReadLines(front + [line]);
      if line != "" && (line[0] == ' ' || line[0] == '\t') then
        if s.previous.None? then next.None?
        else next == Some(s.(result := s.result[s.previous.value := s.result[s.previous.value] + "\n" + line[1..]]))
      else
        && (FieldLine(line, n) && line[..n] !in s.result ==>
              next == Some(Reading(s.result[line[..n] := Strip(line[n + 1..])], Some(line[..n]))))
        && (FieldLine(line, n) && line[..n] in s.result ==> next.None?)
        && ((forall k: nat :: !FieldLine(line, k)) ==> next.None?)
  {
    hide Strip;
    assert (front + [line])[..|front|] == front;
    if FieldLine(line, n) {
      assert Colon(line) == n;
    }
    if Heads(line) {
      assert FieldLine(line, Colon(line));
    }
  }

  /** The key of a heading line. */
  function KeyOf(line: string): string { line[..Colon(line)] }

  ghost predicate KeySeen(lines: seq<string>, key: string) {
    exists j :: 0 <= j < |lines| && !Continues(lines[j]) && KeyOf(lines[j]) == key
  }

  /** A continuation follows some line; any other line is a field whose key was not seen before. */
  ghost predicate AcceptableLine(lines: seq<string>, i: nat)
    requires i < |lines|
  {
    if Continues(lines[i]) then i > 0 else Heads(lines[i]) && !KeySeen(lines[..i], KeyOf(lines[i]))
  }

  ghost predicate Acceptable(lines: seq<string>) { forall i | 0 <= i < |lines| :: AcceptableLine(lines, i) }

  lemma AcceptableStep(front: seq<string>, line: string)
    ensures Acceptable(front + [line]) <==> Acceptable(front) && AcceptableLine(front + [line], |front|)
  {
    hide Continues, Heads, KeySeen;
    var lines := front + [line];
    forall i | 0 <= i < |front| ensures AcceptableLine(lines, i) <==> AcceptableLine(front, i) {
      assert lines[..i] == front[..i] && lines[i] == front[i];
    }
  }

  lemma KeySeenStep(front: seq<string>, line: string, key: string)
    ensures KeySeen(front + [line], key) <==> KeySeen(front, key) || (!Continues(line) && KeyOf(line) == key)
  {
    hide Continues, KeyOf;
    var lines := front + [line];
    if j :| 0 <= j < |front| && !Continues(front[j]) && KeyOf(front[j]) == key {
      assert lines[j] == front[j];
    }
    assert lines[|front|] == line;
  }

  lemma ReadAddsKey(s: Reading, line: string, key: string)
    requires Consistent(s) && Read(s, line).Some?
    ensures var next := Read(s, line).value;
      next.previous.Some? && (key in next.result <==> key in s.result || (!Continues(line) && KeyOf(line) == key))
  {
    hide Strip, KeyValid;
  }

  lemma NothingSeen(key: string)
    ensures !KeySeen([], key)
  {
  }

  lemma {:induction false} ReadKeys(lines: seq<string>, key: string)
    requires ReadLines(lines).Some?
    ensures var s := ReadLines(lines).value;
      (s.previous.Some? <==> lines != []) && (key in s.result <==> KeySeen(lines, key))
  {
    hide KeySeen, Read, Continues, KeyOf;
    if lines == [] {
      NothingSeen(key);
    } else {
      var front, line := lines[..|lines| - 1], lines[|lines| - 1];
      ReadKeys(front, key);
      assert lines == front + [line];
      KeySeenStep(front, line, key);
      ReadAddsKey(ReadLines(front).value, line, key);
    }
  }

  lemma ReadAccepts(s: Reading, line: string)
    requires Consistent(s)
    ensures Read(s, line).Some?
      <==> if Continues(line) then s.previous.Some? else Heads(line) && KeyOf(line) !in s.result
  {
    hide Strip, KeyValid;
  }

  /**
   * Refusals are exact: a continuation without a field, a line that is no field, or a repeated key, and
   * nothing else.
   */
  lemma {:induction false} AcceptsExactly(lines: seq<string>)
    ensures ReadLines(lines).Some? <==> Acceptable(lines)
  {
    hide Acceptable, KeySeen, Read, Continues, Heads, KeyOf;
    if lines == [] {
      NothingAcceptable();
    } else {
      var front, line := lines[..|lines| - 1], lines[|lines| - 1];
      AcceptsExactly(front);
      assert lines == front + [line] && lines[..|front|] == front;
      AcceptableStep(front, line);
      if ReadLines(front).Some? {
        ReadKeys(front, KeyOf(line));
        ReadAccepts(ReadLines(front).value, line);
      }
    }
  }

  lemma NothingAcceptable()
    ensures Acceptable([])
  {
  }

  // ---------- paragraphs ----------

  /** What a caller receives: the paragraphs before the first refusal, if any. */
  datatype Stream = Stream(found: seq<map<string, string>>, refused: bool)

  /** The paragraphs of the remaining lines, `pending` being the lines of the one begun. */
  function ParagraphsFrom(lines: seq<string>, pending: seq<string>): Stream {
    if lines == [] then
      if pending == [] then Stream([], false)
      else
        match Fields(Join(pending))
        case None => Stream([], true)
        case Some(m) => Stream([m], false)
    else if !Blank(lines[0]) then ParagraphsFrom(lines[1..], pending + [lines[0]])
    else if pending == [] then ParagraphsFrom(lines[1..], [])
    else
      match Fields(Join(pending))
      case None => Stream([], true)
      case Some(m) =>
        var rest := ParagraphsFrom(lines[1..], []);
        Stream([m] + rest.found, rest.refused)
  }

  method Paragraphs(lines: seq<string>) returns (r: Stream)
    ensures r == ParagraphsFrom(lines, [])
  {
    hide Blank, Fields, Join;
    var found, pending: seq<string> := [], [];
    for i := 0 to |lines|
      invariant var rest := ParagraphsFrom(lines[i..], pending);
        ParagraphsFrom(lines, []) == Stream(found + rest.found, rest.refused)
    {
      var line := lines[i];
      assert lines[i..][0] == line && lines[i..][1..] == lines[i + 1..];
      if !Blank(line) {
        pending := pending + [line];
      } else if pending != [] {
        var fields := ParseFields(Join(pending));
        if fields.None? {
          return Stream(found, true);
        }
        ghost var later := ParagraphsFrom(lines[i + 1..], []).found;
        assert found + ([fields.value] + later) == found + [fields.value] + later;
        found, pending := found + [fields.value], [];
      }
    }
    if pending != [] {
      var fields := ParseFields(Join(pending));
      if fields.None? {
        return Stream(found, true);
      }
      found := found + [fields.value];
    }
    return Stream(found, false);
  }

  predicate InkAfter(f: Field) { forall i | 0 <= i < |f.more| :: !Blank(f.more[i]) }

  /** A paragraph that survives among others: at least one field and no blank continuation. */
  predicate Separable(fs: seq<Field>) {
    fs != [] && ParagraphValid(fs) && forall i | 0 <= i < |fs| :: InkAfter(fs[i])
  }

  function PrintAll(ps: seq<seq<Field>>): seq<string> {
    if ps == [] then [] else Print(ps[0]) + [""] + PrintAll(ps[1..])
  }

  function Dicts(ps: seq<seq<Field>>): seq<map<string, string>> {
    if ps == [] then [] else [Dict(ps[0])] + Dicts(ps[1..])
  }

  lemma {:induction false} PrintedNotBlank(fs: seq<Field>)
    requires ParagraphValid(fs) && forall i | 0 <= i < |fs| :: InkAfter(fs[i])
    ensures forall i | 0 <= i < |Print(fs)| :: !Blank(Print(fs)[i])
  {
    hide Blank;
    if fs != [] {
      var front, f := fs[..|fs| - 1], fs[|fs| - 1];
      assert forall i | 0 <= i < |front| :: front[i] == fs[i];
      PrintedNotBlank(front);
      assert FieldValid(f) && InkAfter(f) && KeyChar(f.key[0]);
      NotBlank(f.key + ": " + f.first, 0);
      forall i | 0 <= i < |f.more| ensures !Blank(" " + f.more[i]) {
        var k := SomewhereInk(f.more[i]);
        NotBlank(" " + f.more[i], k + 1);
      }
    }
  }

  lemma {:induction false} InkIsPending(ink: seq<string>, rest: seq<string>, pending: seq<string>)
    requires forall i | 0 <= i < |ink| :: !Blank(ink[i])
    ensures ParagraphsFrom(ink + rest, pending) == ParagraphsFrom(rest, pending + ink)
  {
    hide Blank, Fields, Join;
    if ink == [] {
      assert ink + rest == rest && pending + ink == pending;
    } else {
      assert (ink + rest)[0] == ink[0] && (ink + rest)[1..] == ink[1..] + rest;
      InkIsPending(ink[1..], rest, pending + [ink[0]]);
      assert pending + [ink[0]] + ink[1..] == pending + ink;
    }
  }

  /** A file of paragraphs reads back as exactly these paragraphs, in order. */
  lemma {:induction false} PrintAllThenParse(ps: seq<seq<Field>>)
    requires forall i | 0 <= i < |ps| :: Separable(ps[i])
    ensures ParagraphsFrom(PrintAll(ps), []) == Stream(Dicts(ps), false)
  {
    hide Fields, Join, Dict, Print, Separable, Blank;
    if ps != [] {
      var fs, others := ps[0], PrintAll(ps[1..]);
      PrintAllThenParse(ps[1..]);
      SeparableReads(fs);
      assert PrintAll(ps) == Print(fs) + ([""] + others);
      InkIsPending(Print(fs), [""] + others, []);
      assert [] + Print(fs) == Print(fs);
      assert ([""] + others)[0] == "" && ([""] + others)[1..] == others;
      EmptyIsBlank();
    }
  }

  lemma EmptyIsBlank()
    ensures Blank("")
  {
  }

  lemma SeparableReads(fs: seq<Field>)
    requires Separable(fs)
    ensures Print(fs) != [] && Fields(Join(Print(fs))) == Some(Dict(fs))
    ensures forall i | 0 <= i < |Print(fs)| :: !Blank(Print(fs)[i])
  {
    hide Fields, Join, Dict, Blank;
    PrintedNotBlank(fs);
    PrintThenParse(fs);
  }
}
