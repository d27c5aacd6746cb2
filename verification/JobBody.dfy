/**
 * The body of a headlesscode-job issue: `parseHeadlessCodeJobBody`. Text is a sequence of Unicode
 * scalar values.
 */
module JobBody {
  import Text
  import opened Wrappers

  // ---------------------------------------------------------------- characters

  predicate IsLineTerminator(c: char) { c == '\n' || c == '\r' || c == '\U{2028}' || c == '\U{2029}' }

  /** The class \s of ECMAScript. */
  predicate IsSpace(c: char) {
    || c in {' ', '\t', '\U{0b}', '\U{0c}', '\U{a0}', '\U{1680}', '\U{202f}', '\U{205f}', '\U{3000}', '\U{feff}'}
    || '\U{2000}' <= c <= '\U{200a}' || IsLineTerminator(c)
  }

  /** The code points of \s, and those of a line end. */
  lemma SpaceCodes(c: char)
    ensures IsSpace(c) <==>
      c as int in {0x9, 0xA, 0xB, 0xC, 0xD, 0x20, 0xA0, 0x1680, 0x2028, 0x2029, 0x202F, 0x205F, 0x3000, 0xFEFF}
      || 0x2000 <= c as int <= 0x200A
    ensures IsLineTerminator(c) <==> c as int in {0xA, 0xD, 0x2028, 0x2029}
  {
    assert '\n' as int == 0xA && '\r' as int == 0xD && '\t' as int == 0x9 && ' ' as int == 0x20;
    assert c as int in {0x9, 0xA, 0xB, 0xC, 0xD, 0x20, 0xA0, 0x1680, 0x2028, 0x2029, 0x202F, 0x205F, 0x3000, 0xFEFF} ==>
      c in {'\t', '\n', '\U{0b}', '\U{0c}', '\r', ' ', '\U{a0}', '\U{1680}', '\U{2028}', '\U{2029}', '\U{202f}', '\U{205f}',
            '\U{3000}', '\U{feff}'};
  }

  function Utf8Size(c: char): nat {
    if c < '\U{80}' then 1 else if c < '\U{800}' then 2 else if c < '\U{10000}' then 3 else 4
  }

  /** The payload of one byte is 7 bits, of two 11, of three 16 and of four 21. */
  lemma Utf8SizeIsLeast(c: char)
    ensures Utf8Size(c) == 1 <==> c as int < 128
    ensures Utf8Size(c) <= 2 <==> c as int < 2048
    ensures Utf8Size(c) <= 3 <==> c as int < 65536
    ensures 1 <= Utf8Size(c) <= 4
  {
  }

  function ByteLength(s: string): nat { if s == "" then 0 else Utf8Size(s[0]) + ByteLength(s[1..]) }

  /** The length of the run of characters of one class at the start of a text. */
  function Run(s: string, p: char -> bool): (n: nat)
    ensures n <= |s| && (n < |s| ==> !p(s[n])) && forall i :: 0 <= i < n ==> p(s[i])
  {
    if s == "" || !p(s[0]) then 0 else 1 + Run(s[1..], p)
  }

  function Spaces(s: string): nat { Run(s, IsSpace) }

  function TrimStart(s: string): string { if s != "" && IsSpace(s[0]) then TrimStart(s[1..]) else s }

  function TrimEnd(s: string): string { if s != "" && IsSpace(s[|s| - 1]) then TrimEnd(s[..|s| - 1]) else s }

  function Trim(s: string): string { TrimEnd(TrimStart(s)) }

  predicate Trimmed(s: string) { s != "" && !IsSpace(s[0]) && !IsSpace(s[|s| - 1]) }

  // ---------------------------------------------------------------- lines

  /** The text up to the first newline. */
  function Newline(s: string): (n: nat)
    ensures n <= |s| && '\n' !in s[..n] && (n < |s| ==> s[n] == '\n')
  {
    if s == "" || s[0] == '\n' then 0
    else
      var n := 1 + Newline(s[1..]);
      assert s[..n] == [s[0]] + s[1..][..n - 1];
      n
  }

  /** A line without the carriage return that belongs to its separator. */
  function Chop(line: string): string {
    if line != "" && line[|line| - 1] == '\r' then line[..|line| - 1] else line
  }

  /** `split(/\r?\n/)`. */
  function Split(s: string): (lines: seq<string>)
    ensures lines != []
    decreases |s|
  {
    var n := Newline(s);
    if n == |s| then [s] else [Chop(s[..n])] + Split(s[n + 1..])
  }

  function Join(lines: seq<string>): string {
    if lines == [] then "" else if |lines| == 1 then lines[0] else lines[0] + "\n" + Join(lines[1..])
  }

  lemma NewlineAt(a: string, b: string)
    requires '\n' !in a
    ensures Newline(a + "\n" + b) == |a|
  {
    var s := a + "\n" + b;
    var n := Newline(s);
    assert s[|a|] == '\n' && forall i :: 0 <= i < |a| ==> s[i] == a[i] != '\n';
    assert forall i :: 0 <= i < n ==> s[..n][i] != '\n';
  }

  lemma SplitStep(line: string, rest: string)
    requires '\n' !in line && '\r' !in line
    ensures Split(line + "\n" + rest) == [line] + Split(rest)
  {
    var s := line + "\n" + rest;
    NewlineAt(line, rest);
    assert s[..|line|] == line && s[|line| + 1..] == rest;
  }

  /** A carriage return before the newline belongs to the separator, any other to the line. */
  lemma SplitCrLf(line: string, rest: string)
    requires '\n' !in line
    ensures Split(line + "\r\n" + rest) == [line] + Split(rest)
  {
    var cut := line + "\r";
    assert line + "\r\n" + rest == cut + "\n" + rest && cut[..|line|] == line;
    SplitFirst(cut, rest);
  }

  lemma SplitFirst(line: string, rest: string)
    requires '\n' !in line
    ensures Split(line + "\n" + rest) == [Chop(line)] + Split(rest)
  {
    var s := line + "\n" + rest;
    NewlineAt(line, rest);
    hide Newline;
    assert s[..|line|] == line && s[|line| + 1..] == rest;
  }

  lemma {:induction false} SplitConcat(a: string, b: string)
    requires '\r' !in a
    ensures Split(a + "\n" + b) == Split(a) + Split(b)
    decreases |a|
  {
    hide Split, Newline;
    if '\n' !in a {
      SplitStep(a, b);
      SplitWhole(a);
    } else {
      var head, rest := FirstLine(a);
      SplitConcat(rest, b);
      SplitStep(head, rest);
      SplitStep(head, rest + "\n" + b);
      calc {
        Split(a + "\n" + b);
        { assert a + "\n" + b == head + "\n" + (rest + "\n" + b); }
        [head] + Split(rest + "\n" + b);
        [head] + (Split(rest) + Split(b));
        [head] + Split(rest) + Split(b);
      }
    }
  }

  lemma SplitWhole(s: string)
    requires '\n' !in s
    ensures Split(s) == [s]
  {
  }

  lemma FirstLine(s: string) returns (head: string, rest: string)
    requires '\n' in s && '\r' !in s
    ensures s == head + "\n" + rest && '\n' !in head && '\r' !in head && '\r' !in rest && |rest| < |s|
  {
    var n := Newline(s);
    head, rest := s[..n], s[n + 1..];
  }

  lemma {:induction false} JoinSplit(s: string)
    requires '\r' !in s
    ensures Join(Split(s)) == s
    decreases |s|
  {
    hide Split;
    if '\n' !in s {
      SplitWhole(s);
    } else {
      var head, rest := FirstLine(s);
      SplitStep(head, rest);
      JoinSplit(rest);
      assert ([head] + Split(rest))[1..] == Split(rest);
    }
  }

  // ---------------------------------------------------------------- fences and headings

  datatype Fence = Fence(marker: char, length: nat)

  /** /^\s{0,3}(`{3,}|~{3,})/ */
  function FenceOf(line: string): Option<Fence> {
    var n := Spaces(line);
    if n > 3 || n == |line| || (line[n] != '`' && line[n] != '~') then None
    else
      var length := Run(line[n..], c => c == line[n]);
      if length >= 3 then Some(Fence(line[n], length)) else None
  }

  datatype Key = Task | Executor | SubmittedBy

  function Lower(c: char): char { if 'A' <= c <= 'Z' then c + 32 as char else c }

  predicate StartsWith(s: string, word: string) {
    |word| <= |s| && forall i :: 0 <= i < |word| ==> Lower(s[i]) == word[i]
  }

  /** The section word that a text begins with, in any case, and its length. */
  function WordOf(s: string): Option<(Key, nat)> {
    if StartsWith(s, "task") then Some((Task, 4))
    else if StartsWith(s, "executor") then Some((Executor, 8))
    else if StartsWith(s, "submitted-by") then Some((SubmittedBy, 12))
    else None
  }

  /** What follows the word: nothing, or a colon and a text without line terminators. */
  function TextOf(s: string): Option<string> {
    var n := Spaces(s);
    if n == |s| then Some("")
    else if s[n] != ':' then None
    else
      var text := s[n + 1..][Spaces(s[n + 1..])..];
      if exists c :: c in text && IsLineTerminator(c) then None else Some(text)
  }

  /** What follows at most three spaces and, if there are any, at most six hashes and the spaces after them. */
  function TitleOf(line: string): Option<string> {
    var n := Spaces(line);
    if n > 3 then None else AfterHashes(line[n..])
  }

  function AfterHashes(s: string): Option<string> {
    var hashes := Run(s, c => c == '#');
    if hashes > 6 then None
    else if hashes == 0 then Some(s)
    else Some(s[hashes..][Spaces(s[hashes..])..])
  }

  /** /^\s{0,3}(?:#{1,6}\s*)?(Task|Executor|Submitted-by)(?:\s*:\s*(.*)|\s*)$/i */
  function HeadingOf(line: string): Option<(Key, string)> {
    var title := TitleOf(line);
    if title.None? then None
    else
      match WordOf(title.value)
      case None => None
      case Some((key, length)) =>
        match TextOf(title.value[if length <= |title.value| then length else 0..])
        case Some(text) => Some((key, text))
        case None => None
  }

  // ---------------------------------------------------------------- what the two patterns match

  ghost predicate AllSpaces(s: string) { forall i :: 0 <= i < |s| ==> IsSpace(s[i]) }

  ghost predicate Repeats(s: string, c: char) { forall i :: 0 <= i < |s| ==> s[i] == c }

  /** At most three spaces, three or more of one marker, and a rest that does not go on with it. */
  ghost predicate FenceParts(line: string, indent: string, run: string, rest: string, marker: char) {
    && line == indent + run + rest && AllSpaces(indent) && |indent| <= 3
    && |run| >= 3 && Repeats(run, marker) && (marker == '`' || marker == '~') && (rest == "" || rest[0] != marker)
  }

  lemma RunAt(s: string, a: string, b: string, p: char -> bool)
    requires s == a + b && (forall i :: 0 <= i < |a| ==> p(a[i])) && (b == "" || !p(b[0]))
    ensures Run(s, p) == |a| && s[|a|..] == b
  {
    assert forall i :: 0 <= i < |a| ==> s[i] == a[i];
    assert b != "" ==> s[|a|] == b[0];
  }

  /** A line is a fence exactly when it can be taken apart like this; the marker run is as long as it can be. */
  lemma FenceMeans(line: string, marker: char, length: nat)
    ensures FenceOf(line) == Some(Fence(marker, length)) <==>
      exists indent, run, rest :: FenceParts(line, indent, run, rest, marker) && |run| == length
  {
    if FenceOf(line) == Some(Fence(marker, length)) { FenceTakesApart(line, marker, length); }
    if indent, run, rest :| FenceParts(line, indent, run, rest, marker) && |run| == length {
      FenceIsFound(line, indent, run, rest, marker);
    }
  }

  lemma FenceTakesApart(line: string, marker: char, length: nat)
    requires FenceOf(line) == Some(Fence(marker, length))
    ensures exists indent, run, rest :: FenceParts(line, indent, run, rest, marker) && |run| == length
  {
    hide IsSpace, Run;
    var n := Spaces(line);
    var indent, tail := line[..n], line[n..];
    assert tail[0] == line[n] == marker;
    SameRun(tail, c => c == line[n], c => c == marker);
    var m := Run(tail, c => c == marker);
    var run, rest := tail[..m], tail[m..];
    assert line == indent + run + rest;
    assert FenceParts(line, indent, run, rest, marker);
  }

  lemma FenceIsFound(line: string, indent: string, run: string, rest: string, marker: char)
    requires FenceParts(line, indent, run, rest, marker)
    ensures FenceOf(line) == Some(Fence(marker, |run|))
  {
    hide IsSpace;
    var tail := run + rest;
    assert run[0] == marker && tail[0] == marker && line == indent + tail;
    MarkersAreNoSpaces(marker);
    RunAt(line, indent, tail, IsSpace);
    RunAt(tail, run, rest, c => c == marker);
    SameRun(tail, c => c == marker, c => c == line[|indent|]);
  }

  lemma {:induction false} SameRun(s: string, p: char -> bool, q: char -> bool)
    requires forall c :: p(c) == q(c)
    ensures Run(s, p) == Run(s, q)
  {
    if s != "" { SameRun(s[1..], p, q); }
  }

  lemma MarkersAreNoSpaces(c: char)
    ensures c == '`' || c == '~' || c == '#' || c == ':' || 'a' <= c <= 'z' || 'A' <= c <= 'Z' ==> !IsSpace(c)
  {
    SpaceCodes(c);
  }

  /** The word of a section in lower case. */
  function NameOf(key: Key): string {
    match key
    case Task => "task"
    case Executor => "executor"
    case SubmittedBy => "submitted-by"
  }

  ghost predicate SameLetter(c: char, lower: char) { c == lower || ('a' <= lower <= 'z' && c as int == lower as int - 32) }

  ghost predicate SameWord(word: string, name: string) {
    |word| == |name| && forall i :: 0 <= i < |word| ==> SameLetter(word[i], name[i])
  }

  /** A heading: up to three spaces, up to six hashes with spaces after them, a section's word, and a tail. */
  ghost predicate HeadingParts(line: string, indent: string, hashes: string, gap: string, word: string, tail: string, key: Key) {
    TitleParts(line, indent, hashes, gap, word + tail) && SameWord(word, NameOf(key))
  }

  ghost predicate TitleParts(line: string, indent: string, hashes: string, gap: string, title: string) {
    && line == indent + (hashes + (gap + title)) && AllSpaces(indent) && |indent| <= 3
    && Repeats(hashes, '#') && |hashes| <= 6 && AllSpaces(gap) && (hashes == "" ==> gap == "")
  }

  /** The tail: spaces only, or a colon and a text on one line, with spaces around the colon. */
  ghost predicate TailSays(tail: string, text: string) {
    || (AllSpaces(tail) && text == "")
    || exists before, after :: ColonParts(tail, before, after, text)
  }

  ghost predicate ColonParts(tail: string, before: string, after: string, text: string) {
    && tail == before + (":" + (after + text)) && AllSpaces(before) && AllSpaces(after)
    && (text == "" || !IsSpace(text[0])) && forall c :: c in text ==> !IsLineTerminator(c)
  }

  lemma TailMeans(tail: string, text: string)
    ensures TextOf(tail) == Some(text) <==> TailSays(tail, text)
  {
    if TextOf(tail) == Some(text) { TailTakesApart(tail, text); }
    if AllSpaces(tail) && text == "" {
      assert tail == tail + "";
      RunAt(tail, tail, "", IsSpace);
    }
    if before, after :| ColonParts(tail, before, after, text) { TailIsFound(tail, before, after, text); }
  }

  lemma TailTakesApart(tail: string, text: string)
    requires TextOf(tail) == Some(text)
    ensures TailSays(tail, text)
  {
    hide IsSpace, IsLineTerminator, Run;
    var n := Spaces(tail);
    if n < |tail| {
      var before, rest := tail[..n], tail[n + 1..];
      var m := Spaces(rest);
      var after := rest[..m];
      assert rest == after + text && tail == before + (":" + rest);
      assert ColonParts(tail, before, after, text);
    }
  }

  lemma TailIsFound(tail: string, before: string, after: string, text: string)
    requires ColonParts(tail, before, after, text)
    ensures TextOf(tail) == Some(text)
  {
    MarkersAreNoSpaces(':');
    hide IsSpace, IsLineTerminator;
    var rest := after + text;
    RunAt(tail, before, ":" + rest, IsSpace);
    assert tail[|before|] == ':' && tail[|before| + 1..] == rest;
    RunAt(rest, after, text, IsSpace);
  }

  lemma LowerMeans(c: char, lower: char)
    requires 'a' <= lower <= 'z' || lower == '-'
    ensures Lower(c) == lower <==> SameLetter(c, lower)
  {
    assert 'a' as int == 'A' as int + 32 && 'z' as int == 'Z' as int + 32 && '-' < 'A';
    if 'A' <= c <= 'Z' { assert Lower(c) as int == c as int + 32; }
  }

  lemma NamesAreLower(key: Key)
    ensures forall i :: 0 <= i < |NameOf(key)| ==> 'a' <= NameOf(key)[i] <= 'z' || NameOf(key)[i] == '-'
  {
  }

  lemma StartMeans(s: string, key: Key)
    ensures StartsWith(s, NameOf(key)) <==> |NameOf(key)| <= |s| && SameWord(s[..|NameOf(key)|], NameOf(key))
  {
    var name := NameOf(key);
    NamesAreLower(key);
    if |name| <= |s| {
      forall i | 0 <= i < |name| ensures Lower(s[i]) == name[i] <==> SameLetter(s[..|name|][i], name[i]) {
        LowerMeans(s[i], name[i]);
      }
    }
  }

  /** The three words begin with different letters. */
  lemma WordMeans(s: string, key: Key)
    ensures WordOf(s) == Some((key, |NameOf(key)|)) <==>
      |NameOf(key)| <= |s| && SameWord(s[..|NameOf(key)|], NameOf(key))
  {
    StartMeans(s, Task);
    StartMeans(s, Executor);
    StartMeans(s, SubmittedBy);
    assert "task"[0] == 't' && "executor"[0] == 'e' && "submitted-by"[0] == 's';
  }

  lemma WordLength(s: string)
    ensures WordOf(s).Some? ==> WordOf(s).value.1 == |NameOf(WordOf(s).value.0)|
  {
  }

  /**
   * A line is a heading of `key` with `text` exactly when it can be taken apart like this: the
   * pattern is met in one way at most, and the text begins after the spaces that follow the colon.
   */
  lemma HeadingMeans(line: string, key: Key, text: string)
    ensures HeadingOf(line) == Some((key, text)) <==>
      exists indent, hashes, gap, word, tail ::
        HeadingParts(line, indent, hashes, gap, word, tail, key) && TailSays(tail, text)
  {
    if HeadingOf(line) == Some((key, text)) {
      var indent, hashes, gap, word, tail := HeadingTakesApart(line, key, text);
      assert HeadingParts(line, indent, hashes, gap, word, tail, key);
    }
    if indent, hashes, gap, word, tail :| HeadingParts(line, indent, hashes, gap, word, tail, key) && TailSays(tail, text) {
      HeadingIsFound(line, indent, hashes, gap, word, tail, key, text);
    }
  }

  lemma Cut(s: string, n: nat)
    requires n <= |s|
    ensures s == s[..n] + s[n..]
  {
  }

  lemma TitleTakesApart(line: string) returns (indent: string, hashes: string, gap: string)
    requires TitleOf(line).Some?
    ensures TitleParts(line, indent, hashes, gap, TitleOf(line).value)
  {
    hide IsSpace, Run, AfterHashes;
    var n := Spaces(line);
    Cut(line, n);
    indent := line[..n];
    hashes, gap := HashesTakenApart(line[n..]);
  }

  lemma HashesTakenApart(s: string) returns (hashes: string, gap: string)
    requires AfterHashes(s).Some?
    ensures s == hashes + (gap + AfterHashes(s).value) && Repeats(hashes, '#') && |hashes| <= 6
    ensures AllSpaces(gap) && (hashes == "" ==> gap == "")
  {
    hide IsSpace, Run;
    hashes, gap := "", "";
    var h := Run(s, c => c == '#');
    if h == 0 {
      assert hashes + (gap + s) == s;
    } else {
      var after := s[h..];
      Cut(s, h);
      Cut(after, Spaces(after));
      hashes, gap := s[..h], after[..Spaces(after)];
    }
  }

  lemma TitleIsFound(line: string, indent: string, hashes: string, gap: string, title: string)
    requires TitleParts(line, indent, hashes, gap, title) && title != "" && !IsSpace(title[0]) && title[0] != '#'
    ensures TitleOf(line) == Some(title)
  {
    var after := gap + title;
    var rest := hashes + after;
    NoHashStarts(gap, title);
    MarkersAreNoSpaces('#');
    hide IsSpace, Run, AfterHashes;
    if hashes == "" { assert rest == title; } else { assert rest[0] == hashes[0]; }
    RunAt(line, indent, rest, IsSpace);
    HashesAreFound(rest, hashes, gap, title);
  }

  lemma HashesAreFound(s: string, hashes: string, gap: string, title: string)
    requires s == hashes + (gap + title) && Repeats(hashes, '#') && |hashes| <= 6 && AllSpaces(gap) && (hashes == "" ==> gap == "")
    requires title != "" && !IsSpace(title[0]) && title[0] != '#'
    ensures AfterHashes(s) == Some(title)
  {
    NoHashStarts(gap, title);
    hide IsSpace, Run;
    RunAt(s, hashes, gap + title, c => c == '#');
    RunAt(gap + title, gap, title, IsSpace);
    if hashes == "" { assert s == title; }
  }

  lemma HeadingTakesApart(line: string, key: Key, text: string)
    returns (indent: string, hashes: string, gap: string, word: string, tail: string)
    requires HeadingOf(line) == Some((key, text))
    ensures HeadingParts(line, indent, hashes, gap, word, tail, key) && TailSays(tail, text)
  {
    var title, length := TitleOf(line).value, |NameOf(key)|;
    WordLength(title);
    WordMeans(title, key);
    hide TextOf, WordOf, SameWord, TitleOf, TitleParts, TailSays, NameOf;
    word, tail := title[..length], title[length..];
    TailMeans(tail, text);
    indent, hashes, gap := TitleTakesApart(line);
    Cut(title, length);
  }

  lemma HeadingIsFound(line: string, indent: string, hashes: string, gap: string, word: string, tail: string, key: Key,
                       text: string)
    requires HeadingParts(line, indent, hashes, gap, word, tail, key) && TailSays(tail, text)
    ensures HeadingOf(line) == Some((key, text))
  {
    var title := word + tail;
    assert SameLetter(word[0], NameOf(key)[0]);
    LetterIsNoSpace(word[0], key);
    assert title[..|word|] == word && title[|word|..] == tail && title[0] == word[0];
    WordMeans(title, key);
    TailMeans(tail, text);
    hide TextOf, WordOf, SameWord, TailSays, NameOf, IsSpace, TitleOf, TitleParts;
    TitleIsFound(line, indent, hashes, gap, title);
  }

  lemma LetterIsNoSpace(c: char, key: Key)
    requires SameLetter(c, NameOf(key)[0])
    ensures !IsSpace(c) && c != '#'
  {
    MarkersAreNoSpaces(c);
  }

  lemma NoHashStarts(gap: string, title: string)
    requires AllSpaces(gap) && title != "" && title[0] != '#'
    ensures (gap + title)[0] != '#'
  {
    MarkersAreNoSpaces('#');
  }

  // ---------------------------------------------------------------- the scan

  datatype Failure = BadBody | Duplicate(key: Key) | Preface | Missing | TaskTooLong | ControlCharacters | BadExecutor | BadSubmitter

  datatype Result<+T> = Ok(value: T) | Error(failure: Failure)

  datatype Scan = Scan(sections: map<Key, seq<string>>, current: Option<Key>, fence: Option<Fence>)

  const START := Scan(map[], None, None)

  function Toggle(fence: Option<Fence>, f: Fence): Option<Fence> {
    if fence.None? then Some(f)
    else if fence.value.marker == f.marker && f.length >= fence.value.length then None
    else fence
  }

  /** The fence that is open after some lines. */
  function FenceAfter(lines: seq<string>): Option<Fence> {
    if lines == [] then None
    else
      var before, f := FenceAfter(lines[..|lines| - 1]), FenceOf(lines[|lines| - 1]);
      if f.Some? then Toggle(before, f.value) else before
  }

  ghost predicate IsFence(lines: seq<string>, i: int, marker: char, least: nat) {
    0 <= i < |lines| && FenceOf(lines[i]).Some? && FenceOf(lines[i]).value.marker == marker && FenceOf(lines[i]).value.length >= least
  }

  /** Line `i` opens `fence`: no fence is open before it, and no line from there on closes it. */
  ghost predicate OpensFor(lines: seq<string>, i: int, fence: Fence) {
    && 0 <= i < |lines| && FenceOf(lines[i]) == Some(fence) && FenceAfter(lines[..i]).None?
    && forall j :: i < j < |lines| ==> !IsFence(lines, j, fence.marker, fence.length)
  }

  /** A fence is open exactly from the line that opens it to the first of its marker that is at least as long. */
  lemma {:induction false} OpenFenceMeans(lines: seq<string>, fence: Fence)
    ensures FenceAfter(lines) == Some(fence) <==> exists i :: OpensFor(lines, i, fence)
  {
    if lines != [] {
      var n := |lines| - 1;
      OpenFenceMeans(lines[..n], fence);
      if FenceAfter(lines) == Some(fence) {
        if FenceAfter(lines[..n]).None? {
          assert OpensFor(lines, n, fence);
        } else {
          assert FenceAfter(lines[..n]) == Some(fence);
          var i :| OpensFor(lines[..n], i, fence);
          StillOpens(lines, i, fence);
        }
      }
      if i :| OpensFor(lines, i, fence) {
        if i < n { StillOpens(lines, i, fence); }
      }
    }
  }

  lemma StillOpens(lines: seq<string>, i: int, fence: Fence)
    requires lines != [] && 0 <= i < |lines| - 1
    ensures OpensFor(lines, i, fence) <==>
      OpensFor(lines[..|lines| - 1], i, fence) && !IsFence(lines, |lines| - 1, fence.marker, fence.length)
  {
    var n := |lines| - 1;
    assert lines[..n][..i] == lines[..i];
    forall j | 0 <= j < n ensures IsFence(lines[..n], j, fence.marker, fence.length) <==> IsFence(lines, j, fence.marker, fence.length) {}
  }

  function Push(s: Scan, line: string): Scan {
    if s.current.Some? && s.current.value in s.sections
    then s.(sections := s.sections[s.current.value := s.sections[s.current.value] + [line]])
    else s
  }

  /** One turn of the loop. */
  function Step(s: Scan, line: string): Result<Scan> {
    var f := FenceOf(line);
    if f.Some? then Ok(Push(s, line).(fence := Toggle(s.fence, f.value)))
    else
      var heading := if s.fence.None? then HeadingOf(line) else None;
      match heading
      case Some((key, text)) =>
        if key in s.sections then Error(Duplicate(key))
        else Ok(s.(sections := s.sections[key := if text == "" then [] else [text]], current := Some(key)))
      case None =>
        if s.current.Some? then Ok(Push(s, line))
        else if Trim(line) != "" then Error(Preface)
        else Ok(s)
  }

  function ScanAll(s: Scan, lines: seq<string>): Result<Scan>
    decreases |lines|
  {
    if lines == [] then Ok(s)
    else
      match Step(s, lines[0])
      case Ok(t) => ScanAll(t, lines[1..])
      case Error(e) => Error(e)
  }

  // ---------------------------------------------------------------- what the scan finds

  /** Line `i` is a heading outside every fence. */
  ghost predicate FreeHeading(lines: seq<string>, i: int, key: Key, text: string) {
    0 <= i < |lines| && FenceAfter(lines[..i]).None? && FenceOf(lines[i]).None? && HeadingOf(lines[i]) == Some((key, text))
  }

  ghost predicate IsFree(lines: seq<string>, i: int) { exists key, text :: FreeHeading(lines, i, key, text) }

  /** The section that begins at heading `h` and goes up to line `e`: the heading's text and the lines after it. */
  ghost predicate SectionAt(lines: seq<string>, key: Key, h: int, e: int, content: seq<string>) {
    && 0 <= h < e <= |lines| && (forall i :: h < i < e ==> !IsFree(lines, i))
    && exists text :: FreeHeading(lines, h, key, text) && content == (if text == "" then [] else [text]) + lines[h + 1..e]
  }

  /** A section that ends before the next free heading, and one that goes on to the end. */
  ghost predicate Closed(lines: seq<string>, key: Key, content: seq<string>) {
    exists h, e :: SectionAt(lines, key, h, e, content) && e < |lines| && IsFree(lines, e)
  }

  ghost predicate Open(lines: seq<string>, key: Key, content: seq<string>) {
    exists h :: SectionAt(lines, key, h, |lines|, content)
  }

  ghost predicate NotRepeated(lines: seq<string>) {
    forall i, j, key, s, t :: i < j && FreeHeading(lines, i, key, s) ==> !FreeHeading(lines, j, key, t)
  }

  /** Up to its first free heading the text holds only blank lines and fences. */
  ghost predicate QuietStart(lines: seq<string>) {
    forall i :: 0 <= i < |lines| && (forall j :: 0 <= j <= i ==> !IsFree(lines, j)) ==> FenceOf(lines[i]).Some? || Trim(lines[i]) == ""
  }

  ghost predicate Found(lines: seq<string>, s: Scan) {
    && s.fence == FenceAfter(lines)
    && (s.current.None? ==> s.sections == map[] && forall i :: !IsFree(lines, i))
    && (forall i, key, text :: FreeHeading(lines, i, key, text) ==> key in s.sections)
    && (s.current.Some? ==> s.current.value in s.sections && Open(lines, s.current.value, s.sections[s.current.value]))
    && (forall key :: key in s.sections && s.current != Some(key) ==> Closed(lines, key, s.sections[key]))
  }

  lemma {:induction false} ScanSnoc(s: Scan, lines: seq<string>, line: string)
    ensures ScanAll(s, lines + [line]) ==
      match ScanAll(s, lines)
      case Ok(t) => Step(t, line)
      case Error(e) => Error(e)
    decreases |lines|
  {
    hide Step;
    if lines == [] {
      assert [line][1..] == [] && lines + [line] == [line];
      if Step(s, line).Ok? { assert ScanAll(Step(s, line).value, []) == Step(s, line); }
    } else {
      assert (lines + [line])[1..] == lines[1..] + [line];
      if Step(s, lines[0]).Ok? { ScanSnoc(Step(s, lines[0]).value, lines[1..], line); }
    }
  }

  lemma FreeStep(lines: seq<string>, line: string)
    ensures forall i, key, text :: i < |lines| ==> (FreeHeading(lines + [line], i, key, text) <==> FreeHeading(lines, i, key, text))
    ensures forall i :: i < |lines| ==> (IsFree(lines + [line], i) <==> IsFree(lines, i))
    ensures forall i :: IsFree(lines + [line], i) ==> 0 <= i <= |lines|
    ensures forall key, text :: FreeHeading(lines + [line], |lines|, key, text) <==>
      FenceAfter(lines).None? && FenceOf(line).None? && HeadingOf(line) == Some((key, text))
  {
    hide FenceOf, HeadingOf, FenceAfter;
    var longer := lines + [line];
    forall i | 0 <= i < |lines| ensures longer[..i] == lines[..i] {}
    assert longer[..|lines|] == lines;
    forall i | i < |lines| ensures IsFree(longer, i) <==> IsFree(lines, i) {
      if key, text :| FreeHeading(longer, i, key, text) { assert FreeHeading(lines, i, key, text); }
      if key, text :| FreeHeading(lines, i, key, text) { assert FreeHeading(longer, i, key, text); }
    }
  }

  lemma SectionStays(lines: seq<string>, line: string, key: Key, h: int, e: int, content: seq<string>)
    requires SectionAt(lines, key, h, e, content)
    ensures SectionAt(lines + [line], key, h, e, content)
  {
    FreeStep(lines, line);
    hide FreeHeading, IsFree;
    assert (lines + [line])[h + 1..e] == lines[h + 1..e];
  }

  lemma SectionGrows(lines: seq<string>, line: string, key: Key, h: int, content: seq<string>)
    requires SectionAt(lines, key, h, |lines|, content) && !IsFree(lines + [line], |lines|)
    ensures SectionAt(lines + [line], key, h, |lines| + 1, content + [line])
  {
    FreeStep(lines, line);
    hide FreeHeading, IsFree;
    var text :| FreeHeading(lines, h, key, text) && content == (if text == "" then [] else [text]) + lines[h + 1..];
    assert (lines + [line])[h + 1..] == lines[h + 1..] + [line];
    assert content + [line] == (if text == "" then [] else [text]) + (lines + [line])[h + 1..];
  }

  /** A line that is no free heading. */
  lemma FoundKeeps(lines: seq<string>, line: string, s: Scan, fence: Option<Fence>)
    requires Found(lines, s) && FenceAfter(lines + [line]) == fence && !IsFree(lines + [line], |lines|)
    ensures Found(lines + [line], Push(s, line).(fence := fence))
  {
    FreeStep(lines, line);
    hide FenceOf, HeadingOf, FenceAfter, SectionAt, IsFree, FreeHeading;
    var longer, t := lines + [line], Push(s, line).(fence := fence);
    if s.current.Some? {
      var key := s.current.value;
      var h :| SectionAt(lines, key, h, |lines|, s.sections[key]);
      SectionGrows(lines, line, key, h, s.sections[key]);
      assert Open(longer, key, t.sections[key]);
    }
    forall key | key in t.sections && t.current != Some(key) ensures Closed(longer, key, t.sections[key]) {
      assert Closed(lines, key, s.sections[key]);
      var h, e :| SectionAt(lines, key, h, e, s.sections[key]) && e < |lines| && IsFree(lines, e);
      SectionStays(lines, line, key, h, e, s.sections[key]);
    }
    forall i, key, text | FreeHeading(longer, i, key, text) ensures key in t.sections {
      FreeIsFree(longer, i, key, text);
      assert FreeHeading(lines, i, key, text);
    }
  }

  lemma FreeIsFree(lines: seq<string>, i: int, key: Key, text: string)
    requires FreeHeading(lines, i, key, text)
    ensures IsFree(lines, i) && 0 <= i < |lines|
  {
  }

  lemma SectionHasHeading(lines: seq<string>, key: Key, h: int, e: int, content: seq<string>)
    requires SectionAt(lines, key, h, e, content)
    ensures exists text :: FreeHeading(lines, h, key, text)
  {
  }

  /** A section that was found has its heading. */
  lemma FoundHasHeading(lines: seq<string>, s: Scan, key: Key)
    requires Found(lines, s) && key in s.sections
    ensures exists i, text :: FreeHeading(lines, i, key, text)
  {
    hide SectionAt, FreeHeading, IsFree, FenceAfter;
    if s.current == Some(key) {
      var h :| SectionAt(lines, key, h, |lines|, s.sections[key]);
      SectionHasHeading(lines, key, h, |lines|, s.sections[key]);
    } else {
      assert Closed(lines, key, s.sections[key]);
      var h, e :| SectionAt(lines, key, h, e, s.sections[key]) && e < |lines| && IsFree(lines, e);
      SectionHasHeading(lines, key, h, e, s.sections[key]);
    }
  }

  lemma SectionOpens(lines: seq<string>, line: string, key: Key, text: string)
    requires FreeHeading(lines + [line], |lines|, key, text)
    ensures Open(lines + [line], key, if text == "" then [] else [text])
  {
    var longer := lines + [line];
    hide FreeHeading, IsFree;
    assert longer[|lines| + 1..|longer|] == [];
    assert SectionAt(longer, key, |lines|, |longer|, if text == "" then [] else [text]);
  }

  lemma HeadingsKnown(lines: seq<string>, line: string, s: Scan, key: Key, text: string)
    requires Found(lines, s) && FreeHeading(lines + [line], |lines|, key, text)
    ensures forall i, k, x :: FreeHeading(lines + [line], i, k, x) ==> k in s.sections || k == key
  {
    FreeStep(lines, line);
    HeadingIsUnique(lines + [line], |lines|, key, text);
    hide FenceOf, HeadingOf, FenceAfter, SectionAt, IsFree, FreeHeading, Open, Closed;
    forall i, k, x | FreeHeading(lines + [line], i, k, x) ensures k in s.sections || k == key {
      FreeIsFree(lines + [line], i, k, x);
      if i < |lines| { assert FreeHeading(lines, i, k, x); }
    }
  }

  /** A free heading of a section that is new. */
  lemma FoundGrows(lines: seq<string>, line: string, s: Scan, key: Key, text: string)
    requires Found(lines, s) && FreeHeading(lines + [line], |lines|, key, text) && key !in s.sections
    requires FenceAfter(lines + [line]) == s.fence
    ensures Found(lines + [line], s.(sections := s.sections[key := if text == "" then [] else [text]], current := Some(key)))
  {
    hide FenceOf, HeadingOf, FenceAfter, SectionAt, IsFree, FreeHeading, Open, Closed;
    SectionOpens(lines, line, key, text);
    HeadingsKnown(lines, line, s, key, text);
    HeadingIsUnique(lines + [line], |lines|, key, text);
    forall k | k in s.sections ensures Closed(lines + [line], k, s.sections[k]) { SectionCloses(lines, line, s, k); }
  }

  lemma HeadingIsUnique(lines: seq<string>, i: int, key: Key, text: string)
    requires FreeHeading(lines, i, key, text)
    ensures IsFree(lines, i) && forall k, x :: FreeHeading(lines, i, k, x) ==> k == key && x == text
  {
  }

  lemma SectionCloses(lines: seq<string>, line: string, s: Scan, key: Key)
    requires Found(lines, s) && key in s.sections && IsFree(lines + [line], |lines|)
    ensures Closed(lines + [line], key, s.sections[key])
  {
    FreeStep(lines, line);
    hide FenceOf, HeadingOf, FenceAfter, SectionAt, IsFree, FreeHeading;
    if s.current == Some(key) {
      var h :| SectionAt(lines, key, h, |lines|, s.sections[key]);
      SectionStays(lines, line, key, h, |lines|, s.sections[key]);
    } else {
      assert Closed(lines, key, s.sections[key]);
      var h, e :| SectionAt(lines, key, h, e, s.sections[key]) && e < |lines| && IsFree(lines, e);
      SectionStays(lines, line, key, h, e, s.sections[key]);
    }
  }

  lemma QuietSnoc(lines: seq<string>, line: string)
    ensures QuietStart(lines + [line]) <==>
      QuietStart(lines) && ((forall j :: 0 <= j <= |lines| ==> !IsFree(lines + [line], j)) ==> FenceOf(line).Some? || Trim(line) == "")
  {
    FreeStep(lines, line);
    hide FenceOf, HeadingOf, FenceAfter, IsFree, FreeHeading, Trim;
    var longer := lines + [line];
    assert longer[|lines|] == line && forall i :: 0 <= i < |lines| ==> longer[i] == lines[i];
    if QuietStart(longer) {
      forall i | 0 <= i < |lines| && forall j :: 0 <= j <= i ==> !IsFree(lines, j)
        ensures FenceOf(lines[i]).Some? || Trim(lines[i]) == ""
      {
        assert forall j :: 0 <= j <= i ==> !IsFree(longer, j);
        assert longer[i] == lines[i];
      }
    }
  }

  lemma RepeatSnoc(lines: seq<string>, line: string)
    ensures NotRepeated(lines + [line]) <==>
      NotRepeated(lines)
      && forall i, key, s, t :: FreeHeading(lines, i, key, s) ==> !FreeHeading(lines + [line], |lines|, key, t)
  {
    FreeStep(lines, line);
    var longer := lines + [line];
    forall i, key, text | FreeHeading(longer, i, key, text) ensures 0 <= i <= |lines| { FreeIsFree(longer, i, key, text); }
    forall i, key, text | FreeHeading(lines, i, key, text) ensures 0 <= i < |lines| { FreeIsFree(lines, i, key, text); }
    hide FenceOf, HeadingOf, FenceAfter, IsFree, FreeHeading;
  }

  /**
   * The whole scan: it is refused exactly when a section has two free headings or something other
   * than blank lines and fences stands before the first one. Otherwise every section is the text
   * of its heading followed by the lines up to the next free heading, fences and all.
   */
  lemma {:induction false} ScanMeans(lines: seq<string>)
    ensures ScanAll(START, lines).Ok? <==> NotRepeated(lines) && QuietStart(lines)
    ensures ScanAll(START, lines).Ok? ==> Found(lines, ScanAll(START, lines).value)
  {
    if lines != [] {
      var n := |lines| - 1;
      var front, line := lines[..n], lines[n];
      assert lines == front + [line];
      ScanMeans(front);
      ScanSnoc(START, front, line);
      QuietSnoc(front, line);
      RepeatSnoc(front, line);
      if ScanAll(START, front).Ok? { ScanStepMeans(front, line, ScanAll(START, front).value); }
    }
  }

  lemma FenceStep(lines: seq<string>, line: string)
    ensures FenceAfter(lines + [line]) ==
      if FenceOf(line).Some? then Toggle(FenceAfter(lines), FenceOf(line).value) else FenceAfter(lines)
  {
    assert (lines + [line])[..|lines|] == lines;
  }

  lemma HeadingMet(lines: seq<string>, line: string, s: Scan, key: Key, text: string)
    requires Found(lines, s) && FenceOf(line).None? && s.fence.None? && HeadingOf(line) == Some((key, text))
    ensures IsFree(lines + [line], |lines|)
    ensures Step(s, line).Ok? <==>
      forall i, k, x, y :: FreeHeading(lines, i, k, x) ==> !FreeHeading(lines + [line], |lines|, k, y)
    ensures Step(s, line).Ok? ==> Found(lines + [line], Step(s, line).value)
  {
    FreeStep(lines, line);
    FenceStep(lines, line);
    HeadingIsUnique(lines + [line], |lines|, key, text);
    if key in s.sections {
      FoundHasHeading(lines, s, key);
    } else {
      FoundGrows(lines, line, s, key, text);
    }
    hide FenceOf, HeadingOf, FenceAfter, IsFree, FreeHeading, SectionAt, Open, Closed;
  }

  lemma NoHeadingMet(lines: seq<string>, line: string, s: Scan)
    requires Found(lines, s) && (FenceOf(line).Some? || s.fence.Some? || HeadingOf(line).None?)
    ensures !IsFree(lines + [line], |lines|)
    ensures Step(s, line).Ok? <==>
      ((forall j :: 0 <= j <= |lines| ==> !IsFree(lines + [line], j)) ==> FenceOf(line).Some? || Trim(line) == "")
    ensures Step(s, line).Ok? ==> Found(lines + [line], Step(s, line).value)
  {
    FreeStep(lines, line);
    FenceStep(lines, line);
    assert !IsFree(lines + [line], |lines|);
    FoundKeeps(lines, line, s, FenceAfter(lines + [line]));
    if s.current.Some? {
      FoundHasHeading(lines, s, s.current.value);
      var i, text :| FreeHeading(lines, i, s.current.value, text);
      FreeIsFree(lines, i, s.current.value, text);
      assert IsFree(lines + [line], i);
    }
    hide FenceOf, HeadingOf, FenceAfter, IsFree, FreeHeading, SectionAt, Open, Closed, Trim;
  }

  /** One more line. */
  lemma ScanStepMeans(lines: seq<string>, line: string, s: Scan)
    requires Found(lines, s)
    ensures Step(s, line).Ok? <==>
      && ((forall j :: 0 <= j <= |lines| ==> !IsFree(lines + [line], j)) ==> FenceOf(line).Some? || Trim(line) == "")
      && forall i, key, x, y :: FreeHeading(lines, i, key, x) ==> !FreeHeading(lines + [line], |lines|, key, y)
    ensures Step(s, line).Ok? ==> Found(lines + [line], Step(s, line).value)
  {
    FreeStep(lines, line);
    hide FenceAfter, IsFree, SectionAt, Open, Closed, Step, Found, Trim;
    var heading := if FenceOf(line).None? && s.fence.None? then HeadingOf(line) else None;
    if heading.Some? {
      HeadingMet(lines, line, s, heading.value.0, heading.value.1);
    } else {
      NoHeadingMet(lines, line, s);
      NoneFree(lines + [line], |lines|);
    }
  }

  lemma NoneFree(lines: seq<string>, i: int)
    ensures !IsFree(lines, i) ==> forall key, text :: !FreeHeading(lines, i, key, text)
  {
  }

  datatype Submission = Submission(task: string, muse: bool, submittedBy: string)

  function Section(s: Scan, key: Key): string { if key in s.sections then Trim(Join(s.sections[key])) else "" }

  const MAX_BODY_BYTES := 131_072
  const MAX_TASK_BYTES := 65_536

  /** Control characters other than tab, newline and carriage return. */
  predicate IsForbidden(c: char) {
    c <= '\U{08}' || c == '\U{0b}' || c == '\U{0c}' || '\U{0e}' <= c <= '\U{1f}' || c == '\U{7f}'
  }

  predicate GoodSubmitter(s: string) {
    |Text.Units(s)| <= 256 && forall c :: c in s ==> c > '\U{1f}' && c != '\U{7f}'
  }

  function Check(s: Scan): Result<Submission> {
    var task, executor, submitter := Section(s, Task), Section(s, Executor), Section(s, SubmittedBy);
    if task == "" || executor == "" || submitter == "" then Error(Missing)
    else if ByteLength(task) > MAX_TASK_BYTES then Error(TaskTooLong)
    else if exists c :: c in task && IsForbidden(c) then Error(ControlCharacters)
    else if executor != "muse" && executor != "loop" then Error(BadExecutor)
    else if !GoodSubmitter(submitter) then Error(BadSubmitter)
    else Ok(Submission(task, executor == "muse", submitter))
  }

  function ParseResult(body: Option<string>): Result<Submission> {
    if body.None? || ByteLength(body.value) > MAX_BODY_BYTES then Error(BadBody)
    else
      match ScanAll(START, Split(body.value))
      case Ok(s) => Check(s)
      case Error(e) => Error(e)
  }

  /** `parseHeadlessCodeJobBody`. */
  method Parse(body: Option<string>) returns (r: Result<Submission>)
    ensures r == ParseResult(body)
  {
    if body.None? || ByteLength(body.value) > MAX_BODY_BYTES { return Error(BadBody); }
    var lines := Split(body.value);
    var s := START;
    var i := 0;
    while i < |lines|
      invariant i <= |lines| && ScanAll(START, lines) == ScanAll(s, lines[i..])
    {
      var turn := Step(s, lines[i]);
      if turn.Error? { return Error(turn.failure); }
      assert lines[i..][1..] == lines[i + 1..];
      s := turn.value;
      i := i + 1;
    }
    return Check(s);
  }

  // ---------------------------------------------------------------- what is accepted

  lemma {:induction false} EndTrims(s: string)
    ensures TrimEnd(s) <= s && (TrimEnd(s) != "" ==> !IsSpace(TrimEnd(s)[|TrimEnd(s)| - 1]))
  {
    if s != "" && IsSpace(s[|s| - 1]) { EndTrims(s[..|s| - 1]); }
  }

  lemma {:induction false} StartTrims(s: string)
    ensures TrimStart(s) != "" ==> !IsSpace(TrimStart(s)[0])
  {
    if s != "" && IsSpace(s[0]) { StartTrims(s[1..]); }
  }

  lemma TrimTrims(s: string)
    ensures Trim(s) != "" ==> Trimmed(Trim(s))
  {
    StartTrims(s);
    EndTrims(TrimStart(s));
  }

  lemma ForbiddenCodes(c: char)
    ensures IsForbidden(c) <==> (c as int < 32 && c as int !in {9, 10, 13}) || c as int == 127
  {
  }

  /** The three sections make the submission: none is empty, and each is within its limits. */
  ghost predicate Makes(s: Scan, x: Submission) {
    && Section(s, Task) == x.task && Section(s, Executor) == (if x.muse then "muse" else "loop")
    && Section(s, SubmittedBy) == x.submittedBy && x.task != "" && x.submittedBy != ""
    && ByteLength(x.task) <= 65_536 && (forall c :: c in x.task ==> (c as int >= 32 || c as int in {9, 10, 13}) && c as int != 127)
    && |Text.Units(x.submittedBy)| <= 256 && forall c :: c in x.submittedBy ==> c as int >= 32 && c as int != 127
  }

  lemma CheckMeans(s: Scan, x: Submission)
    ensures Check(s) == Ok(x) <==> Makes(s, x)
  {
    forall c ensures IsForbidden(c) <==> (c as int < 32 && c as int !in {9, 10, 13}) || c as int == 127 { ForbiddenCodes(c); }
    hide Section, ByteLength, Text.Units, IsForbidden;
  }

  /** A body is accepted exactly when it is within its limit, the scan goes through and its sections make a submission. */
  lemma AcceptedExactly(body: Option<string>, x: Submission)
    ensures ParseResult(body) == Ok(x) <==>
      && body.Some? && ByteLength(body.value) <= 131_072
      && var lines := Split(body.value);
         NotRepeated(lines) && QuietStart(lines) && ScanAll(START, lines).Ok? && Found(lines, ScanAll(START, lines).value)
         && Makes(ScanAll(START, lines).value, x)
  {
    hide ByteLength, NotRepeated, QuietStart, Found, Check, Makes, Split;
    if body.Some? {
      var lines := Split(body.value);
      ScanMeans(lines);
      if ScanAll(START, lines).Ok? { CheckMeans(ScanAll(START, lines).value, x); }
    }
  }

  /** An accepted submission is trimmed, within every limit and free of forbidden characters. */
  lemma AcceptedIsClean(body: Option<string>)
    requires ParseResult(body).Ok?
    ensures var x := ParseResult(body).value;
      && Trimmed(x.task) && ByteLength(x.task) <= MAX_TASK_BYTES && (forall c :: c in x.task ==> !IsForbidden(c))
      && Trimmed(x.submittedBy) && GoodSubmitter(x.submittedBy)
    ensures body.Some? && ByteLength(body.value) <= MAX_BODY_BYTES
  {
    var s := ScanAll(START, Split(body.value)).value;
    hide Split, ScanAll, ByteLength, Text.Units, Trim, Trimmed;
    assert Check(s) == ParseResult(body);
    if Task in s.sections { TrimTrims(Join(s.sections[Task])); }
    if SubmittedBy in s.sections { TrimTrims(Join(s.sections[SubmittedBy])); }
  }

  // ---------------------------------------------------------------- printing a body

  function ExecutorText(muse: bool): string { if muse then "muse" else "loop" }

  function Print3(x: Submission): string {
    "Task:" + "\n" + x.task + "\n" + ("Executor: " + ExecutorText(x.muse)) + "\n" + ("Submitted-by: " + x.submittedBy)
  }

  /** The limits that `parseHeadlessCodeJobBody` sets on what it returns, for a one-line submitter. */
  predicate Printable(x: Submission) {
    && Trimmed(x.task) && '\r' !in x.task && ByteLength(x.task) <= MAX_TASK_BYTES
    && (forall c :: c in x.task ==> !IsForbidden(c))
    && Trimmed(x.submittedBy) && GoodSubmitter(x.submittedBy) && forall c :: c in x.submittedBy ==> !IsLineTerminator(c)
  }

  datatype Walked = MeetsHeading | Ends(fence: Option<Fence>)

  /** Whether a heading outside every fence comes up, and which fence is open at the end. */
  function Walk(lines: seq<string>, fence: Option<Fence>): Walked
    decreases |lines|
  {
    if lines == [] then Ends(fence)
    else
      var f := FenceOf(lines[0]);
      if f.Some? then Walk(lines[1..], Toggle(fence, f.value))
      else if fence.None? && HeadingOf(lines[0]).Some? then MeetsHeading
      else Walk(lines[1..], fence)
  }

  /** All fences of the task close, and no section heading stands outside a fence. */
  predicate SelfContained(task: string) { Walk(Split(task), None) == Ends(None) }

  // ---------------------------------------------------------------- the three headings

  lemma NoSpaces(s: string)
    requires s == "" || !IsSpace(s[0])
    ensures Spaces(s) == 0
  {
  }

  lemma NotAFence(line: string)
    requires line != "" && !IsSpace(line[0]) && line[0] != '`' && line[0] != '~'
    ensures FenceOf(line).None?
  {
    NoSpaces(line);
  }

  lemma HeadingWith(word: string, key: Key, line: string, text: string)
    requires (word == "Task" && key == Task) || (word == "Executor" && key == Executor) || (word == "Submitted-by" && key == SubmittedBy)
    requires line == word + ":" + (if text == "" then "" else " " + text)
    requires text == "" || (!IsSpace(text[0]) && forall c :: c in text ==> !IsLineTerminator(c))
    ensures FenceOf(line).None? && HeadingOf(line) == Some((key, text))
  {
    FirstOfWord(word, line);
    NotAFence(line);
    WordAt(word, key, line);
    hide *;
    var tail := ":" + (if text == "" then "" else " " + text);
    Suffix(word, tail);
    assert line == word + tail;
    TextAfterColon(tail, text);
    TitleIsHeading(line, key, |word|, text);
  }

  lemma Suffix(a: string, b: string)
    ensures (a + b)[|a|..] == b
  {
  }

  lemma TitleIsHeading(line: string, key: Key, length: nat, text: string)
    requires line != "" && !IsSpace(line[0]) && line[0] != '#' && length <= |line|
    requires WordOf(line) == Some((key, length)) && TextOf(line[length..]) == Some(text)
    ensures HeadingOf(line) == Some((key, text))
  {
    NoSpaces(line);
    hide WordOf, TextOf, IsSpace;
    assert line[0..] == line && Run(line, c => c == '#') == 0;
    assert TitleOf(line) == Some(line);
  }

  lemma FirstOfWord(word: string, line: string)
    requires word == "Task" || word == "Executor" || word == "Submitted-by"
    requires |word| < |line| && line[..|word|] == word
    ensures !IsSpace(line[0]) && line[0] != '`' && line[0] != '~' && line[0] != '#'
  {
    assert line[0] == line[..|word|][0];
  }

  lemma WordAt(word: string, key: Key, line: string)
    requires (word == "Task" && key == Task) || (word == "Executor" && key == Executor) || (word == "Submitted-by" && key == SubmittedBy)
    requires |word| <= |line| && line[..|word|] == word
    ensures WordOf(line) == Some((key, |word|))
  {
    assert forall i :: 0 <= i < |word| ==> line[i] == word[i];
    assert line[0] == word[0];
  }

  lemma TextAfterColon(rest: string, text: string)
    requires rest == ":" + (if text == "" then "" else " " + text)
    requires text == "" || (!IsSpace(text[0]) && forall c :: c in text ==> !IsLineTerminator(c))
    ensures TextOf(rest) == Some(text)
  {
    NoSpaces(rest);
    var after := rest[1..];
    NoSpaces(text);
    if text != "" {
      assert after == " " + text && after[1..] == text;
      assert Spaces(after) == 1 + Spaces(text);
    }
    assert after[Spaces(after)..] == text;
  }

  // ---------------------------------------------------------------- the scan of a printed body

  function InTask(lines: seq<string>, fence: Option<Fence>): Scan { Scan(map[Task := lines], Some(Task), fence) }

  /** A line that is no free heading stays in the section. */
  lemma StepInTask(before: seq<string>, line: string, fence: Option<Fence>)
    ensures FenceOf(line).Some? ==> Step(InTask(before, fence), line) == Ok(InTask(before + [line], Toggle(fence, FenceOf(line).value)))
    ensures FenceOf(line).None? && (fence.Some? || HeadingOf(line).None?) ==>
      Step(InTask(before, fence), line) == Ok(InTask(before + [line], fence))
  {
    hide FenceOf, HeadingOf;
    assert map[Task := before][Task := before + [line]] == map[Task := before + [line]];
  }

  /** The lines of a task without a free heading all stay in the Task section. */
  lemma {:induction false} ScanTask(before: seq<string>, lines: seq<string>, fence: Option<Fence>, more: seq<string>)
    requires Walk(lines, fence).Ends?
    ensures ScanAll(InTask(before, fence), lines + more) == ScanAll(InTask(before + lines, Walk(lines, fence).fence), more)
    decreases |lines|
  {
    hide FenceOf, HeadingOf, Step;
    if lines == [] {
      assert lines + more == more && before + lines == before;
    } else {
      StepInTask(before, lines[0], fence);
      var f := FenceOf(lines[0]);
      ScanTask(before + [lines[0]], lines[1..], if f.Some? then Toggle(fence, f.value) else fence, more);
      assert (lines + more)[1..] == lines[1..] + more;
      assert before + [lines[0]] + lines[1..] == before + lines;
    }
  }

  lemma SplitPrinted(x: Submission)
    requires Printable(x)
    ensures Split(Print3(x)) ==
      ["Task:"] + (Split(x.task) + ["Executor: " + ExecutorText(x.muse), "Submitted-by: " + x.submittedBy])
  {
    hide Split, Trimmed, GoodSubmitter;
    var e, w := "Executor: " + ExecutorText(x.muse), "Submitted-by: " + x.submittedBy;
    assert Print3(x) == "Task:" + "\n" + (x.task + "\n" + (e + "\n" + w));
    SplitStep("Task:", x.task + "\n" + (e + "\n" + w));
    SplitConcat(x.task, e + "\n" + w);
    SplitStep(e, w);
    SplitWhole(w);
  }

  lemma {:induction false} BytesConcat(a: string, b: string)
    ensures ByteLength(a + b) == ByteLength(a) + ByteLength(b)
  {
    if a == "" {
      assert a + b == b;
    } else {
      assert (a + b)[1..] == a[1..] + b;
      BytesConcat(a[1..], b);
    }
  }

  lemma {:induction false} BytesOfUnits(s: string)
    ensures ByteLength(s) <= 3 * |Text.Units(s)|
  {
    if s != "" { BytesOfUnits(s[1..]); }
  }

  lemma {:induction false} BytesOfAscii(s: string)
    requires forall c :: c in s ==> c < '\U{80}'
    ensures ByteLength(s) == |s|
  {
    if s != "" {
      assert s[0] in s && forall c :: c in s[1..] ==> c in s;
      BytesOfAscii(s[1..]);
    }
  }

  lemma PrintedFits(x: Submission)
    requires Printable(x)
    ensures ByteLength(Print3(x)) <= MAX_BODY_BYTES
  {
    hide ByteLength, Text.Units, IsForbidden, Trimmed;
    var e := "Executor: " + ExecutorText(x.muse);
    var head := "Task:" + "\n";
    BytesConcat(head + x.task + "\n" + e + "\n", "Submitted-by: " + x.submittedBy);
    BytesConcat("Submitted-by: ", x.submittedBy);
    BytesConcat(head + x.task, "\n" + e + "\n");
    assert head + x.task + "\n" + e + "\n" == (head + x.task) + ("\n" + e + "\n");
    assert Print3(x) == (head + x.task + "\n" + e + "\n") + ("Submitted-by: " + x.submittedBy);
    BytesConcat(head, x.task);
    BytesOfAscii(head);
    BytesOfAscii("\n" + e + "\n");
    BytesOfAscii("Submitted-by: ");
    BytesOfUnits(x.submittedBy);
  }

  /** What the scan makes of a printed body: the rest after its task, in the state the task leaves. */
  lemma ScanPrinted(x: Submission)
    requires Printable(x)
    ensures ParseResult(Some(Print3(x))) ==
      match ScanAll(InTask([], None), Split(x.task) + ["Executor: " + ExecutorText(x.muse), "Submitted-by: " + x.submittedBy])
      case Ok(s) => Check(s)
      case Error(e) => Error(e)
  {
    hide Check, HeadingOf, FenceOf, Split, ByteLength;
    PrintedFits(x);
    SplitPrinted(x);
    HeadingWith("Task", Task, "Task:", "");
    var rest := Split(x.task) + ["Executor: " + ExecutorText(x.muse), "Submitted-by: " + x.submittedBy];
    assert Step(START, "Task:") == Ok(InTask([], None));
    assert (["Task:"] + rest)[0] == "Task:" && (["Task:"] + rest)[1..] == rest;
  }

  lemma TrimmedStays(s: string)
    requires Trimmed(s)
    ensures Trim(s) == s
  {
  }

  lemma TrimShortens(s: string)
    ensures |Trim(s)| <= |s|
  {
    StartShortens(s);
    EndShortens(TrimStart(s));
  }

  lemma {:induction false} StartShortens(s: string)
    ensures |TrimStart(s)| <= |s|
  {
    if s != "" { StartShortens(s[1..]); }
  }

  lemma {:induction false} EndShortens(s: string)
    ensures |TrimEnd(s)| <= |s|
  {
    if s != "" { EndShortens(s[..|s| - 1]); }
  }

  /** The two metadata lines after a closed task. */
  lemma ScanMetadata(task: seq<string>, x: Submission)
    requires Printable(x)
    ensures ScanAll(InTask(task, None), ["Executor: " + ExecutorText(x.muse), "Submitted-by: " + x.submittedBy]) ==
      Ok(Scan(map[Task := task, Executor := [ExecutorText(x.muse)], SubmittedBy := [x.submittedBy]], Some(SubmittedBy), None))
  {
    hide HeadingOf, FenceOf, Text.Units, ByteLength, IsForbidden;
    var e, w := "Executor: " + ExecutorText(x.muse), "Submitted-by: " + x.submittedBy;
    HeadingWith("Executor", Executor, e, ExecutorText(x.muse));
    HeadingWith("Submitted-by", SubmittedBy, w, x.submittedBy);
    var s := Scan(map[Task := task][Executor := [ExecutorText(x.muse)]], Some(Executor), None);
    assert Step(InTask(task, None), e) == Ok(s);
    assert map[Task := task][Executor := [ExecutorText(x.muse)]][SubmittedBy := [x.submittedBy]]
        == map[Task := task, Executor := [ExecutorText(x.muse)], SubmittedBy := [x.submittedBy]];
    var t := Scan(s.sections[SubmittedBy := [x.submittedBy]], Some(SubmittedBy), None);
    assert Step(s, w) == Ok(t);
    assert [e, w][1..] == [w] && [w][1..] == [];
    assert ScanAll(t, []) == Ok(t);
  }

  lemma CheckPrinted(x: Submission)
    requires Printable(x)
    ensures Check(Scan(map[Task := Split(x.task), Executor := [ExecutorText(x.muse)], SubmittedBy := [x.submittedBy]],
                       Some(SubmittedBy), None)) == Ok(x)
  {
    hide Split, ByteLength, Text.Units;
    JoinSplit(x.task);
    TrimmedStays(x.task);
    TrimmedStays(x.submittedBy);
    TrimmedStays(ExecutorText(x.muse));
  }

  /** A fence left open takes the metadata lines into the task. */
  lemma OpenFenceFails(task: seq<string>, fence: Fence, x: Submission)
    ensures var rest := ["Executor: " + ExecutorText(x.muse), "Submitted-by: " + x.submittedBy];
      var r := ScanAll(InTask(task, Some(fence)), rest); r.Ok? && Check(r.value) == Error(Missing)
  {
    var e, w := "Executor: " + ExecutorText(x.muse), "Submitted-by: " + x.submittedBy;
    NotAFence(e);
    NotAFence(w);
    hide FenceOf, HeadingOf, Step;
    StepInTask(task, e, Some(fence));
    StepInTask(task + [e], w, Some(fence));
    assert [e, w][1..] == [w] && [w][1..] == [];
    var last := InTask(task + [e] + [w], Some(fence));
    assert ScanAll(last, []) == Ok(last);
    assert ScanAll(InTask(task + [e], Some(fence)), [w]) == Ok(last);
  }

  // ---------------------------------------------------------------- a free heading

  /** The Task section was left at `task` and is never entered again. */
  predicate LeftTask(s: Scan, task: seq<string>) {
    s.current.Some? && s.current.value != Task && Task in s.sections && s.sections[Task] == task
  }

  lemma {:induction false} TaskIsFixed(s: Scan, task: seq<string>, lines: seq<string>)
    requires LeftTask(s, task)
    ensures ScanAll(s, lines).Ok? ==> LeftTask(ScanAll(s, lines).value, task)
    decreases |lines|
  {
    if lines != [] {
      hide FenceOf, HeadingOf;
      var r := Step(s, lines[0]);
      if r.Ok? { TaskIsFixed(r.value, task, lines[1..]); }
    }
  }

  /** From its first free heading on, nothing is added to the task. */
  lemma {:induction false} HeadingCuts(before: seq<string>, lines: seq<string>, fence: Option<Fence>, more: seq<string>) returns (i: nat)
    requires Walk(lines, fence).MeetsHeading?
    ensures i < |lines|
    ensures var r := ScanAll(InTask(before, fence), lines + more); r.Ok? ==> LeftTask(r.value, before + lines[..i])
    decreases |lines|
  {
    hide FenceOf, HeadingOf;
    assert (lines + more)[0] == lines[0] && (lines + more)[1..] == lines[1..] + more;
    StepInTask(before, lines[0], fence);
    var r := Step(InTask(before, fence), lines[0]);
    var f := FenceOf(lines[0]);
    if f.None? && fence.None? && HeadingOf(lines[0]).Some? {
      i := 0;
      assert before + lines[..0] == before;
      if r.Ok? { TaskIsFixed(r.value, before, lines[1..] + more); }
    } else {
      hide Step;
      var n := HeadingCuts(before + [lines[0]], lines[1..], if f.Some? then Toggle(fence, f.value) else fence, more);
      i := n + 1;
      assert before + [lines[0]] + lines[1..][..n] == before + lines[..i];
    }
  }

  lemma {:induction false} JoinShortens(lines: seq<string>, i: nat)
    requires 0 < i < |lines|
    ensures |Join(lines[..i])| < |Join(lines)|
    decreases i
  {
    if i > 1 {
      JoinShortens(lines[1..], i - 1);
      assert lines[..i][1..] == lines[1..][..i - 1];
    }
  }

  /**
   * Print then parse: the body built from a task within the limits parses back to exactly that
   * task, executor and submitter if and only if the task's fences all close and no section heading
   * stands outside a fence. Headings inside fences stay task text.
   */
  lemma PrintThenParse(x: Submission)
    requires Printable(x)
    ensures ParseResult(Some(Print3(x))) == Ok(x) <==> SelfContained(x.task)
  {
    hide FenceOf, HeadingOf, Step, Trimmed, ByteLength, Text.Units, Split, Check;
    ScanPrinted(x);
    var lines := Split(x.task);
    var rest := ["Executor: " + ExecutorText(x.muse), "Submitted-by: " + x.submittedBy];
    match Walk(lines, None)
    case Ends(fence) =>
      ScanTask([], lines, None, rest);
      assert [] + lines == lines;
      if fence.None? {
        ScanMetadata(lines, x);
        CheckPrinted(x);
      } else {
        OpenFenceFails(lines, fence.value, x);
      }
    case MeetsHeading =>
      var i := HeadingCuts([], lines, None, rest);
      assert [] + lines[..i] == lines[..i];
      CutTaskDiffers(x, i, ScanAll(InTask([], None), lines + rest));
  }

  lemma CutTaskDiffers(x: Submission, i: nat, r: Result<Scan>)
    requires Printable(x) && i < |Split(x.task)| && (r.Ok? ==> LeftTask(r.value, Split(x.task)[..i]))
    ensures r.Ok? ==> Check(r.value) != Ok(x)
  {
    hide Split, ByteLength, Text.Units, IsForbidden, Trim, GoodSubmitter;
    JoinSplit(x.task);
    TrimShortens(Join(Split(x.task)[..i]));
    if i > 0 { JoinShortens(Split(x.task), i); }
  }
}
