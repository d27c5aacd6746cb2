/** Installing and removing the supervisor's managed lines in a crontab. */
module Crontab {
  const MARKER := "# headlesscode " + "campaign-control " + "supervisor " + "(managed)"

  // ---------------------------------------------------------------- lines

  /** The line boundaries of Python's `str.splitlines`; "\r\n" counts as one. */
  predicate IsBoundary(c: char) {
    c in {'\n', '\r', '\U{0b}', '\U{0c}', '\U{1c}', '\U{1d}', '\U{1e}', '\U{85}', '\U{2028}', '\U{2029}'}
  }

  predicate Single(line: string) { forall c :: c in line ==> !IsBoundary(c) }

  /** The first line without its boundary: its length. */
  function Content(t: string): (n: nat)
    ensures n <= |t| && Single(t[..n]) && (n < |t| ==> IsBoundary(t[n]))
  {
    if t == "" || IsBoundary(t[0]) then 0
    else
      var n := 1 + Content(t[1..]);
      assert t[..n] == [t[0]] + t[1..][..n - 1];
      n
  }

  /** The length of the boundary at the end of the first line. */
  function Boundary(t: string): nat {
    var n := Content(t);
    if n == |t| then 0 else if t[n] == '\r' && n + 1 < |t| && t[n + 1] == '\n' then 2 else 1
  }

  /** `splitlines(keepends=True)` */
  function Kept(t: string): (lines: seq<string>)
    decreases |t|
  {
    if t == "" then []
    else
      var n := Content(t) + Boundary(t);
      [t[..n]] + Kept(t[n..])
  }

  /** `splitlines()` */
  function Plain(t: string): (lines: seq<string>)
    decreases |t|
  {
    if t == "" then [] else [t[..Content(t)]] + Plain(t[Content(t) + Boundary(t)..])
  }

  /** `"".join(lines)` */
  function Join(lines: seq<string>): string { if lines == [] then "" else lines[0] + Join(lines[1..]) }

  /** The first line, its boundary and the rest. */
  lemma LineStep(t: string) returns (content: nat, n: nat)
    requires t != ""
    ensures content == Content(t) && n == content + Boundary(t) && 0 < n <= |t| && content <= n
    ensures Kept(t) == [t[..n]] + Kept(t[n..]) && Plain(t) == [t[..content]] + Plain(t[n..])
  {
    content, n := Content(t), Content(t) + Boundary(t);
  }

  lemma Slices(t: string, u: string, content: nat, n: nat)
    requires content <= n <= |t|
    ensures t[..n] + t[n..] == t && t[..content] <= t[..n]
    ensures (t + u)[n..] == t[n..] + u && (t + u)[..n] == t[..n] && (t + u)[..content] == t[..content]
  {
  }

  lemma {:induction false} KeptPlain(t: string)
    ensures |Kept(t)| == |Plain(t)| && Join(Kept(t)) == t
    ensures forall i :: 0 <= i < |Plain(t)| ==> Plain(t)[i] <= Kept(t)[i] && Single(Plain(t)[i])
    decreases |t|
  {
    if t != "" {
      hide Kept, Plain, Single, Boundary;
      var content, n := LineStep(t);
      Slices(t, "", content, n);
      KeptPlain(t[n..]);
      assert Kept(t)[1..] == Kept(t[n..]);
    }
  }

  /** A text whose last line is complete: what follows it starts a new line. */
  predicate Terminated(t: string) { t == "" || t[|t| - 1] == '\n' }

  lemma {:induction false} LinesConcat(t: string, u: string)
    requires Terminated(t)
    ensures Kept(t + u) == Kept(t) + Kept(u) && Plain(t + u) == Plain(t) + Plain(u)
    decreases |t|
  {
    hide Kept, Plain, Terminated, Boundary, Single;
    if t == "" {
      assert t + u == u;
      NoLines();
    } else {
      FirstLineConcat(t, u);
      var content, n := LineStep(t);
      var content', n' := LineStep(t + u);
      Slices(t, u, content, n);
      LinesConcat(t[n..], u);
      Regroup(t[..n], Kept(t[n..]), Kept(u));
      Regroup(t[..content], Plain(t[n..]), Plain(u));
    }
  }

  lemma NoLines()
    ensures Kept("") == [] && Plain("") == []
  {
  }

  lemma Regroup(l: string, a: seq<string>, b: seq<string>)
    ensures [l] + (a + b) == [l] + a + b
  {
  }

  lemma FirstLineConcat(t: string, u: string)
    requires Terminated(t) && t != ""
    ensures Content(t) < |t| && Content(t + u) == Content(t) && Boundary(t + u) == Boundary(t)
    ensures Terminated(t[Content(t) + Boundary(t)..])
  {
    ContentConcat(t, u);
  }

  lemma {:induction false} ContentConcat(t: string, u: string)
    requires Terminated(t) && t != ""
    ensures Content(t) < |t| && Content(t + u) == Content(t)
    decreases |t|
  {
    if !IsBoundary(t[0]) {
      ContentConcat(t[1..], u);
      assert (t + u)[1..] == t[1..] + u;
    }
  }

  lemma {:induction false} ContentWhole(line: string)
    requires Single(line)
    ensures Content(line + "\n") == |line|
  {
    if line != "" {
      assert line[0] in line;
      ContentWhole(line[1..]);
      assert (line + "\n")[1..] == line[1..] + "\n";
    }
  }

  lemma OneLine(line: string)
    requires Single(line)
    ensures Kept(line + "\n") == [line + "\n"] && Plain(line + "\n") == [line]
  {
    ContentWhole(line);
    var t := line + "\n";
    assert t[..|line| + 1] == t && t[..|line|] == line && t[|line| + 1..] == "";
  }

  // ---------------------------------------------------------------- install and remove

  datatype Result = Ok(text: string) | DuplicateMarker | DifferentContent | EntryWithoutMarker | Edited

  function Count(lines: seq<string>, line: string): nat {
    if lines == [] then 0 else Count(lines[1..], line) + if lines[0] == line then 1 else 0
  }

  function Index(lines: seq<string>, line: string): (i: nat)
    requires line in lines
    ensures i < |lines| && lines[i] == line && line !in lines[..i]
  {
    if lines[0] == line then 0
    else
      var i := 1 + Index(lines[1..], line);
      assert lines[..i] == [lines[0]] + lines[1..][..i - 1];
      i
  }

  function EndLine(t: string): string { if t != "" && t[|t| - 1] != '\n' then t + "\n" else t }

  /** `managed_crontab` */
  function Install(existing: string, entry: string): Result {
    var lines := Plain(existing);
    if MARKER in lines then
      if Count(lines, MARKER) != 1 then DuplicateMarker
      else
        var i := Index(lines, MARKER);
        if i + 1 < |lines| && lines[i + 1] == entry && Count(lines, entry) == 1 then Ok(EndLine(existing)) else DifferentContent
    else if entry in lines then EntryWithoutMarker
    else Ok(EndLine(existing) + MARKER + "\n" + entry + "\n")
  }

  /** `remove_managed_crontab` */
  function Remove(existing: string, entry: string): Result {
    var lines, plain := Kept(existing), Plain(existing);
    if MARKER !in plain then if entry in plain then EntryWithoutMarker else Ok(existing)
    else if Count(plain, MARKER) != 1 then DuplicateMarker
    else
      var i := Index(plain, MARKER);
      if i + 1 >= |plain| || plain[i + 1] != entry then Edited
      else
        KeptPlain(existing);
        Ok(Join(lines[..i] + lines[i + 2..]))
  }

  // ---------------------------------------------------------------- main results

  /** A text with neither the marker nor the entry line. */
  predicate Unmanaged(existing: string, entry: string) { MARKER !in Plain(existing) && entry !in Plain(existing) }

  /** An entry is one line of text, and not the marker. */
  predicate ValidEntry(entry: string) { entry != "" && Single(entry) && entry != MARKER }

  lemma SingleConcat(a: string, b: string)
    requires Single(a) && Single(b)
    ensures Single(a + b)
  {
  }

  lemma MarkerIsSingle()
    ensures Single(MARKER) && MARKER != ""
  {
    assert Single("# headlesscode ") && Single("campaign-control ") && Single("supervisor ") && Single("(managed)");
    hide Single;
    SingleConcat("# headlesscode ", "campaign-control ");
    SingleConcat("# headlesscode " + "campaign-control ", "supervisor ");
    SingleConcat("# headlesscode " + "campaign-control " + "supervisor ", "(managed)");
  }

  /** Completing the last line adds no line but perhaps an empty one. */
  lemma {:induction false} EndLineKeepsLines(t: string)
    ensures Plain(EndLine(t)) == Plain(t) || Plain(EndLine(t)) == Plain(t) + [""]
    decreases |t|
  {
    hide Plain, Kept, Content, Boundary, Single;
    if t != "" && t[|t| - 1] != '\n' {
      var content, n := LineStep(t);
      if n == |t| {
        LastLine(t);
      } else {
        EndLineKeepsLines(t[n..]);
        InnerLine(t, content, n);
        var content', n' := LineStep(t + "\n");
        Slices(t, "\n", content, n);
        Regroup(t[..content], Plain(t[n..]), [""]);
      }
    }
  }

  lemma InnerLine(t: string, content: nat, n: nat)
    requires t != "" && t[|t| - 1] != '\n' && content == Content(t) && n == content + Boundary(t) < |t|
    ensures Content(t + "\n") == content && Boundary(t + "\n") == Boundary(t) && EndLine(t[n..]) == t[n..] + "\n"
  {
    ContentGrows(t, "\n");
  }

  lemma {:induction false} ContentGrows(t: string, u: string)
    requires Content(t) < |t|
    ensures Content(t + u) == Content(t)
  {
    if !IsBoundary(t[0]) {
      ContentGrows(t[1..], u);
      assert (t + u)[1..] == t[1..] + u;
    }
  }

  lemma LastBoundary(t: string)
    requires t != "" && t[|t| - 1] != '\n' && Content(t) < |t| && Content(t) + Boundary(t) == |t|
    ensures |t| == Content(t) + 1 && Content(t + "\n") == Content(t)
    ensures Boundary(t + "\n") == if t[Content(t)] == '\r' then 2 else 1
  {
    ContentGrows(t, "\n");
  }

  lemma AppendSlices(t: string, k: nat)
    requires k <= |t|
    ensures (t + "\n")[..k] == t[..k] && (t + "\n")[|t|..] == "" + "\n" && (t + "\n")[|t| + 1..] == "" && t[|t|..] == ""
  {
  }

  lemma LastLine(t: string)
    requires t != "" && t[|t| - 1] != '\n' && Content(t) + Boundary(t) == |t|
    ensures Plain(t + "\n") == Plain(t) || Plain(t + "\n") == Plain(t) + [""]
  {
    hide Plain, Kept, Content, Boundary, Single, EndLine;
    if Content(t) < |t| { LastBoundary(t); }
    var content, n := LineStep(t);
    AppendSlices(t, content);
    NoLines();
    if content == |t| {
      assert t[..content] == t;
      WholeLine(t, content);
      OneLine(t);
    } else {
      var content', n' := LineStep(t + "\n");
      OneLine("");
    }
  }

  lemma WholeLine(t: string, content: nat)
    requires content == Content(t) == |t|
    ensures Single(t)
  {
    assert t[..content] == t;
  }

  lemma {:induction false} CountConcat(a: seq<string>, b: seq<string>, line: string)
    ensures Count(a + b, line) == Count(a, line) + Count(b, line)
    ensures line !in a ==> Count(a, line) == 0
  {
    if a == [] {
      assert a + b == b;
    } else {
      CountConcat(a[1..], b, line);
      assert (a + b)[1..] == a[1..] + b;
    }
  }

  lemma {:induction false} IndexAt(a: seq<string>, b: seq<string>, line: string)
    requires line !in a && b != [] && b[0] == line
    ensures line in a + b && Index(a + b, line) == |a|
  {
    if a == [] {
      assert a + b == b;
    } else {
      IndexAt(a[1..], b, line);
      assert (a + b)[1..] == a[1..] + b;
    }
  }

  lemma {:induction false} JoinConcat(a: seq<string>, b: seq<string>)
    ensures Join(a + b) == Join(a) + Join(b)
  {
    if a == [] {
      assert a + b == b;
    } else {
      JoinConcat(a[1..], b);
      assert (a + b)[1..] == a[1..] + b;
    }
  }

  /** The lines of an installed crontab: those of the old text, then the marker and the entry. */
  lemma Installed(existing: string, entry: string)
    requires Unmanaged(existing, entry) && ValidEntry(entry)
    ensures var y := EndLine(existing) + MARKER + "\n" + entry + "\n"; var base := EndLine(existing);
      && Install(existing, entry) == Ok(y) && Terminated(y)
      && Plain(y) == Plain(base) + [MARKER, entry] && Kept(y) == Kept(base) + [MARKER + "\n", entry + "\n"]
      && MARKER !in Plain(base) && entry !in Plain(base)
  {
    MarkerIsSingle();
    var base := EndLine(existing);
    EndLineKeepsLines(existing);
    hide Kept, Plain, EndLine, MARKER;
    OneLine(MARKER);
    OneLine(entry);
    LinesConcat(MARKER + "\n", entry + "\n");
    EndsLine(existing);
    LinesConcat(base, (MARKER + "\n") + (entry + "\n"));
    assert base + MARKER + "\n" + entry + "\n" == base + ((MARKER + "\n") + (entry + "\n"));
    assert [MARKER] + [entry] == [MARKER, entry] && [MARKER + "\n"] + [entry + "\n"] == [MARKER + "\n", entry + "\n"];
  }

  lemma EndsLine(t: string)
    ensures Terminated(EndLine(t))
  {
  }

  lemma InstalledPosition(base: seq<string>, entry: string)
    requires MARKER !in base && entry !in base && entry != MARKER
    ensures var lines := base + [MARKER, entry];
      && MARKER in lines && Count(lines, MARKER) == 1 && Count(lines, entry) == 1
      && Index(lines, MARKER) == |base| && lines[|base| + 1] == entry
  {
    hide MARKER;
    CountConcat(base, [MARKER, entry], MARKER);
    CountConcat(base, [MARKER, entry], entry);
    assert [MARKER, entry][1..] == [entry] && [entry][1..] == [];
    assert forall line :: Count([entry], line) == if entry == line then 1 else 0;
    IndexAt(base, [MARKER, entry], MARKER);
    assert (base + [MARKER, entry])[|base|] == MARKER;
  }

  /** Install, then remove: the old text, with at most its missing final newline added. */
  lemma InstallThenRemove(existing: string, entry: string)
    requires Unmanaged(existing, entry) && ValidEntry(entry)
    ensures Install(existing, entry).Ok? && Remove(Install(existing, entry).text, entry) == Ok(EndLine(existing))
  {
    Installed(existing, entry);
    var base := EndLine(existing);
    InstalledPosition(Plain(base), entry);
    KeptPlain(base);
    hide Kept, Plain, EndLine, MARKER, Install;
    var lines := Kept(base) + [MARKER + "\n", entry + "\n"];
    assert lines[..|Kept(base)|] + lines[|Kept(base)| + 2..] == Kept(base);
  }

  /** Installing twice is installing once. */
  lemma InstallTwice(existing: string, entry: string)
    requires Unmanaged(existing, entry) && ValidEntry(entry)
    ensures Install(existing, entry).Ok? && Install(Install(existing, entry).text, entry) == Install(existing, entry)
  {
    Installed(existing, entry);
    InstalledPosition(Plain(EndLine(existing)), entry);
  }

  /** A successful remove takes out the marker and the entry line after it and keeps all other text as it is. */
  lemma RemoveKeepsTheRest(existing: string, entry: string)
    requires Remove(existing, entry).Ok?
    ensures MARKER !in Plain(existing) ==> Remove(existing, entry).text == existing
    ensures MARKER in Plain(existing) ==>
      var i := Index(Plain(existing), MARKER); var lines := Kept(existing);
      && i + 1 < |lines| == |Plain(existing)| && Plain(existing)[i] == MARKER && Plain(existing)[i + 1] == entry
      && existing == Join(lines[..i]) + lines[i] + lines[i + 1] + Join(lines[i + 2..])
      && Remove(existing, entry).text == Join(lines[..i]) + Join(lines[i + 2..])
  {
    KeptPlain(existing);
    hide Kept, Plain, MARKER;
    if MARKER in Plain(existing) {
      var i := Index(Plain(existing), MARKER);
      var lines := Kept(existing);
      JoinConcat(lines[..i], lines[i + 2..]);
      JoinConcat(lines[..i], lines[i..]);
      assert lines[..i] + lines[i..] == lines && lines[i..][1..] == lines[i + 1..] && lines[i + 1..][1..] == lines[i + 2..];
      Regroup4(Join(lines[..i]), lines[i], lines[i + 1], Join(lines[i + 2..]));
    }
  }

  lemma Regroup4(a: string, b: string, c: string, d: string)
    ensures a + (b + (c + d)) == a + b + c + d
  {
  }

  // ---------------------------------------------------------------- when they refuse

  /** The ten boundary characters by their code points. */
  lemma BoundaryCodes(c: char)
    ensures IsBoundary(c) <==>
      10 <= c as int <= 13 || 28 <= c as int <= 30 || c as int == 133 || c as int == 8232 || c as int == 8233
  {
  }

  ghost predicate Twice(lines: seq<string>, line: string) {
    exists i, j :: 0 <= i < j < |lines| && lines[i] == line && lines[j] == line
  }

  lemma {:induction false} CountMeans(lines: seq<string>, line: string)
    ensures Count(lines, line) == 0 <==> line !in lines
    ensures Count(lines, line) >= 2 <==> Twice(lines, line)
  {
    if lines != [] {
      var rest := lines[1..];
      CountMeans(rest, line);
      assert lines == [lines[0]] + rest;
      if Twice(rest, line) {
        var i, j :| 0 <= i < j < |rest| && rest[i] == line && rest[j] == line;
        assert lines[i + 1] == line && lines[j + 1] == line;
      }
      if lines[0] == line && line in rest {
        var j :| 0 <= j < |rest| && rest[j] == line;
        assert lines[j + 1] == line;
      }
      if Twice(lines, line) {
        var i, j :| 0 <= i < j < |lines| && lines[i] == line && lines[j] == line;
        assert rest[j - 1] == line && (i > 0 ==> rest[i - 1] == line);
      }
    }
  }

  /** The marker stands on line `i` and the entry on the next. */
  ghost predicate ManagedAt(lines: seq<string>, entry: string, i: int) {
    0 <= i < |lines| - 1 && lines[i] == MARKER && lines[i + 1] == entry
  }

  /** When the installation refuses, and with what; an installed pair of lines is left as it is. */
  lemma InstallDecides(existing: string, entry: string)
    ensures var lines, r := Plain(existing), Install(existing, entry);
      && (r.DuplicateMarker? <==> Twice(lines, MARKER))
      && (r.EntryWithoutMarker? <==> MARKER !in lines && entry in lines)
      && (r.Ok? && MARKER in lines <==>
            !Twice(lines, MARKER) && !Twice(lines, entry) && exists i :: ManagedAt(lines, entry, i))
      && (r.Ok? && MARKER !in lines <==> MARKER !in lines && entry !in lines)
      && (r.Ok? && MARKER in lines ==> r.text == EndLine(existing)) && !r.Edited?
  {
    var lines := Plain(existing);
    CountMeans(lines, MARKER);
    CountMeans(lines, entry);
    PairIsFirst(lines, entry);
    hide Plain, Count, Index, MARKER, EndLine, Twice;
  }

  /** When the removal refuses, and with what. */
  lemma RemoveDecides(existing: string, entry: string)
    ensures var lines, r := Plain(existing), Remove(existing, entry);
      && (r.DuplicateMarker? <==> Twice(lines, MARKER))
      && (r.EntryWithoutMarker? <==> MARKER !in lines && entry in lines)
      && (r.Ok? && MARKER in lines <==> !Twice(lines, MARKER) && exists i :: ManagedAt(lines, entry, i))
      && (r.Ok? && MARKER !in lines <==> MARKER !in lines && entry !in lines) && !r.DifferentContent?
  {
    var lines := Plain(existing);
    KeptPlain(existing);
    CountMeans(lines, MARKER);
    PairIsFirst(lines, entry);
    hide Kept, Plain, Count, Index, MARKER, Join, Twice;
  }

  /** With one marker, a managed pair can only be at its index. */
  lemma PairIsFirst(lines: seq<string>, entry: string)
    ensures MARKER in lines && !Twice(lines, MARKER) ==>
      var i := Index(lines, MARKER); ManagedAt(lines, entry, i) <==> exists k :: ManagedAt(lines, entry, k)
  {
    hide MARKER;
  }
}
