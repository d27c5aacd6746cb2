/** The text of a journal file: its lines, its records and the hash chain over them. */
module JournalText {
  import opened Wrappers

  datatype Record<+P> = Record(
    schemaVersion: int,
    sequence: int,
    kind: string,
    experimentId: string,
    runId: Option<string>,
    attemptId: Option<string>,
    epoch: Option<int>,
    payload: P,
    previousHash: string,
    recordHash: string)

  /**
   * What the journal uses of JSON and of SHA-256: the check and copy of a payload, what a payload
   * becomes when it is written and read again, the line of a record, its parser, and the digest of
   * a record without its own hash.
   */
  datatype Codec<!P> = Codec(
    persist: P -> Option<P>,
    readBack: P -> P,
    line: Record<P> -> string,
    parse: string -> Option<Record<P>>,
    digest: Record<P> -> string)

  function Body<P>(r: Record<P>): Record<P> { r.(recordHash := "") }

  function Reread<P>(c: Codec<P>, r: Record<P>): Record<P> { r.(payload := c.readBack(r.payload)) }

  function RereadAll<P>(c: Codec<P>, rs: seq<Record<P>>): (s: seq<Record<P>>)
    ensures |s| == |rs| && forall i :: 0 <= i < |rs| ==> s[i] == Reread(c, rs[i])
  {
    seq(|rs|, i requires 0 <= i < |rs| => Reread(c, rs[i]))
  }

  /**
   * Laws of JSON lines: a printed record is one line that reads back, no proper part of it and no
   * run-on of two of them reads as a record, and the digest does not see what reading changes.
   */
  ghost predicate Lawful<P(!new)>(c: Codec<P>) {
    && (forall r :: c.line(r) != "" && '\n' !in c.line(r) && c.parse(c.line(r)) == Some(Reread(c, r)))
    && (forall r, n :: 0 < n < |c.line(r)| ==> c.parse(c.line(r)[..n]).None?)
    && (forall r, s, n :: 0 < n <= |c.line(s)| ==> c.parse(c.line(r) + c.line(s)[..n]).None?)
    && (forall r :: c.digest(Body(Reread(c, r))) == c.digest(Body(r)))
    && (forall p :: c.readBack(c.readBack(p)) == c.readBack(p))
  }

  // ---------------------------------------------------------------- lines

  /** Where the first line ends: at its newline, or at the end of the text. */
  function LineEnd(t: string): (n: nat)
    ensures n <= |t| && '\n' !in t[..n] && (n < |t| ==> t[n] == '\n')
  {
    if t == "" || t[0] == '\n' then 0
    else
      var n := 1 + LineEnd(t[1..]);
      assert t[..n] == [t[0]] + t[1..][..n - 1];
      n
  }

  /** The non-empty lines of a text. */
  function Lines(t: string): seq<string>
    decreases |t|
  {
    if t == "" then []
    else
      var n := LineEnd(t);
      (if n == 0 then [] else [t[..n]]) + (if n < |t| then Lines(t[n + 1..]) else [])
  }

  predicate Terminated(t: string) { t == "" || t[|t| - 1] == '\n' }

  /** A line and its newline add themselves, unless the line is empty. */
  lemma LinesStep(l: string, rest: string)
    requires '\n' !in l
    ensures Lines(l + "\n" + rest) == (if l == "" then [] else [l]) + Lines(rest)
  {
    var t := l + "\n" + rest;
    LineEndAt(l, rest);
    assert t[..|l|] == l && t[|l| + 1..] == rest;
  }

  lemma {:induction false} LineEndAt(l: string, rest: string)
    requires '\n' !in l
    ensures LineEnd(l + "\n" + rest) == |l|
  {
    if l != "" {
      LineEndAt(l[1..], rest);
      assert (l + "\n" + rest)[1..] == l[1..] + "\n" + rest;
    }
  }

  lemma {:induction false} LinesConcat(t: string, u: string)
    requires Terminated(t)
    ensures Lines(t + u) == Lines(t) + Lines(u)
    decreases |t|
  {
    if t == "" {
      assert t + u == u;
    } else {
      var l, rest := SplitLine(t);
      LinesStep(l, rest);
      LinesStep(l, rest + u);
      RegroupLine(l, rest, u);
      LinesConcat(rest, u);
      Concat3(if l == "" then [] else [l], Lines(rest), Lines(u));
    }
  }

  lemma SplitLine(t: string) returns (l: string, rest: string)
    requires t != "" && Terminated(t)
    ensures t == l + "\n" + rest && '\n' !in l && Terminated(rest)
  {
    var n := LineEnd(t);
    assert t[..|t|] == t;
    l, rest := t[..n], t[n + 1..];
  }

  lemma RegroupLine(l: string, rest: string, u: string)
    ensures (l + "\n" + rest) + u == l + "\n" + (rest + u)
  {
  }

  lemma Concat3<T>(a: seq<T>, b: seq<T>, c: seq<T>)
    ensures a + (b + c) == a + b + c
  {
  }

  lemma {:induction false} LineEndWhole(l: string)
    requires '\n' !in l
    ensures LineEnd(l) == |l| && LineEnd(l + "\n") == |l|
  {
    if l != "" {
      LineEndWhole(l[1..]);
      assert (l + "\n")[1..] == l[1..] + "\n";
    }
  }

  lemma OneLine(l: string)
    requires l != "" && '\n' !in l
    ensures Lines(l) == [l] && Lines(l + "\n") == [l]
  {
    LineEndWhole(l);
    assert l[..|l|] == l && (l + "\n")[..|l|] == l && (l + "\n")[|l| + 1..] == "";
  }

  // ---------------------------------------------------------------- records

  function ParseAll<P>(c: Codec<P>, lines: seq<string>): (r: Option<seq<Record<P>>>)
    ensures r.Some? ==> |r.value| == |lines|
  {
    if lines == [] then Some([])
    else
      var n := |lines| - 1;
      match (ParseAll(c, lines[..n]), c.parse(lines[n]))
      case (Some(rs), Some(r)) => Some(rs + [r])
      case _ => None
  }

  lemma {:induction false} ParseAllConcat<P>(c: Codec<P>, a: seq<string>, b: seq<string>)
    ensures ParseAll(c, a + b) ==
      if ParseAll(c, a).Some? && ParseAll(c, b).Some? then Some(ParseAll(c, a).value + ParseAll(c, b).value) else None
  {
    if b == [] {
      assert a + b == a;
      assert ParseAll(c, a).Some? ==> ParseAll(c, a).value + [] == ParseAll(c, a).value;
    } else {
      var n := |b| - 1;
      assert (a + b)[..|a + b| - 1] == a + b[..n] && (a + b)[|a + b| - 1] == b[n];
      ParseAllConcat(c, a, b[..n]);
      if ParseAll(c, a).Some? && ParseAll(c, b).Some? {
        var rs, ss, r := ParseAll(c, a).value, ParseAll(c, b[..n]).value, c.parse(b[n]).value;
        assert rs + ss + [r] == rs + (ss + [r]);
      }
    }
  }

  const GENESIS := "GENESIS"

  function LastHash<P>(rs: seq<Record<P>>): string {
    if rs == [] then GENESIS else rs[|rs| - 1].recordHash
  }

  /** What `validateRecord` asks of a record that follows `rs`. */
  predicate Follows<P>(c: Codec<P>, rs: seq<Record<P>>, r: Record<P>) {
    && r.schemaVersion == 1 && r.sequence == |rs| + 1 && r.previousHash == LastHash(rs)
    && r.recordHash == c.digest(Body(r))
  }

  predicate Chain<P>(c: Codec<P>, rs: seq<Record<P>>) {
    if rs == [] then true
    else
      var n := |rs| - 1;
      Chain(c, rs[..n]) && Follows(c, rs[..n], rs[n])
  }

  lemma ChainExtends<P>(c: Codec<P>, rs: seq<Record<P>>, r: Record<P>)
    ensures Chain(c, rs + [r]) <==> Chain(c, rs) && Follows(c, rs, r)
  {
    assert (rs + [r])[..|rs|] == rs;
  }

  /** The records that `open` accepts a file with. */
  function OpenText<P>(c: Codec<P>, text: string): Option<seq<Record<P>>> {
    match ParseAll(c, Lines(text))
    case Some(rs) => if Chain(c, rs) then Some(rs) else None
    case None => None
  }

  // ---------------------------------------------------------------- epochs

  function NoteEpoch<P>(epochs: map<string, int>, r: Record<P>): map<string, int> {
    if r.runId.Some? && r.epoch.Some? then
      var run, e := r.runId.value, r.epoch.value;
      epochs[run := if run in epochs && epochs[run] > e then epochs[run] else e]
    else epochs
  }

  function Epochs<P>(rs: seq<Record<P>>): map<string, int> {
    if rs == [] then map[] else NoteEpoch(Epochs(rs[..|rs| - 1]), rs[|rs| - 1])
  }

  ghost predicate HasEpoch<P>(r: Record<P>, run: string, epoch: int) {
    r.runId == Some(run) && r.epoch == Some(epoch)
  }

  /** The noted epoch of a run is the largest of its records' epochs. */
  lemma {:induction false} EpochsAreMaxima<P>(rs: seq<Record<P>>, run: string)
    ensures forall i, e :: 0 <= i < |rs| && HasEpoch(rs[i], run, e) ==> run in Epochs(rs) && e <= Epochs(rs)[run]
    ensures run in Epochs(rs) ==> exists i :: 0 <= i < |rs| && HasEpoch(rs[i], run, Epochs(rs)[run])
  {
    if rs != [] {
      var n := |rs| - 1;
      EpochsAreMaxima(rs[..n], run);
      if run in Epochs(rs) && !HasEpoch(rs[n], run, Epochs(rs)[run]) {
        var i :| 0 <= i < n && HasEpoch(rs[..n][i], run, Epochs(rs)[run]);
        assert HasEpoch(rs[i], run, Epochs(rs)[run]);
      }
    }
  }

  // ---------------------------------------------------------------- main results on texts

  /** After a complete line, `open` accepts the file and finds one record more. */
  lemma AppendedLineReopens<P(!new)>(c: Codec<P>, text: string, rs: seq<Record<P>>, r: Record<P>)
    requires Lawful(c) && Terminated(text) && OpenText(c, text) == Some(RereadAll(c, rs)) && Follows(c, rs, r)
    ensures OpenText(c, text + c.line(r) + "\n") == Some(RereadAll(c, rs + [r]))
    ensures OpenText(c, text + c.line(r)) == Some(RereadAll(c, rs + [r]))
  {
    var l := c.line(r);
    LineAdds(c, text, l);
    assert text + l + "\n" == text + (l + "\n");
    var ss := RereadAll(c, rs);
    RereadFollows(c, rs, r);
    ChainExtends(c, ss, Reread(c, r));
    assert RereadAll(c, rs + [r]) == ss + [Reread(c, r)];
  }

  /** One more line, with or without its newline, is one more parsed record or none at all. */
  lemma LineAdds<P>(c: Codec<P>, text: string, l: string)
    requires Terminated(text) && l != "" && '\n' !in l
    ensures forall tail :: tail == l || tail == l + "\n" ==>
      ParseAll(c, Lines(text + tail)) ==
        if ParseAll(c, Lines(text)).Some? && c.parse(l).Some?
        then Some(ParseAll(c, Lines(text)).value + [c.parse(l).value]) else None
  {
    OneLine(l);
    LinesConcat(text, l);
    LinesConcat(text, l + "\n");
    ParseAllConcat(c, Lines(text), [l]);
    assert [l][..0] == [] && ParseAll(c, [l][..0]) == Some([]);
    if c.parse(l).Some? {
      assert ParseAll(c, [l]) == Some([] + [c.parse(l).value]);
      assert [] + [c.parse(l).value] == [c.parse(l).value];
    }
  }

  lemma RereadFollows<P(!new)>(c: Codec<P>, rs: seq<Record<P>>, r: Record<P>)
    requires Lawful(c) && Follows(c, rs, r)
    ensures Follows(c, RereadAll(c, rs), Reread(c, r))
  {
  }

  /** A record with its payload replaced by what it means. */
  function Meant<P, V>(mean: P -> V, r: Record<P>): Record<V> {
    Record(r.schemaVersion, r.sequence, r.kind, r.experimentId, r.runId, r.attemptId, r.epoch, mean(r.payload),
           r.previousHash, r.recordHash)
  }

  function MeantAll<P, V>(mean: P -> V, rs: seq<Record<P>>): (s: seq<Record<V>>)
    ensures |s| == |rs| && forall i :: 0 <= i < |rs| ==> s[i] == Meant(mean, rs[i])
  {
    seq(|rs|, i requires 0 <= i < |rs| => Meant(mean, rs[i]))
  }

  /** Equal digests mean equal records without their hashes, and no digest is the first placeholder. */
  ghost predicate CollisionFree<P(!new), V>(c: Codec<P>, mean: P -> V) {
    && (forall r, s :: c.digest(Body(r)) == c.digest(Body(s)) ==> Meant(mean, Body(r)) == Meant(mean, Body(s)))
    && (forall r :: c.digest(Body(r)) != GENESIS)
  }

  lemma SameDigest<P(!new), V>(c: Codec<P>, mean: P -> V, r: Record<P>, s: Record<P>)
    requires CollisionFree(c, mean) && r.recordHash == s.recordHash
    requires r.recordHash == c.digest(Body(r)) && s.recordHash == c.digest(Body(s))
    ensures Meant(mean, r) == Meant(mean, s)
  {
    var a, b := Meant(mean, Body(r)), Meant(mean, Body(s));
    assert a == b;
    assert Meant(mean, r) == a.(recordHash := r.recordHash) && Meant(mean, s) == b.(recordHash := s.recordHash);
  }

  /**
   * The last hash fixes the whole history: if equal digests mean equal records, two files that
   * `open` accepts with the same last hash hold the same records.
   */
  lemma LastHashFixesHistory<P(!new), V>(c: Codec<P>, mean: P -> V, text: string, text': string)
    requires CollisionFree(c, mean)
    requires OpenText(c, text).Some? && OpenText(c, text').Some?
    requires LastHash(OpenText(c, text).value) == LastHash(OpenText(c, text').value)
    ensures MeantAll(mean, OpenText(c, text).value) == MeantAll(mean, OpenText(c, text').value)
  {
    SameHashSameChain(c, mean, OpenText(c, text).value, OpenText(c, text').value);
  }

  lemma {:induction false} SameHashSameChain<P(!new), V>(c: Codec<P>, mean: P -> V, rs: seq<Record<P>>, ss: seq<Record<P>>)
    requires CollisionFree(c, mean)
    requires Chain(c, rs) && Chain(c, ss) && LastHash(rs) == LastHash(ss)
    ensures MeantAll(mean, rs) == MeantAll(mean, ss)
    decreases |rs|
  {
    LastHashIsDigest(c, rs);
    LastHashIsDigest(c, ss);
    if rs != [] && ss != [] {
      var m, n := |rs| - 1, |ss| - 1;
      SameDigest(c, mean, rs[m], ss[n]);
      assert Meant(mean, rs[m]).previousHash == Meant(mean, ss[n]).previousHash;
      SameHashSameChain(c, mean, rs[..m], ss[..n]);
      MeantSplit(mean, rs);
      MeantSplit(mean, ss);
    }
  }

  lemma MeantSplit<P, V>(mean: P -> V, rs: seq<Record<P>>)
    requires rs != []
    ensures MeantAll(mean, rs) == MeantAll(mean, rs[..|rs| - 1]) + [Meant(mean, rs[|rs| - 1])]
  {
  }

  lemma LastHashIsDigest<P>(c: Codec<P>, rs: seq<Record<P>>)
    requires Chain(c, rs)
    ensures rs != [] ==> LastHash(rs) == c.digest(Body(rs[|rs| - 1]))
  {
  }
}
