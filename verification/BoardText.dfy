/** The marker and the comment of a private board delivery. */
module BoardText {
  import Text

  /** The fixed identities of the profile; hexadecimal digests and a CVE name. */
  datatype Profile = Profile(campaignId: string, advisoryId: string, sourceRevision: string, sourceTree: string, evaluator: string)

  predicate ValidProfile(p: Profile) {
    'h' !in p.advisoryId && 'h' !in p.sourceRevision && 'h' !in p.sourceTree && 'h' !in p.evaluator
  }

  predicate IsHex(s: string) { forall c :: c in s ==> '0' <= c <= '9' || 'a' <= c <= 'f' }

  lemma HexMeans(s: string)
    ensures IsHex(s) <==> forall c :: c in s ==> c in "0123456789abcdef"
  {
    forall c ensures c in "0123456789abcdef" <==> '0' <= c <= '9' || 'a' <= c <= 'f' { HexDigits(c); }
  }

  lemma HexDigits(c: char)
    ensures c in "0123456789abcdef" <==> '0' <= c <= '9' || 'a' <= c <= 'f'
  {
    var digits := "0123456789abcdef";
    if '0' <= c <= '9' { assert digits[c as int - '0' as int] == c; }
    if 'a' <= c <= 'f' { assert digits[c as int - 'a' as int + 10] == c; }
  }

  predicate IsDigest(s: string) { |s| == 64 && IsHex(s) }

  predicate IsUuid(s: string) { |s| == 36 && forall c :: c in s ==> '0' <= c <= '9' || 'a' <= c <= 'f' || c == '-' }

  const MARK := "hc-repository-result-v1:"

  function Marker(key: string): string { MARK + key }

  /** The text of the comment after its marker. */
  function Tail(p: Profile, candidate: string, verification: string, job: string, claim: string, epoch: nat): string {
    "] " + p.advisoryId + ": already-fixed in " + p.sourceRevision + " (tree " + p.sourceTree + "); candidate " + candidate
    + "; protected evidence " + verification + "; evaluator " + p.evaluator + ". Job " + job + ", claim " + claim
    + ", epoch " + Text.Decimal(epoch) + ". No public PR was created."
  }

  function Comment(p: Profile, key: string, candidate: string, verification: string, job: string, claim: string, epoch: nat): string {
    "[" + Marker(key) + Tail(p, candidate, verification, job, claim, epoch)
  }

  /** `text.includes(part)`. */
  predicate Contains(text: string, part: string) {
    exists i :: 0 <= i <= |text| - |part| && At(text, part, i)
  }

  predicate At(text: string, part: string, i: nat)
    requires i + |part| <= |text|
  {
    text[i..i + |part|] == part
  }

  /** No marker starts inside the text: every 'h' is followed by something else than a 'c'. */
  predicate Quiet(s: string) {
    forall i :: 0 <= i < |s| && s[i] == 'h' ==> i + 1 < |s| && s[i + 1] != 'c'
  }

  lemma QuietConcat(a: string, b: string)
    requires Quiet(a) && Quiet(b)
    ensures Quiet(a + b)
  {
  }

  lemma NoH(s: string)
    requires 'h' !in s
    ensures Quiet(s)
  {
  }

  lemma TailIsQuiet(p: Profile, candidate: string, verification: string, job: string, claim: string, epoch: nat)
    requires ValidProfile(p) && IsHex(candidate) && IsHex(verification) && IsUuid(job) && IsUuid(claim)
    ensures Quiet(Tail(p, candidate, verification, job, claim, epoch))
  {
    var head := "] " + p.advisoryId + ": already-fixed in " + p.sourceRevision + " (tree " + p.sourceTree + "); candidate " + candidate
      + "; protected evidence " + verification + "; evaluator " + p.evaluator + ". Job " + job + ", claim " + claim;
    NoH(head);
    NoH(Text.Decimal(epoch) + ". No public PR was created.");
    QuietConcat(head, ", epoch ");
    QuietConcat(head + ", epoch ", Text.Decimal(epoch) + ". No public PR was created.");
    assert Tail(p, candidate, verification, job, claim, epoch)
        == head + ", epoch " + (Text.Decimal(epoch) + ". No public PR was created.");
  }

  /** In a comment, "hc" occurs only where its marker begins. */
  lemma OnlyOneMark(key: string, tail: string, i: nat)
    requires IsHex(key) && Quiet(tail)
    requires var t := "[" + (MARK + (key + tail)); i + 1 < |t| && t[i] == 'h' && t[i + 1] == 'c'
    ensures i == 1
  {
    var rest := key + tail;
    assert 'h' !in key;
    NoH(key);
    QuietConcat(key, tail);
    var t := "[" + (MARK + rest);
    assert forall n :: 0 <= n < |rest| ==> t[1 + |MARK| + n] == rest[n];
    assert forall n :: 1 <= n < |MARK| ==> MARK[n] != 'h' && t[1 + n] == MARK[n];
  }

  lemma FoundByOwnKey(key: string, other: string, tail: string)
    requires |key| == |other| && IsHex(key) && Quiet(tail)
    ensures Contains("[" + (MARK + (key + tail)), MARK + other) <==> key == other
  {
    var t := "[" + (MARK + (key + tail));
    assert t[1..1 + |MARK + key|] == MARK + key;
    assert At(t, MARK + key, 1);
    if Contains(t, MARK + other) {
      var i :| 0 <= i <= |t| - |MARK + other| && At(t, MARK + other, i);
      assert t[i..i + |MARK + other|][0] == 'h' && t[i..i + |MARK + other|][1] == 'c';
      OnlyOneMark(key, tail, i);
      assert (MARK + other)[|MARK|..] == other && (MARK + key)[|MARK|..] == key;
    }
  }

  /** The substring test finds a comment exactly by its own key. */
  lemma CommentHasItsMarker(p: Profile, key: string, other: string, candidate: string, verification: string,
                            job: string, claim: string, epoch: nat)
    requires ValidProfile(p) && IsDigest(key) && IsDigest(other)
    requires IsHex(candidate) && IsHex(verification) && IsUuid(job) && IsUuid(claim)
    ensures Contains(Comment(p, key, candidate, verification, job, claim, epoch), Marker(other)) <==> key == other
  {
    hide Tail, Contains;
    var tail := Tail(p, candidate, verification, job, claim, epoch);
    TailIsQuiet(p, candidate, verification, job, claim, epoch);
    FoundByOwnKey(key, other, tail);
    assert Comment(p, key, candidate, verification, job, claim, epoch) == "[" + (MARK + (key + tail));
  }
}
