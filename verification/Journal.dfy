/** `PilotJournal`: a hash-chained journal in memory over an append-only file. */
module Journal {
  import opened Wrappers
  import opened JournalText

  // ---------------------------------------------------------------- what a write can leave behind

  /** The file ends in a record whose newline is missing. */
  ghost predicate Hanging<P(!new)>(c: Codec<P>, text: string) {
    exists base, r :: Terminated(base) && text == base + c.line(r)
  }

  /** A complete line of the file is not a record: no later write can repair that. */
  ghost predicate Dead<P(!new)>(c: Codec<P>, text: string) {
    exists k :: 0 <= k <= |text| && Terminated(text[..k]) && ParseAll(c, Lines(text[..k])).None?
  }

  lemma DeadStays<P(!new)>(c: Codec<P>, text: string, more: string)
    requires Dead(c, text)
    ensures Dead(c, text + more) && OpenText(c, text + more).None?
  {
    var k :| 0 <= k <= |text| && Terminated(text[..k]) && ParseAll(c, Lines(text[..k])).None?;
    var t := text + more;
    assert t[..k] == text[..k];
    PrefixSpoils(c, t, k);
  }

  lemma PrefixSpoils<P>(c: Codec<P>, t: string, k: nat)
    requires k <= |t| && Terminated(t[..k]) && ParseAll(c, Lines(t[..k])).None?
    ensures OpenText(c, t).None?
  {
    assert t == t[..k] + t[k..];
    LinesConcat(t[..k], t[k..]);
    ParseAllConcat(c, Lines(t[..k]), Lines(t[k..]));
  }

  ghost predicate Settled<P>(c: Codec<P>, rs: seq<Record<P>>) { RereadAll(c, rs) == rs }

  /** `open` either refuses the file or finds exactly the records whose whole line was written. */
  ghost predicate Tracks<P(!new)>(c: Codec<P>, text: string, durable: seq<Record<P>>) {
    && Settled(c, durable)
    && (OpenText(c, text).None? ||
        (OpenText(c, text) == Some(durable) && (Terminated(text) || Hanging(c, text))))
  }

  /** What a process that opened the file knows about it: it can append, or nobody can open it again. */
  ghost predicate InStep<P(!new)>(c: Codec<P>, text: string, durable: seq<Record<P>>, rs: seq<Record<P>>) {
    && durable == RereadAll(c, rs)
    && Settled(c, durable)
    && (Dead(c, text) || (OpenText(c, text) == Some(durable) && (Terminated(text) || Hanging(c, text))))
  }

  /** The records whose whole line is in the file after `n` characters of a new line were written. */
  function DurableAfter<P>(c: Codec<P>, durable: seq<Record<P>>, r: Record<P>, n: nat): seq<Record<P>> {
    if n >= |c.line(r)| then durable + [Reread(c, r)] else durable
  }

  function Written<P>(c: Codec<P>, r: Record<P>, n: nat): string
    requires n <= |c.line(r)| + 1
  {
    (c.line(r) + "\n")[..n]
  }

  lemma SettledGrows<P(!new)>(c: Codec<P>, rs: seq<Record<P>>, r: Record<P>)
    requires Lawful(c) && Settled(c, RereadAll(c, rs))
    ensures RereadAll(c, rs + [r]) == RereadAll(c, rs) + [Reread(c, r)] && Settled(c, RereadAll(c, rs + [r]))
  {
    var s := RereadAll(c, rs);
    assert RereadAll(c, s + [Reread(c, r)]) == RereadAll(c, s) + [Reread(c, Reread(c, r))];
  }

  /** A write of any length leaves a file that the next `open` refuses or reads correctly. */
  lemma WriteTracks<P(!new)>(c: Codec<P>, text: string, rs: seq<Record<P>>, r: Record<P>, n: nat)
    requires Lawful(c) && Follows(c, rs, r) && n <= |c.line(r)| + 1
    requires InStep(c, text, RereadAll(c, rs), rs)
    ensures Tracks(c, text + Written(c, r, n), DurableAfter(c, RereadAll(c, rs), r, n))
    ensures n == |c.line(r)| + 1 ==> InStep(c, text + Written(c, r, n), RereadAll(c, rs + [r]), rs + [r])
    ensures n == |c.line(r)| + 1 && Terminated(text) && !Dead(c, text) ==>
      Terminated(text + Written(c, r, n)) && OpenText(c, text + Written(c, r, n)) == Some(RereadAll(c, rs + [r]))
  {
    SettledGrows(c, rs, r);
    var w := Written(c, r, n);
    if Dead(c, text) {
      DeadStays(c, text, w);
    } else if n == 0 {
      assert text + w == text;
    } else if Terminated(text) {
      WriteAfterNewline(c, text, rs, r, n);
    } else {
      WriteAfterHanging(c, text, r, n);
      if n == |c.line(r)| + 1 { DeadStays(c, text + w, ""); assert text + w + "" == text + w; }
    }
  }

  lemma WriteAfterNewline<P(!new)>(c: Codec<P>, text: string, rs: seq<Record<P>>, r: Record<P>, n: nat)
    requires Lawful(c) && Follows(c, rs, r) && 0 < n <= |c.line(r)| + 1
    requires Terminated(text) && OpenText(c, text) == Some(RereadAll(c, rs))
    ensures var t := text + Written(c, r, n);
      && (n < |c.line(r)| ==> OpenText(c, t).None?)
      && (n == |c.line(r)| ==> OpenText(c, t) == Some(RereadAll(c, rs + [r])) && Hanging(c, t))
      && (n == |c.line(r)| + 1 ==> OpenText(c, t) == Some(RereadAll(c, rs + [r])) && Terminated(t))
  {
    var l := c.line(r);
    AppendedLineReopens(c, text, rs, r);
    if n < |l| {
      assert Written(c, r, n) == l[..n];
      LineAdds(c, text, l[..n]);
    } else if n == |l| {
      assert Written(c, r, n) == l;
    } else {
      assert Written(c, r, n) == l + "\n" && text + (l + "\n") == text + l + "\n";
    }
  }

  lemma JoinedLine<P(!new)>(c: Codec<P>, r: Record<P>, s: Record<P>, m: nat)
    requires Lawful(c) && 0 < m <= |c.line(r)|
    ensures var l := c.line(s) + c.line(r)[..m]; l != "" && '\n' !in l && c.parse(l).None?
  {
    assert '\n' !in c.line(r) && '\n' !in c.line(s);
  }

  /** After a record without its newline, whatever is written next spoils that line. */
  lemma WriteAfterHanging<P(!new)>(c: Codec<P>, text: string, r: Record<P>, n: nat)
    requires Lawful(c) && 0 < n <= |c.line(r)| + 1 && Hanging(c, text)
    ensures var t := text + Written(c, r, n);
      OpenText(c, t).None? && (n == |c.line(r)| + 1 ==> Dead(c, t))
  {
    var base, s :| Terminated(base) && text == base + c.line(s);
    var m := if n <= |c.line(r)| then n else |c.line(r)|;
    JoinedLine(c, r, s, m);
    SpoiledLine(c, base, c.line(s) + c.line(r)[..m]);
    JoinedText(base, c.line(s), c.line(r), n);
  }

  lemma SpoiledLine<P(!new)>(c: Codec<P>, base: string, l: string)
    requires Terminated(base) && l != "" && '\n' !in l && c.parse(l).None?
    ensures OpenText(c, base + l).None? && OpenText(c, base + l + "\n").None? && Dead(c, base + l + "\n")
  {
    LineAdds(c, base, l);
    var t := base + (l + "\n");
    assert t == base + l + "\n" && t[..|t|] == t;
  }

  lemma JoinedText(base: string, s: string, l: string, n: nat)
    requires n <= |l| + 1
    ensures n <= |l| ==> base + s + (l + "\n")[..n] == base + (s + l[..n])
    ensures n == |l| + 1 ==> base + s + (l + "\n")[..n] == base + (s + l[..|l|]) + "\n"
  {
  }

  // ---------------------------------------------------------------- the journal

  /** The file on disk, with a ghost record of every line that was completely written to it. */
  class LogFile<P(!new)> {
    var text: string
    ghost var durable: seq<Record<P>>
    /** How many appends the stale-epoch guard has refused, over all journals that were open on this file. */
    ghost var staleRefusals: nat
    /** How many appends the disk failed: the file could not be opened, or not be written and closed. */
    ghost var faults: nat

    constructor ()
      ensures text == "" && durable == [] && staleRefusals == 0 && faults == 0
    {
      text := "";
      durable, staleRefusals, faults := [], 0, 0;
    }

    /** The file reads as `rs` and the next record starts on a line of its own. */
    ghost predicate CleanWith(c: Codec<P>, rs: seq<Record<P>>)
      reads this
    {
      Terminated(text) && OpenText(c, text) == Some(RereadAll(c, rs))
    }

    /** Writes some part of a record's line; the writer learns whether the write reported success. */
    method Write(c: Codec<P>, record: Record<P>, ghost rs: seq<Record<P>>) returns (ok: bool)
      requires Lawful(c) && InStep(c, text, durable, rs) && Follows(c, rs, record)
      modifies `text, `durable, `faults
      ensures Tracks(c, text, durable)
      ensures faults == old(faults) + if ok then 0 else 1
      ensures durable == old(durable) || durable == RereadAll(c, rs + [record])
      ensures ok ==> InStep(c, text, durable, rs + [record])
      ensures ok && old(CleanWith(c, rs)) ==> CleanWith(c, rs + [record])
    {
      var line := c.line(record) + "\n";
      var written: nat :| written <= |line|;
      DeadOrOpen(c, text);
      WriteTracks(c, text, rs, record, written);
      SettledGrows(c, rs, record);
      text := text + line[..written];
      durable := DurableAfter(c, durable, record, written);
      var reported: bool := *;
      ok := reported && written == |line|;
      if !ok { faults := faults + 1; }
    }
  }

  /** How an append ends; every result but the first is an exception in the caller. */
  datatype AppendResult<+P> =
    | Appended(record: Record<P>)
    | Refused(why: Refusal)   // nothing was written
    | OutcomeUnknown          // some part of the line may have reached the file

  datatype Refusal = Uncertain | StaleEpoch | BadPayload | NotOpened

  /** The record that `append` forms after `rs`. */
  function NextRecord<P>(c: Codec<P>, rs: seq<Record<P>>, kind: string, experimentId: string, payload: P,
                         runId: Option<string>, attemptId: Option<string>, epoch: Option<int>): (r: Record<P>)
    ensures Body(r) == Body(r.(recordHash := "")) && Follows(c, rs, r)
  {
    var body := Record(1, |rs| + 1, kind, experimentId, runId, attemptId, epoch, payload, LastHash(rs), "");
    body.(recordHash := c.digest(body))
  }

  /** `append` refuses an epoch below the latest one noted for the run. */
  predicate Stale<P>(rs: seq<Record<P>>, runId: Option<string>, epoch: Option<int>) {
    runId.Some? && epoch.Some? && runId.value in Epochs(rs) && epoch.value < Epochs(rs)[runId.value]
  }

  class PilotJournal<P(!new)> {
    const codec: Codec<P>
    const file: LogFile<P>
    var lastSequence: int
    var lastHash: string
    var records: seq<Record<P>>
    var latestEpochByRun: map<string, int>
    var appendOutcomeUncertain: bool

    ghost predicate Fields()
      reads this
    {
      && lastSequence == |records| && lastHash == LastHash(records)
      && latestEpochByRun == Epochs(records) && Chain(codec, records)
    }

    ghost predicate Valid()
      reads this, file
    {
      && Lawful(codec) && Fields()
      && Tracks(codec, file.text, file.durable)
      && (appendOutcomeUncertain || InStep(codec, file.text, file.durable, records))
    }

    /** The file ends in a newline (or is empty) and reads as the records in memory. */
    ghost predicate Clean()
      reads this, file
    {
      && !appendOutcomeUncertain && Terminated(file.text)
      && OpenText(codec, file.text) == Some(file.durable)
    }

    constructor (codec: Codec<P>, file: LogFile<P>)
      ensures this.codec == codec && this.file == file
      ensures records == [] && Fields() && !appendOutcomeUncertain
    {
      this.codec, this.file := codec, file;
      lastSequence, lastHash, records, latestEpochByRun := 0, GENESIS, [], map[];
      appendOutcomeUncertain := false;
    }

    /** Reads the file line by line and stops at the first line that does not continue the chain. */
    method Open() returns (ok: bool)
      requires Lawful(codec) && records == [] && Fields() && !appendOutcomeUncertain
      requires Tracks(codec, file.text, file.durable)
      modifies this
      ensures ok <==> OpenText(codec, file.text).Some?
      ensures ok ==> Valid() && !appendOutcomeUncertain && records == file.durable
      ensures ok && Terminated(file.text) ==> Clean()
    {
      ok := ReadLines(Lines(file.text));
    }

    method ReadLines(lines: seq<string>) returns (ok: bool)
      requires records == [] && Fields()
      modifies `lastSequence, `lastHash, `records, `latestEpochByRun
      ensures ok <==> ParseAll(codec, lines).Some? && Chain(codec, ParseAll(codec, lines).value)
      ensures ok ==> Fields() && records == ParseAll(codec, lines).value
    {
      var index := 0;
      assert lines[..0] == [];
      while index < |lines|
        invariant 0 <= index <= |lines|
        invariant Fields()
        invariant ParseAll(codec, lines[..index]) == Some(records)
      {
        var parsed := codec.parse(lines[index]);
        LinesPrefix(codec, lines, index);
        if parsed.None? {
          return false;
        }
        var record := parsed.value;
        if record.schemaVersion != 1 || record.sequence != lastSequence + 1 || record.previousHash != lastHash
           || record.recordHash != codec.digest(Body(record))
        {
          ChainBreaks(codec, lines, index, records, record);
          return false;
        }
        Remember(record);
        index := index + 1;
      }
      assert lines[..|lines|] == lines;
      ok := true;
    }

    /** Takes a record that follows the others into memory. */
    method Remember(record: Record<P>)
      requires Fields() && Follows(codec, records, record)
      modifies `lastSequence, `lastHash, `records, `latestEpochByRun
      ensures Fields() && records == old(records) + [record]
    {
      ChainExtends(codec, records, record);
      EpochsStep(records, record);
      records := records + [record];
      lastSequence := record.sequence;
      lastHash := record.recordHash;
      latestEpochByRun := NoteEpoch(latestEpochByRun, record);
    }

    /** The two checks before anything is formed. */
    method CheckAppend(runId: Option<string>, epoch: Option<int>) returns (why: Option<Refusal>)
      requires Valid()
      modifies file`staleRefusals
      ensures why == if appendOutcomeUncertain then Some(Uncertain)
                     else if Stale(records, runId, epoch) then Some(StaleEpoch) else None
      ensures file.staleRefusals == old(file.staleRefusals) + if why == Some(StaleEpoch) then 1 else 0
    {
      if appendOutcomeUncertain { return Some(Uncertain); }
      if runId.Some? && epoch.Some? {
        if runId.value in latestEpochByRun && epoch.value < latestEpochByRun[runId.value] {
          file.staleRefusals := file.staleRefusals + 1;
          return Some(StaleEpoch);
        }
      }
      why := None;
    }

    /** Opens the file, writes the line, and takes the record into memory. */
    method Commit(record: Record<P>) returns (r: AppendResult<P>)
      requires Valid() && !appendOutcomeUncertain && Follows(codec, records, record)
      modifies this, file
      ensures Valid() && (old(Clean()) && r.Appended? ==> Clean())
      ensures r == Refused(NotOpened) || r.Appended? || r.OutcomeUnknown?
      ensures file.faults == old(file.faults) + if r.Appended? then 0 else 1
      ensures file.staleRefusals == old(file.staleRefusals)
      ensures r.Refused? ==>
        && records == old(records) && file.text == old(file.text) && file.durable == old(file.durable) && !appendOutcomeUncertain
      ensures r.Appended? ==>
        && r.record == record && records == old(records) + [record] && !appendOutcomeUncertain
        && file.durable == old(file.durable) + [Reread(codec, record)]
      ensures r.OutcomeUnknown? ==>
        && records == old(records) && appendOutcomeUncertain
        && (file.durable == old(file.durable) || file.durable == old(file.durable) + [Reread(codec, record)])
    {
      if * {
        file.faults := file.faults + 1;
        return Refused(NotOpened);
      }
      var ok := file.Write(codec, record, records);
      SettledGrows(codec, records, record);
      if !ok {
        appendOutcomeUncertain := true;
        return OutcomeUnknown;
      }
      Remember(record);
      r := Appended(record);
    }

    /** Appends one record. A failed write or close may leave any part of the line in the file. */
    method Append(kind: string, experimentId: string, payload: P, runId: Option<string>,
                  attemptId: Option<string>, epoch: Option<int>) returns (r: AppendResult<P>)
      requires Valid()
      modifies this, file
      ensures Valid() && (old(Clean()) && r.Appended? ==> Clean())
      ensures r == Refused(Uncertain) <==> old(appendOutcomeUncertain)
      ensures r == Refused(StaleEpoch) <==> !old(appendOutcomeUncertain) && Stale(old(records), runId, epoch)
      ensures r == Refused(BadPayload) <==>
        !old(appendOutcomeUncertain) && !Stale(old(records), runId, epoch) && codec.persist(payload).None?
      ensures file.faults == old(file.faults) + if r == Refused(NotOpened) || r.OutcomeUnknown? then 1 else 0
      ensures file.staleRefusals == old(file.staleRefusals) + if r == Refused(StaleEpoch) then 1 else 0
      ensures r.Refused? ==>
        && records == old(records) && file.text == old(file.text) && file.durable == old(file.durable)
        && appendOutcomeUncertain == old(appendOutcomeUncertain)
      ensures !r.Refused? ==> codec.persist(payload).Some?
      ensures !r.Refused? ==>
        var next := NextRecord(codec, old(records), kind, experimentId, codec.persist(payload).value, runId, attemptId, epoch);
        if r.Appended? then
          && r.record == next && records == old(records) + [next] && !appendOutcomeUncertain
          && file.durable == old(file.durable) + [Reread(codec, next)]
        else
          && records == old(records) && appendOutcomeUncertain
          && (file.durable == old(file.durable) || file.durable == old(file.durable) + [Reread(codec, next)])
    {
      var checked := CheckAppend(runId, epoch);
      if checked.Some? { return Refused(checked.value); }
      var persisted := codec.persist(payload);
      if persisted.None? {
        return Refused(BadPayload);
      }
      var body := Record(1, lastSequence + 1, kind, experimentId, runId, attemptId, epoch, persisted.value, lastHash, "");
      var record := body.(recordHash := codec.digest(body));
      assert record == NextRecord(codec, records, kind, experimentId, persisted.value, runId, attemptId, epoch);
      hide *;
      r := Commit(record);
    }

    /** The attempts whose last record says that they started or run. */
    method ActiveAttempts() returns (active: seq<Record<P>>)
      ensures ActiveRecords(records, active)
    {
      var states, ids := LastIndices();
      active := [];
      for k := 0 to |ids|
        invariant forall r :: r in active <==> exists j :: 0 <= j < k && ActiveAt(records, r, ids[j])
        invariant forall a :: 0 <= a < |active| ==> exists j :: 0 <= j < k && Mentions(active[a], ids[j])
        invariant forall a, b :: 0 <= a < b < |active| ==> active[a].attemptId != active[b].attemptId
      {
        LastIndexIsLast(records, ids[k]);
        var record := records[states[ids[k]]];
        if record.kind in ACTIVE_KINDS {
          active := active + [record];
        }
      }
    }

    /** The index of the last record of every attempt, and the attempts in order of appearance. */
    method LastIndices() returns (states: map<string, int>, ids: seq<string>)
      ensures DistinctIds(ids) && (forall id :: id in ids <==> id in states)
      ensures forall id :: id in states <==> id != "" && LastIndex(records, id) >= 0
      ensures forall id :: id in states ==> states[id] == LastIndex(records, id)
    {
      states, ids := map[], [];
      for index := 0 to |records|
        invariant DistinctIds(ids) && (forall id :: id in ids <==> id in states)
        invariant forall id :: id in states <==> id != "" && LastIndex(records[..index], id) >= 0
        invariant forall id :: id in states ==> states[id] == LastIndex(records[..index], id)
      {
        var attemptId := records[index].attemptId;
        assert records[..index + 1][..index] == records[..index];
        if attemptId.Some? && attemptId.value != "" {
          if attemptId.value !in states { ids := ids + [attemptId.value]; }
          states := states[attemptId.value := index];
        }
      }
      assert records[..|records|] == records;
    }

    /**
     * Marks every unfinished attempt as aborted and stops at the first append that fails (`last`).
     * The process may also die between two appends, with `last` a success. `written` are the
     * records that reached the file.
     */
    method AbortActiveAttempts(experimentId: string, describe: Record<P> -> P)
      returns (ok: bool, aborted: seq<Record<P>>, last: Option<AppendResult<P>>,
               ghost active: seq<Record<P>>, ghost written: seq<Record<P>>)
      requires Valid() && !appendOutcomeUncertain
      modifies this, file
      ensures Valid() && (ok ==> !appendOutcomeUncertain && |aborted| == |active|)
      ensures !ok ==> last.Some?
      ensures ActiveRecords(old(records), active) && records == old(records) + aborted
      ensures aborted <= written && |written| <= |aborted| + 1 && (!appendOutcomeUncertain ==> written == aborted)
      ensures AbortsOf(codec, old(records), active, experimentId, describe, written)
      ensures file.durable == RereadAll(codec, old(records) + written)
      ensures last == Some(Refused(StaleEpoch)) ==>
        |aborted| < |active| && Stale(records, active[|aborted|].runId, active[|aborted|].epoch)
      ensures file.staleRefusals == old(file.staleRefusals) + if last == Some(Refused(StaleEpoch)) then 1 else 0
    {
      var todo := ActiveAttempts();
      active := todo;
      ok, aborted, last, written := AbortAll(experimentId, describe, todo);
    }

    lemma RereadInStep()
      requires Valid() && !appendOutcomeUncertain
      ensures file.durable == RereadAll(codec, records)
    {
    }

    method AbortAll(experimentId: string, describe: Record<P> -> P, todo: seq<Record<P>>)
      returns (ok: bool, aborted: seq<Record<P>>, last: Option<AppendResult<P>>, ghost written: seq<Record<P>>)
      requires Valid() && !appendOutcomeUncertain
      modifies this, file
      ensures Valid() && (ok ==> !appendOutcomeUncertain && |aborted| == |todo|)
      ensures !ok ==> last.Some?
      ensures records == old(records) + aborted
      ensures aborted <= written && |written| <= |aborted| + 1 && (!appendOutcomeUncertain ==> written == aborted)
      ensures AbortsOf(codec, old(records), todo, experimentId, describe, written)
      ensures file.durable == RereadAll(codec, old(records) + written)
      ensures last == Some(Refused(StaleEpoch)) ==>
        |aborted| < |todo| && Stale(records, todo[|aborted|].runId, todo[|aborted|].epoch)
      ensures file.staleRefusals == old(file.staleRefusals) + if last == Some(Refused(StaleEpoch)) then 1 else 0
    {
      hide Tracks, InStep, Lawful, AbortsOf, Chain, Epochs, Stale;
      RereadInStep();
      AbortsOfNone(codec, records, todo, experimentId, describe);
      aborted, written, ok, last := [], [], true, None;
      ghost var start := records;
      assert records + [] == records;
      while |aborted| < |todo|
        invariant |aborted| <= |todo| && Valid() && !appendOutcomeUncertain
        invariant records == start + aborted && written == aborted
        invariant file.durable == RereadAll(codec, start + aborted)
        invariant AbortsOf(codec, start, todo, experimentId, describe, aborted)
        invariant ok && last != Some(Refused(StaleEpoch)) && file.staleRefusals == old(file.staleRefusals)
      {
        var r;
        r, written := AbortOne(experimentId, describe, todo[|aborted|], start, todo, aborted);
        last := Some(r);
        if !r.Appended? { ok := false; return; }
        aborted := aborted + [r.record];
        if * { ok := false; return; }
      }
    }

    /** One turn of the abort loop, after the records `tail` were appended for the attempts before `attempt`. */
    method AbortOne(experimentId: string, describe: Record<P> -> P, attempt: Record<P>,
                    ghost start: seq<Record<P>>, ghost active: seq<Record<P>>, ghost tail: seq<Record<P>>)
      returns (r: AppendResult<P>, ghost written: seq<Record<P>>)
      requires Valid() && !appendOutcomeUncertain && records == start + tail
      requires AbortsOf(codec, start, active, experimentId, describe, tail)
      requires |tail| < |active| && attempt == active[|tail|]
      modifies this, file
      ensures Valid() && (appendOutcomeUncertain <==> r.OutcomeUnknown?)
      ensures tail <= written && |written| <= |tail| + 1
      ensures AbortsOf(codec, start, active, experimentId, describe, written)
      ensures file.durable == RereadAll(codec, start + written)
      ensures if r.Appended? then written == tail + [r.record] && records == start + written else records == start + tail
      ensures r.Refused? ==> written == tail
      ensures r == Refused(StaleEpoch) ==> Stale(records, attempt.runId, attempt.epoch)
      ensures file.staleRefusals == old(file.staleRefusals) + if r == Refused(StaleEpoch) then 1 else 0
    {
      RereadInStep();
      hide Tracks, InStep, Lawful, AbortsOf, RereadAll, Chain, Epochs, Fields;
      r := Append("attempt_aborted", experimentId, describe(attempt), attempt.runId, attempt.attemptId, attempt.epoch);
      written := tail;
      if !r.Refused? {
        ghost var payload := codec.persist(describe(attempt)).value;
        ghost var next := NextRecord(codec, start + tail, "attempt_aborted", experimentId, payload,
                                     attempt.runId, attempt.attemptId, attempt.epoch);
        AbortAdded(codec, start, active, experimentId, describe, tail, next);
        if r.Appended? || file.durable != old(file.durable) { written := tail + [next]; }
      }
    }
  }

  /** `tail` continues `rs` with one abort record for each of the first `|tail|` active attempts. */
  ghost predicate AbortsOf<P>(c: Codec<P>, rs: seq<Record<P>>, active: seq<Record<P>>, experimentId: string,
                              describe: Record<P> -> P, tail: seq<Record<P>>)
    decreases |tail|
  {
    if tail == [] then true
    else
      var n := |tail| - 1;
      && n < |active| && AbortsOf(c, rs, active, experimentId, describe, tail[..n])
      && AbortOf(c, rs + tail[..n], active[n], experimentId, describe, tail[n])
  }

  ghost predicate AbortOf<P>(c: Codec<P>, rs: seq<Record<P>>, active: Record<P>, experimentId: string,
                             describe: Record<P> -> P, r: Record<P>)
  {
    c.persist(describe(active)).Some? &&
    r == NextRecord(c, rs, "attempt_aborted", experimentId, c.persist(describe(active)).value,
                    active.runId, active.attemptId, active.epoch)
  }

  lemma AbortsOfNone<P>(c: Codec<P>, rs: seq<Record<P>>, active: seq<Record<P>>, experimentId: string,
                        describe: Record<P> -> P)
    ensures AbortsOf(c, rs, active, experimentId, describe, [])
  {
  }

  lemma AbortsStep<P>(c: Codec<P>, rs: seq<Record<P>>, active: seq<Record<P>>, experimentId: string,
                      describe: Record<P> -> P, tail: seq<Record<P>>, r: Record<P>)
    requires AbortsOf(c, rs, active, experimentId, describe, tail) && |tail| < |active|
    requires AbortOf(c, rs + tail, active[|tail|], experimentId, describe, r)
    ensures AbortsOf(c, rs, active, experimentId, describe, tail + [r])
  {
    assert (tail + [r])[..|tail|] == tail;
  }

  lemma AbortAdded<P>(c: Codec<P>, rs: seq<Record<P>>, active: seq<Record<P>>, experimentId: string,
                      describe: Record<P> -> P, tail: seq<Record<P>>, r: Record<P>)
    requires AbortsOf(c, rs, active, experimentId, describe, tail) && |tail| < |active|
    requires AbortOf(c, rs + tail, active[|tail|], experimentId, describe, r)
    ensures AbortsOf(c, rs, active, experimentId, describe, tail + [r])
    ensures rs + tail + [r] == rs + (tail + [r])
    ensures RereadAll(c, rs + (tail + [r])) == RereadAll(c, rs + tail) + [Reread(c, r)]
  {
    AbortsStep(c, rs, active, experimentId, describe, tail, r);
    RereadConcat(c, rs + tail, r);
    assert rs + tail + [r] == rs + (tail + [r]);
    hide AbortsOf, RereadAll;
  }

  lemma RereadConcat<P>(c: Codec<P>, rs: seq<Record<P>>, r: Record<P>)
    ensures RereadAll(c, rs + [r]) == RereadAll(c, rs) + [Reread(c, r)]
  {
  }

  const ACTIVE_KINDS := {"attempt_started", "attempt_running"}

  predicate Mentions<P>(r: Record<P>, id: string) { r.attemptId == Some(id) && id != "" }

  /** The index of the last record of attempt `id`, or -1. */
  function LastIndex<P>(rs: seq<Record<P>>, id: string): (i: int)
    ensures -1 <= i < |rs|
  {
    if rs == [] then -1
    else
      var n := |rs| - 1;
      if rs[n].attemptId == Some(id) then n else LastIndex(rs[..n], id)
  }

  lemma {:induction false} LastIndexIsLast<P>(rs: seq<Record<P>>, id: string)
    ensures var i := LastIndex(rs, id);
      && (i >= 0 ==> rs[i].attemptId == Some(id))
      && (forall j :: i < j < |rs| ==> rs[j].attemptId != Some(id))
  {
    if rs != [] && rs[|rs| - 1].attemptId != Some(id) { LastIndexIsLast(rs[..|rs| - 1], id); }
  }

  ghost predicate ActiveAt<P>(rs: seq<Record<P>>, r: Record<P>, id: string) {
    id != "" && LastIndex(rs, id) >= 0 && r == rs[LastIndex(rs, id)] && r.kind in ACTIVE_KINDS
  }

  ghost predicate DistinctIds(ids: seq<string>) {
    forall i, j :: 0 <= i < j < |ids| ==> ids[i] != ids[j]
  }

  /** `active` lists every attempt that an interrupted process left active, once. */
  ghost predicate ActiveRecords<P(!new)>(rs: seq<Record<P>>, active: seq<Record<P>>) {
    && (forall r :: r in active <==> exists id :: ActiveAt(rs, r, id))
    && (forall a, b :: 0 <= a < b < |active| ==> active[a].attemptId != active[b].attemptId)
  }

  lemma EpochsStep<P>(rs: seq<Record<P>>, r: Record<P>)
    ensures Epochs(rs + [r]) == NoteEpoch(Epochs(rs), r)
  {
    assert (rs + [r])[..|rs|] == rs;
  }

  lemma LinesPrefix<P>(c: Codec<P>, lines: seq<string>, index: nat)
    requires index < |lines| && ParseAll(c, lines[..index]).Some?
    ensures c.parse(lines[index]).Some? ==>
      ParseAll(c, lines[..index + 1]) == Some(ParseAll(c, lines[..index]).value + [c.parse(lines[index]).value])
    ensures c.parse(lines[index]).None? ==> ParseAll(c, lines).None?
  {
    assert lines[..index + 1][..index] == lines[..index];
    assert lines == lines[..index + 1] + lines[index + 1..];
    ParseAllConcat(c, lines[..index + 1], lines[index + 1..]);
  }

  /** A record that does not follow spoils every longer reading. */
  lemma ChainBreaks<P>(c: Codec<P>, lines: seq<string>, index: nat, rs: seq<Record<P>>, r: Record<P>)
    requires index < |lines| && ParseAll(c, lines[..index]) == Some(rs) && c.parse(lines[index]) == Some(r)
    requires !Follows(c, rs, r)
    ensures ParseAll(c, lines).Some? ==> !Chain(c, ParseAll(c, lines).value)
  {
    LinesPrefix(c, lines, index);
    var head, tail := lines[..index + 1], lines[index + 1..];
    assert lines == head + tail;
    ParseAllConcat(c, head, tail);
    ChainExtends(c, rs, r);
    if ParseAll(c, tail).Some? { ChainPrefix(c, rs + [r], ParseAll(c, tail).value); }
  }

  lemma {:induction false} ChainPrefix<P>(c: Codec<P>, rs: seq<Record<P>>, ss: seq<Record<P>>)
    ensures Chain(c, rs + ss) ==> Chain(c, rs)
  {
    if ss == [] {
      assert rs + ss == rs;
    } else {
      var n := |ss| - 1;
      assert rs + ss == (rs + ss[..n]) + [ss[n]];
      ChainExtends(c, rs + ss[..n], ss[n]);
      ChainPrefix(c, rs, ss[..n]);
    }
  }

  /**
   * Reopening reproduces memory: after any history that left the file clean, a fresh journal
   * accepts it and holds the same records (as JSON reads them back), sequence, hash and epochs.
   */
  method Reopen<P(!new)>(journal: PilotJournal<P>) returns (again: PilotJournal<P>, ok: bool)
    requires journal.Valid() && journal.Clean()
    ensures ok && again.Valid() && again.Clean()
    ensures again.records == RereadAll(journal.codec, journal.records)
    ensures again.lastSequence == journal.lastSequence && again.lastHash == journal.lastHash
    ensures again.latestEpochByRun == journal.latestEpochByRun
  {
    again := new PilotJournal(journal.codec, journal.file);
    DeadOrOpen(journal.codec, journal.file.text);
    ok := again.Open();
    RereadHeaders(journal.codec, journal.records);
  }

  lemma DeadOrOpen<P(!new)>(c: Codec<P>, text: string)
    ensures Dead(c, text) ==> OpenText(c, text).None?
  {
    if Dead(c, text) { DeadStays(c, text, ""); assert text + "" == text; }
  }

  lemma {:induction false} RereadHeaders<P>(c: Codec<P>, rs: seq<Record<P>>)
    ensures LastHash(RereadAll(c, rs)) == LastHash(rs) && Epochs(RereadAll(c, rs)) == Epochs(rs)
  {
    if rs != [] {
      var n := |rs| - 1;
      RereadHeaders(c, rs[..n]);
      assert RereadAll(c, rs)[..n] == RereadAll(c, rs[..n]);
    }
  }

  /**
   * A last line without its newline: `open` accepts the file, the next append succeeds in
   * memory, and from then on no process can open the file.
   */
  lemma AppendAfterHangingLine<P(!new)>(c: Codec<P>, text: string, rs: seq<Record<P>>, r: Record<P>, s: Record<P>)
    requires Lawful(c) && Terminated(text) && OpenText(c, text) == Some(RereadAll(c, rs))
    requires Follows(c, rs, r) && Follows(c, rs + [r], s)
    ensures OpenText(c, text + c.line(r)) == Some(RereadAll(c, rs + [r]))
    ensures OpenText(c, text + c.line(r) + c.line(s) + "\n").None?
  {
    AppendedLineReopens(c, text, rs, r);
    var n := |c.line(s)| + 1;
    assert Written(c, s, n) == c.line(s) + "\n";
    WriteAfterHanging(c, text + c.line(r), s, n);
    assert text + c.line(r) + c.line(s) + "\n" == text + c.line(r) + (c.line(s) + "\n");
  }
}
