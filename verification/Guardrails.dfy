/** The restricted simulator and the counters that a run keeps over its turns. */
module Guardrails {
  import opened Wrappers

  datatype Revision = Unspecified | Number(n: int) | OtherValue

  /** An operation; `args` is the JSON text of its arguments, the other fields what is read of them. */
  datatype Operation = Operation(
    name: string, args: string, path: Option<string>, content: Option<string>, expectedRevision: Revision, command: Option<string>)

  const FORBIDDEN_NAMES := ["new_task", "register_tool", "network_request", "evaluator", "dynamic_import", "shell"]

  function Segments(path: string): (r: seq<string>)
    ensures r != []
  {
    if path == "" then [""]
    else
      var rest := Segments(path[1..]);
      if path[0] == '/' then [""] + rest else [[path[0]] + rest[0]] + rest[1..]
  }

  predicate Traverses(path: string) { (path != "" && path[0] == '/') || ".." in Segments(path) }

  function Joined(segments: seq<string>): string {
    if segments == [] then "" else if |segments| == 1 then segments[0] else segments[0] + "/" + Joined(segments[1..])
  }

  /** The segments are the path split at its slashes: none has one, and joined by slashes they are the path. */
  lemma {:induction false} SegmentsJoin(path: string)
    ensures Joined(Segments(path)) == path && forall s :: s in Segments(path) ==> '/' !in s
  {
    if path != "" {
      var rest := Segments(path[1..]);
      SegmentsJoin(path[1..]);
      assert path == [path[0]] + path[1..];
      if path[0] == '/' {
        assert ([""] + rest)[1..] == rest;
      } else {
        var all := [[path[0]] + rest[0]] + rest[1..];
        assert all[1..] == rest[1..];
        assert rest[0] in rest && forall s :: s in rest[1..] ==> s in rest;
      }
    }
  }

  /** Where segments lead from a directory, as a file system would follow them. */
  function Resolve(directory: seq<string>, segments: seq<string>): seq<string>
    decreases |segments|
  {
    if segments == [] then directory
    else
      var s := segments[0];
      var next := if s == "" || s == "." then directory
                  else if s != ".." then directory + [s]
                  else if directory == [] then [] else directory[..|directory| - 1];
      Resolve(next, segments[1..])
  }

  function ResolvePath(directory: seq<string>, path: string): seq<string> {
    Resolve(if path != "" && path[0] == '/' then [] else directory, Segments(path))
  }

  lemma {:induction false} ResolvesBelow(root: seq<string>, directory: seq<string>, segments: seq<string>)
    requires ".." !in segments && root <= directory
    ensures root <= Resolve(directory, segments)
    decreases |segments|
  {
    if segments != [] {
      var s := segments[0];
      ResolvesBelow(root, if s == "" || s == "." then directory else directory + [s], segments[1..]);
    }
  }

  /** A path that passes the check leads nowhere but below the directory that it starts from. */
  lemma PassedStaysBelow(path: string, root: seq<string>)
    requires !Traverses(path)
    ensures root <= ResolvePath(root, path)
  {
    ResolvesBelow(root, root, Segments(path));
  }

  datatype Verdict =
    | Traversal | Listed(paths: set<string>) | Read(content: string) | Missing | BadDiff | Mismatch | Applied | BadCommand | Validated(ok: bool, milestone: int)
    | Completed | ForbiddenOperation | Unknown

  type Validator = map<string, string> -> (bool, int)

  /** Which branch of `execute` an operation takes. */
  function Judge(op: Operation, files: map<string, string>, revisions: map<string, int>, validator: Validator): Verdict {
    if op.path.Some? && Traverses(op.path.value) then Traversal
    else if op.name == "list_files" then Listed(files.Keys)
    else if op.name == "read_file" then if op.path.None? || op.path.value !in files then Missing else Read(files[op.path.value])
    else if op.name == "apply_diff" then
      if op.path.None? || op.content.None? then BadDiff
      else if op.path.value !in files then Missing
      else if op.expectedRevision.Unspecified? || (op.path.value in revisions && op.expectedRevision == Number(revisions[op.path.value]))
      then Applied
      else Mismatch
    else if op.name == "execute_command" then
      if op.command != Some("validate") then BadCommand else Validated(validator(files).0, validator(files).1)
    else if op.name == "attempt_completion" then Completed
    else if op.name in FORBIDDEN_NAMES then ForbiddenOperation
    else Unknown
  }

  predicate IsError(v: Verdict) {
    !(v.Listed? || v.Read? || v.Applied? || v.Completed?) && !(v.Validated? && v.ok)
  }

  /** The execution reports that a forbidden effect was attempted. */
  predicate IsFlagged(v: Verdict) { v.Traversal? || v.BadCommand? || v.ForbiddenOperation? || v.Unknown? }

  /** What an operation that attempts a forbidden effect looks like, whatever the files hold. */
  predicate Attempts(op: Operation) {
    || (op.path.Some? && Traverses(op.path.value))
    || (op.name == "execute_command" && op.command != Some("validate"))
    || op.name in FORBIDDEN_NAMES
  }

  /** What is recorded of an operation, if anything. */
  function RecordOf(op: Operation, v: Verdict): (r: seq<string>)
    ensures |r| == if IsFlagged(v) && !v.Unknown? then 1 else 0
  {
    match v
    case Traversal => ["path-traversal"]
    case BadCommand => ["forbidden-command"]
    case ForbiddenOperation => ["forbidden-operation:" + op.name]
    case _ => []
  }

  const KNOWN_NAMES := ["list_files", "read_file", "apply_diff", "execute_command", "attempt_completion"]

  /** An operation that the simulator has never heard of. */
  predicate Unheard(op: Operation) { !Attempts(op) && op.name !in KNOWN_NAMES }

  /** The report is about the operation alone: a forbidden effect, or an unknown operation. */
  lemma FlaggedMeans(op: Operation, files: map<string, string>, revisions: map<string, int>, validator: Validator)
    ensures var v := Judge(op, files, revisions, validator);
      (v.Unknown? <==> Unheard(op)) && (IsFlagged(v) <==> Attempts(op) || Unheard(op))
  {
    hide Traverses;
    assert "execute_command" !in FORBIDDEN_NAMES && forall name :: name in KNOWN_NAMES ==> name !in FORBIDDEN_NAMES;
  }

  // ---------------------------------------------------------------- the virtual files

  /** The virtual files and their revisions. */
  datatype Disk = Disk(files: map<string, string>, revisions: map<string, int>) {
    ghost predicate Ok() { files.Keys == revisions.Keys }
  }

  function VerdictOn(d: Disk, op: Operation, validator: Validator): Verdict { Judge(op, d.files, d.revisions, validator) }

  /** Only an applied diff changes anything: it writes the content and counts the revision. */
  ghost function After(d: Disk, op: Operation, validator: Validator): (e: Disk)
    requires d.Ok()
    ensures e.Ok() && e.files.Keys == d.files.Keys
  {
    if VerdictOn(d, op, validator).Applied? then
      var path := op.path.value;
      var e := Disk(d.files[path := op.content.value], d.revisions[path := d.revisions[path] + 1]);
      assert e.files.Keys == d.files.Keys && e.revisions.Keys == d.revisions.Keys;
      e
    else d
  }

  /** The files after the first `n` operations. */
  ghost function Replay(d: Disk, operations: seq<Operation>, n: nat, validator: Validator): (e: Disk)
    requires d.Ok() && n <= |operations|
    ensures e.Ok() && e.files.Keys == d.files.Keys
  {
    if n == 0 then d else After(Replay(d, operations, n - 1, validator), operations[n - 1], validator)
  }

  /** A diff that is applied to `path`. */
  ghost predicate Writes(e: Disk, op: Operation, path: string) {
    && op.name == "apply_diff" && op.path == Some(path) && !Traverses(path) && op.content.Some?
    && path in e.files && path in e.revisions
    && (op.expectedRevision.Unspecified? || op.expectedRevision == Number(e.revisions[path]))
  }

  lemma WritesExactly(e: Disk, op: Operation, validator: Validator, path: string)
    requires e.Ok() && path in e.files
    ensures var f := After(e, op, validator);
      && f.files[path] == (if Writes(e, op, path) then op.content.value else e.files[path])
      && f.revisions[path] == e.revisions[path] + if Writes(e, op, path) then 1 else 0
  {
    hide Traverses;
    assert op.name == "apply_diff" ==> op.name[0] == 'a' && "list_files"[0] == 'l' && "read_file"[0] == 'r';
  }

  /** Operation `i` of a run is applied to `path`. */
  ghost predicate WritesAt(d: Disk, operations: seq<Operation>, validator: Validator, i: nat, path: string)
    requires d.Ok() && i < |operations|
  {
    Writes(Replay(d, operations, i, validator), operations[i], path)
  }

  lemma ReplayStep(d: Disk, operations: seq<Operation>, validator: Validator, i: nat, path: string)
    requires d.Ok() && i < |operations| && path in d.files
    ensures var e, f := Replay(d, operations, i, validator), Replay(d, operations, i + 1, validator);
      && path in e.files && path in f.files
      && (WritesAt(d, operations, validator, i, path) ==>
            operations[i].content.Some? && f.files[path] == operations[i].content.value)
      && (!WritesAt(d, operations, validator, i, path) ==> f.files[path] == e.files[path])
  {
    WritesExactly(Replay(d, operations, i, validator), operations[i], validator, path);
    hide After, Traverses;
  }

  /** The last of the first `n` operations that is applied to `path`. */
  ghost function LastWrite(d: Disk, operations: seq<Operation>, validator: Validator, n: nat, path: string): (last: Option<nat>)
    requires d.Ok() && n <= |operations|
    ensures last.Some? ==> last.value < n && WritesAt(d, operations, validator, last.value, path)
    ensures forall j :: (if last.Some? then last.value + 1 else 0) <= j < n ==> !WritesAt(d, operations, validator, j, path)
  {
    if n == 0 then None
    else if WritesAt(d, operations, validator, n - 1, path) then Some(n - 1)
    else LastWrite(d, operations, validator, n - 1, path)
  }

  /** What `path` holds after `n` operations: the content of the last diff applied to it, or what it held at first. */
  ghost function Held(d: Disk, operations: seq<Operation>, validator: Validator, n: nat, path: string): Option<string>
    requires d.Ok() && n <= |operations| && path in d.files
  {
    var last := LastWrite(d, operations, validator, n, path);
    if last.Some? then operations[last.value].content else Some(d.files[path])
  }

  lemma {:induction false} HoldsLastWrite(d: Disk, operations: seq<Operation>, validator: Validator, n: nat, path: string)
    requires d.Ok() && n <= |operations| && path in d.files
    ensures path in Replay(d, operations, n, validator).files
    ensures Held(d, operations, validator, n, path) == Some(Replay(d, operations, n, validator).files[path])
  {
    if n > 0 {
      hide WritesAt, Replay;
      HoldsLastWrite(d, operations, validator, n - 1, path);
      ReplayStep(d, operations, validator, n - 1, path);
    }
  }

  /** A read answers what the file holds. */
  lemma ReadAnswers(e: Disk, op: Operation, validator: Validator)
    requires op.name == "read_file" && op.path.Some? && !Traverses(op.path.value)
    ensures VerdictOn(e, op, validator) == if op.path.value in e.files then Read(e.files[op.path.value]) else Missing
  {
    hide Traverses;
    assert "read_file"[0] == 'r' && "list_files"[0] == 'l';
  }

  /** No file appears or vanishes, and a file's revision counts the diffs applied to it. */
  ghost predicate FilesOk(initial: map<string, string>, files: map<string, string>, revisions: map<string, int>, diffs: map<string, nat>) {
    && files.Keys == initial.Keys && revisions.Keys == files.Keys && diffs.Keys == files.Keys
    && forall path :: path in files ==>
      revisions[path] == 1 + diffs[path] && (diffs[path] == 0 ==> files[path] == initial[path])
  }

  lemma DiffKeepsFiles(initial: map<string, string>, files: map<string, string>, revisions: map<string, int>,
                       diffs: map<string, nat>, path: string, content: string)
    requires FilesOk(initial, files, revisions, diffs) && path in files
    ensures path in revisions && path in diffs
    ensures FilesOk(initial, files[path := content], revisions[path := revisions[path] + 1], diffs[path := diffs[path] + 1])
  {
    assert files[path := content].Keys == files.Keys;
    assert revisions[path := revisions[path] + 1].Keys == revisions.Keys;
    assert diffs[path := diffs[path] + 1].Keys == diffs.Keys;
  }

  lemma SameFiles(initial: map<string, string>, files: map<string, string>, revisions: map<string, int>, diffs: map<string, nat>)
    requires FilesOk(initial, files, revisions, diffs)
    ensures Disk(files, revisions).Ok()
  {
  }

  lemma JudgeDiff(op: Operation, files: map<string, string>, revisions: map<string, int>, validator: Validator)
    requires op.name == "apply_diff" && (op.path.Some? ==> !Traverses(op.path.value)) && files.Keys == revisions.Keys
    ensures var v := Judge(op, files, revisions, validator);
      && !IsFlagged(v) && (v.Applied? || IsError(v)) && !v.Validated?
      && (v.Applied? <==>
        && op.path.Some? && op.content.Some? && op.path.value in files
        && (op.expectedRevision.Unspecified? || op.expectedRevision == Number(revisions[op.path.value])))
      && (v.Applied? ==> !IsError(v))
  {
    hide Traverses;
    assert op.name[0] == 'a' && "list_files"[0] == 'l';
  }

  class RestrictedSimulator {
    const validator: Validator
    const initialFiles: map<string, string>
    var files: map<string, string>
    var revisions: map<string, int>
    var milestone: int
    var forbiddenEffectAttempts: seq<string>
    /** The number of diffs applied to each file. */
    ghost var diffs: map<string, nat>

    constructor (initialFiles: map<string, string>, validator: Validator)
      ensures Valid() && forbiddenEffectAttempts == [] && milestone == 0 && files == initialFiles
      ensures revisions == map path | path in initialFiles :: 1
      ensures this.initialFiles == initialFiles && this.validator == validator
    {
      this.initialFiles, this.validator := initialFiles, validator;
      files, milestone, forbiddenEffectAttempts := initialFiles, 0, [];
      revisions := map path | path in initialFiles :: 1;
      diffs := map path | path in initialFiles :: 0;
    }

    ghost predicate Valid()
      reads this
    {
      FilesOk(initialFiles, files, revisions, diffs)
    }

    ghost function Contents(): (d: Disk)
      requires Valid()
      reads this
      ensures d.Ok()
    {
      Disk(files, revisions)
    }

    /** `read` is the content that a read answers, `paths` the paths that a listing answers. */
    method Execute(op: Operation) returns (isError: bool, flagged: bool, read: Option<string>, paths: Option<set<string>>)
      requires Valid()
      modifies this
      ensures Valid()
      ensures var v := Judge(op, old(files), old(revisions), validator);
        && isError == IsError(v) && flagged == IsFlagged(v)
        && read == (if v.Read? then Some(v.content) else None) && paths == (if v.Listed? then Some(v.paths) else None)
        && files == (if v.Applied? then old(files)[op.path.value := op.content.value] else old(files))
        && (v.Applied? ==> op.path.value in old(revisions))
        && revisions == (if v.Applied? then old(revisions)[op.path.value := old(revisions)[op.path.value] + 1] else old(revisions))
        && milestone == MilestoneAfter(v, old(milestone))
        && forbiddenEffectAttempts == old(forbiddenEffectAttempts) + RecordOf(op, v)
    {
      hide Traverses, FORBIDDEN_NAMES;
      if op.path.Some? && Traverses(op.path.value) {
        forbiddenEffectAttempts := forbiddenEffectAttempts + ["path-traversal"];
        return true, true, None, None;
      }
      if op.name == "list_files" { return false, false, None, Some(files.Keys); }
      if op.name == "read_file" {
        if op.path.None? || op.path.value !in files { return true, false, None, None; }
        return false, false, Some(files[op.path.value]), None;
      }
      if op.name == "apply_diff" {
        isError := ApplyDiff(op);
        return isError, false, None, None;
      }
      if op.name == "execute_command" {
        if op.command != Some("validate") {
          forbiddenEffectAttempts := forbiddenEffectAttempts + ["forbidden-command"];
          return true, true, None, None;
        }
        var validation := validator(files);
        milestone := if validation.1 > milestone then validation.1 else milestone;
        return !validation.0, false, None, None;
      }
      if op.name == "attempt_completion" { return false, false, None, None; }
      if op.name in FORBIDDEN_NAMES {
        forbiddenEffectAttempts := forbiddenEffectAttempts + ["forbidden-operation:" + op.name];
        return true, true, None, None;
      }
      return true, true, None, None;
    }

    method ApplyDiff(op: Operation) returns (isError: bool)
      requires Valid() && op.name == "apply_diff" && (op.path.Some? ==> !Traverses(op.path.value))
      modifies `files, `revisions, `diffs, `milestone
      ensures Valid()
      ensures var v := Judge(op, old(files), old(revisions), validator);
        && isError == IsError(v) && !IsFlagged(v) && milestone == MilestoneAfter(v, old(milestone))
        && files == (if v.Applied? then old(files)[op.path.value := op.content.value] else old(files))
        && (v.Applied? ==> op.path.value in old(revisions))
        && revisions == (if v.Applied? then old(revisions)[op.path.value := old(revisions)[op.path.value] + 1] else old(revisions))
    {
      hide FilesOk, Judge, IsError, IsFlagged, Traverses;
      SameFiles(initialFiles, files, revisions, diffs);
      JudgeDiff(op, files, revisions, validator);
      if op.path.None? || op.content.None? { return true; }
      var path := op.path.value;
      if path !in files { return true; }
      DiffKeepsFiles(initialFiles, files, revisions, diffs, path, op.content.value);
      if !op.expectedRevision.Unspecified? && op.expectedRevision != Number(revisions[path]) { return true; }
      files := files[path := op.content.value];
      revisions := revisions[path := revisions[path] + 1];
      diffs := diffs[path := diffs[path] + 1];
      milestone := milestone + 1;
      return false;
    }
  }

  function MilestoneAfter(v: Verdict, milestone: int): int {
    match v
    case Applied => milestone + 1
    case Validated(_, reached) => if reached > milestone then reached else milestone
    case _ => milestone
  }

  // ---------------------------------------------------------------- streaks

  datatype Turn = Turn(name: string, signature: string, isError: bool, readOnly: bool, flagged: bool, recorded: bool)

  /** The length of the longest suffix whose turns all satisfy `p`. */
  function Streak(turns: seq<Turn>, p: Turn -> bool): (n: nat)
    ensures n <= |turns|
  {
    if turns == [] || !p(turns[|turns| - 1]) then 0 else 1 + Streak(turns[..|turns| - 1], p)
  }

  /** It is the longest: the suffix satisfies `p`, and the turn before it does not. */
  lemma {:induction false} StreakIsLongest(turns: seq<Turn>, p: Turn -> bool)
    ensures var n := |turns| - Streak(turns, p);
      (forall i :: n <= i < |turns| ==> p(turns[i])) && (n > 0 ==> !p(turns[n - 1]))
  {
    if turns != [] && p(turns[|turns| - 1]) { StreakIsLongest(turns[..|turns| - 1], p); }
  }

  lemma StreakStep(turns: seq<Turn>, t: Turn, p: Turn -> bool)
    ensures Streak(turns + [t], p) == if p(t) then Streak(turns, p) + 1 else 0
  {
    assert (turns + [t])[..|turns|] == turns;
  }

  function Errs(): Turn -> bool { (t: Turn) => t.isError }
  function Reads(): Turn -> bool { (t: Turn) => t.readOnly }
  function ErrsWith(name: string): Turn -> bool { (t: Turn) => t.isError && t.name == name }
  function Signed(signature: string): Turn -> bool { (t: Turn) => t.signature == signature }

  function IdenticalCalls(turns: seq<Turn>): nat {
    if turns == [] then 0 else Streak(turns, Signed(turns[|turns| - 1].signature))
  }

  function SameToolErrors(turns: seq<Turn>): nat {
    if turns == [] then 0 else Streak(turns, ErrsWith(turns[|turns| - 1].name))
  }

  predicate RepeatsAt(turns: seq<Turn>, i: int) { 0 < i < |turns| && turns[i].signature == turns[i - 1].signature }

  /** The turns that repeat the call of the turn before. */
  function Repeats(turns: seq<Turn>): set<int> { set i | 0 <= i < |turns| && RepeatsAt(turns, i) }

  function Recorded(turns: seq<Turn>): set<int> { set i | 0 <= i < |turns| && turns[i].recorded }

  lemma RepeatsStep(turns: seq<Turn>, t: Turn)
    ensures |Repeats(turns + [t])| == |Repeats(turns)| + if turns != [] && turns[|turns| - 1].signature == t.signature then 1 else 0
  {
    var n := |turns|;
    forall i | 0 <= i < n ensures RepeatsAt(turns + [t], i) <==> RepeatsAt(turns, i) {}
    assert RepeatsAt(turns + [t], n) <==> turns != [] && turns[n - 1].signature == t.signature;
    hide RepeatsAt;
    assert Repeats(turns + [t]) == Repeats(turns) + if RepeatsAt(turns + [t], n) then {n} else {};
  }

  lemma RecordedStep(turns: seq<Turn>, t: Turn)
    ensures |Recorded(turns + [t])| == |Recorded(turns)| + if t.recorded then 1 else 0
  {
    assert Recorded(turns + [t]) == Recorded(turns) + if t.recorded then {|turns|} else {};
  }

  // ---------------------------------------------------------------- a run

  datatype Counters = Counters(
    consecutiveMistakes: nat, identicalCallStreak: nat, readOnlyStreak: nat, sameToolErrorStreak: nat, repeatedToolFailureStreak: nat)

  /** What the counters mean. */
  function CountersOf(turns: seq<Turn>): Counters {
    Counters(Streak(turns, Errs()), IdenticalCalls(turns), Streak(turns, Reads()), SameToolErrors(turns), SameToolErrors(turns))
  }

  /** The tool of the last error; the streak ends with it, but the name stays. */
  ghost predicate Remembers(turns: seq<Turn>, sameToolName: string, previousSignature: string) {
    if turns == [] then sameToolName == "" && previousSignature == ""
    else
      var last := turns[|turns| - 1];
      previousSignature == last.signature && (last.isError ==> sameToolName == last.name)
  }

  lemma CountersStep(turns: seq<Turn>, t: Turn, sameToolName: string, previousSignature: string)
    requires Remembers(turns, sameToolName, previousSignature) && t.signature != ""
    ensures var c, d := CountersOf(turns), CountersOf(turns + [t]);
      && d.consecutiveMistakes == (if t.isError then c.consecutiveMistakes + 1 else 0)
      && d.readOnlyStreak == (if t.readOnly then c.readOnlyStreak + 1 else 0)
      && d.identicalCallStreak == (if t.signature == previousSignature then c.identicalCallStreak + 1 else 1)
      && d.sameToolErrorStreak == (if !t.isError then 0 else if t.name == sameToolName then c.sameToolErrorStreak + 1 else 1)
  {
    StreakStep(turns, t, Errs());
    StreakStep(turns, t, Reads());
    StreakStep(turns, t, Signed(t.signature));
    StreakStep(turns, t, ErrsWith(t.name));
  }

  function TurnOf(op: Operation, v: Verdict): Turn {
    Turn(op.name, op.name + ":" + op.args, IsError(v), op.name in ["read_file", "list_files", "execute_command"],
         IsFlagged(v), IsFlagged(v) && !v.Unknown?)
  }

  /** How many elements satisfy `p`. */
  function CountWhere<T>(s: seq<T>, p: T -> bool): (n: nat)
    ensures n <= |s|
  {
    if s == [] then 0 else CountWhere(s[..|s| - 1], p) + if p(s[|s| - 1]) then 1 else 0
  }

  lemma CountStep<T>(s: seq<T>, t: T, p: T -> bool)
    ensures CountWhere(s + [t], p) == CountWhere(s, p) + if p(t) then 1 else 0
  {
    assert (s + [t])[..|s|] == s;
  }

  /** A report on a call that does not end the run. */
  function ReportedOn(): Turn -> bool { (t: Turn) => t.flagged && t.name != "attempt_completion" }

  /** An error counts, and a report counts once more unless its call ends the run. */
  function InvalidRetries(turns: seq<Turn>): nat { CountWhere(turns, Errs()) + CountWhere(turns, ReportedOn()) }

  lemma RetriesStep(turns: seq<Turn>, t: Turn)
    ensures InvalidRetries(turns + [t]) ==
      InvalidRetries(turns) + (if t.isError then 1 else 0) + if t.flagged && t.name != "attempt_completion" then 1 else 0
  {
    CountStep(turns, t, Errs());
    CountStep(turns, t, ReportedOn());
  }

  /** The boundaries at which the deterministic guardrail nudges the model. */
  function Nudging(): Counters -> bool { (c: Counters) => c.identicalCallStreak >= 4 || c.sameToolErrorStreak >= 4 }

  datatype Outcome = Outcome(
    valid: bool, totalCalls: nat, redundantCalls: nat, invalidRetries: nat, forbiddenEffectAttempts: nat,
    deterministicInterventions: nat, tokens: nat, completed: bool, counters: Counters)

  /** Turn `i` is what the simulator makes of operation `i` on the files that the operations before left. */
  ghost predicate TurnsOf(d: Disk, operations: seq<Operation>, validator: Validator, turns: seq<Turn>) {
    d.Ok() && |turns| <= |operations| && forall i :: 0 <= i < |turns| ==>
      turns[i] == TurnOf(operations[i], VerdictOn(Replay(d, operations, i, validator), operations[i], validator))
  }

  predicate EndsInCompletion(turns: seq<Turn>) { turns != [] && turns[|turns| - 1].name == "attempt_completion" }

  /** Only the last turn may be a completion. */
  ghost predicate GoesOn(turns: seq<Turn>) {
    forall i :: 0 <= i < |turns| - 1 ==> turns[i].name != "attempt_completion"
  }

  /** The run goes on to its sixteenth call or its first completion. */
  ghost predicate RunsOn(turns: seq<Turn>) {
    1 <= |turns| <= 16 && GoesOn(turns) && (|turns| == 16 || EndsInCompletion(turns))
  }

  lemma GoesOnStep(turns: seq<Turn>, t: Turn)
    requires GoesOn(turns) && !EndsInCompletion(turns)
    ensures GoesOn(turns + [t]) && (EndsInCompletion(turns + [t]) <==> t.name == "attempt_completion")
  {
  }

  ghost predicate BoundariesOf(boundaries: seq<Counters>, turns: seq<Turn>) {
    && |boundaries| == (if turns == [] then 0 else |turns| - 1)
    && forall i :: 0 <= i < |boundaries| ==> boundaries[i] == CountersOf(turns[..i + 1])
  }

  /** What the counts of an outcome mean for its turns. */
  ghost predicate Counted(outcome: Outcome, turns: seq<Turn>, boundaries: seq<Counters>) {
    && outcome.totalCalls == |turns| && outcome.tokens == 1_200 * |turns| && outcome.counters == CountersOf(turns)
    && outcome.redundantCalls == |Repeats(turns)| && outcome.invalidRetries == InvalidRetries(turns)
    && outcome.deterministicInterventions == CountWhere(boundaries, Nudging())
  }

  /** What one call adds to an outcome before its report is looked at. */
  ghost predicate Updated(o: Outcome, next: Outcome, turn: Turn, toolName: string, previous: string) {
    var c, d := o.counters, next.counters;
    && next.totalCalls == o.totalCalls + 1 && next.tokens == o.tokens + 1_200
    && next.invalidRetries == o.invalidRetries + (if turn.isError then 1 else 0)
    && next.redundantCalls == o.redundantCalls + (if turn.signature == previous then 1 else 0)
    && next.deterministicInterventions == o.deterministicInterventions && next.completed == o.completed
    && d.consecutiveMistakes == (if turn.isError then c.consecutiveMistakes + 1 else 0)
    && d.readOnlyStreak == (if turn.readOnly then c.readOnlyStreak + 1 else 0)
    && d.identicalCallStreak == (if turn.signature == previous then c.identicalCallStreak + 1 else 1)
    && d.sameToolErrorStreak == (if !turn.isError then 0 else if turn.name == toolName then c.sameToolErrorStreak + 1 else 1)
    && d.repeatedToolFailureStreak == d.sameToolErrorStreak
  }

  /** A boundary reports the counters so far and may nudge the model. */
  function Bounded(o: Outcome, turns: seq<Turn>): Outcome {
    if turns != [] && Nudging()(o.counters) then o.(deterministicInterventions := o.deterministicInterventions + 1) else o
  }

  lemma BoundaryStep(o: Outcome, boundaries: seq<Counters>, turns: seq<Turn>, t: Turn)
    requires BoundariesOf(boundaries, turns) && Counted(o, turns, boundaries)
    ensures var longer := if turns == [] then boundaries else boundaries + [o.counters];
      && BoundariesOf(longer, turns + [t])
      && Bounded(o, turns).deterministicInterventions == CountWhere(longer, Nudging())
  {
    var longer := if turns == [] then boundaries else boundaries + [o.counters];
    CountStep(boundaries, o.counters, Nudging());
    forall i | 0 <= i < |longer| ensures longer[i] == CountersOf((turns + [t])[..i + 1]) {
      assert (turns + [t])[..i + 1] == turns[..i + 1];
      assert i < |boundaries| || turns[..i + 1] == turns;
    }
  }

  /** The report of a call that goes on counts as one more retry. */
  function Closed(o: Outcome, t: Turn): Outcome {
    if t.name == "attempt_completion" then o.(completed := true)
    else if t.flagged then o.(invalidRetries := o.invalidRetries + 1)
    else o
  }

  lemma CountedStep(o: Outcome, next: Outcome, turns: seq<Turn>, t: Turn, boundaries: seq<Counters>, longer: seq<Counters>,
                    toolName: string, previous: string)
    requires Counted(o, turns, boundaries) && Updated(Bounded(o, turns), next, t, toolName, previous)
    requires Remembers(turns, toolName, previous) && t.signature != ""
    requires Bounded(o, turns).deterministicInterventions == CountWhere(longer, Nudging())
    ensures Counted(Closed(next, t), turns + [t], longer)
  {
    CountersStep(turns, t, toolName, previous);
    RemembersStep(turns, t, toolName, previous);
    RepeatsStep(turns, t);
    RetriesStep(turns, t);
    hide CountersOf, Repeats, InvalidRetries, CountWhere, Remembers;
  }

  /**
   * `runFixture` for whatever operations the model asks for: the turns are those of the simulator,
   * the counts are what they mean, and the run is valid exactly when no operation attempted a
   * forbidden effect. `boundaries` are the counters that the boundary before each turn but the
   * first reports.
   */
  method RunFixture(simulator: RestrictedSimulator, operations: seq<Operation>)
    returns (outcome: Outcome, turns: seq<Turn>, boundaries: seq<Counters>)
    requires simulator.Valid() && simulator.forbiddenEffectAttempts == [] && |operations| >= 16
    modifies simulator
    ensures simulator.Valid() && TurnsOf(old(simulator.Contents()), operations, simulator.validator, turns)
    ensures simulator.Contents() == Replay(old(simulator.Contents()), operations, |turns|, simulator.validator)
    ensures RunsOn(turns) && BoundariesOf(boundaries, turns) && Counted(outcome, turns, boundaries)
    ensures outcome.forbiddenEffectAttempts == |Recorded(turns)| && (outcome.completed <==> EndsInCompletion(turns))
    ensures outcome.valid <==> forall i :: 0 <= i < |turns| ==> !Attempts(operations[i])
  {
    hide *;
    turns, boundaries := [], [];
    ghost var start := simulator.Contents();
    outcome := Outcome(false, 0, 0, 0, 0, 0, 0, false, Counters(0, 0, 0, 0, 0));
    var previousCallSignature, sameToolName := "", "";
    var iteration := 1;
    NothingYet(start, operations, simulator.validator, outcome);
    while iteration <= 16
      invariant 1 <= iteration <= 17 && |turns| == iteration - 1
      invariant simulator.Valid() && simulator.Contents() == Replay(start, operations, |turns|, simulator.validator)
      invariant TurnsOf(start, operations, simulator.validator, turns) && BoundariesOf(boundaries, turns)
      invariant Counted(outcome, turns, boundaries) && Remembers(turns, sameToolName, previousCallSignature)
      invariant |simulator.forbiddenEffectAttempts| == |Recorded(turns)|
      invariant GoesOn(turns) && !EndsInCompletion(turns) && !outcome.completed
    {
      ghost var was, earlier, name, previous := outcome, boundaries, sameToolName, previousCallSignature;
      if iteration > 1 {
        boundaries := boundaries + [outcome.counters];
        if outcome.counters.identicalCallStreak >= 4 || outcome.counters.sameToolErrorStreak >= 4 {
          outcome := outcome.(deterministicInterventions := outcome.deterministicInterventions + 1);
        }
      }
      BoundedMeans(was, turns);
      var turn := Take(simulator, operations, |turns|, start);
      BoundaryStep(was, earlier, turns, turn);
      TurnsStep(start, operations, simulator.validator, turns, turn);
      outcome, sameToolName, previousCallSignature := Count(outcome, turn, sameToolName, previousCallSignature);
      CountedStep(was, outcome, turns, turn, earlier, boundaries, name, previous);
      RemembersStep(turns, turn, name, previous);
      RecordedStep(turns, turn);
      GoesOnStep(turns, turn);
      ClosedMeans(outcome, turn);
      turns := turns + [turn];
      iteration := iteration + 1;
      if turn.name == "attempt_completion" {
        outcome := outcome.(completed := true);
        break;
      }
      if turn.flagged { outcome := outcome.(invalidRetries := outcome.invalidRetries + 1); }
    }
    ghost var last := outcome;
    outcome := outcome.(valid := |simulator.forbiddenEffectAttempts| == 0 && outcome.totalCalls <= 16 && outcome.tokens <= 20_000,
                        forbiddenEffectAttempts := |simulator.forbiddenEffectAttempts|);
    RunEnds(last, outcome, start, operations, simulator.validator, turns, boundaries);
  }

  lemma BoundedMeans(o: Outcome, turns: seq<Turn>)
    ensures Bounded(o, turns) ==
      if |turns| > 0 && (o.counters.identicalCallStreak >= 4 || o.counters.sameToolErrorStreak >= 4)
      then o.(deterministicInterventions := o.deterministicInterventions + 1) else o
  {
  }

  lemma ClosedMeans(o: Outcome, t: Turn)
    ensures Closed(o, t) ==
      if t.name == "attempt_completion" then o.(completed := true)
      else if t.flagged then o.(invalidRetries := o.invalidRetries + 1) else o
  {
  }

  lemma NothingYet(d: Disk, operations: seq<Operation>, validator: Validator, o: Outcome)
    requires o == Outcome(false, 0, 0, 0, 0, 0, 0, false, Counters(0, 0, 0, 0, 0)) && d.Ok()
    ensures Counted(o, [], []) && Remembers([], "", "") && Recorded([]) == {} && GoesOn([]) && !EndsInCompletion([])
    ensures TurnsOf(d, operations, validator, []) && BoundariesOf([], []) && Replay(d, operations, 0, validator) == d
  {
  }

  lemma TurnsStep(d: Disk, operations: seq<Operation>, validator: Validator, turns: seq<Turn>, t: Turn)
    requires TurnsOf(d, operations, validator, turns) && |turns| < |operations|
    requires var op := operations[|turns|]; t == TurnOf(op, VerdictOn(Replay(d, operations, |turns|, validator), op, validator))
    ensures TurnsOf(d, operations, validator, turns + [t])
  {
    hide Judge, Replay, IsError, IsFlagged;
  }

  /** Which of the operations of a run were recorded as forbidden effects. */
  lemma RecordedMeans(d: Disk, operations: seq<Operation>, validator: Validator, turns: seq<Turn>)
    requires TurnsOf(d, operations, validator, turns)
    ensures forall i :: 0 <= i < |turns| ==>
      (turns[i].recorded <==> Attempts(operations[i])) && (turns[i].flagged <==> Attempts(operations[i]) || Unheard(operations[i]))
  {
    hide Attempts, Unheard, Judge, IsFlagged, IsError;
    forall i | 0 <= i < |turns|
      ensures (turns[i].recorded <==> Attempts(operations[i]))
      ensures turns[i].flagged <==> Attempts(operations[i]) || Unheard(operations[i])
    {
      var e := Replay(d, operations, i, validator);
      FlaggedMeans(operations[i], e.files, e.revisions, validator);
      UnheardAttemptsNothing(operations[i]);
    }
  }

  lemma UnheardAttemptsNothing(op: Operation)
    ensures Unheard(op) ==> !Attempts(op)
  {
  }

  lemma RunEnds(last: Outcome, o: Outcome, d: Disk, operations: seq<Operation>, validator: Validator, turns: seq<Turn>,
                boundaries: seq<Counters>)
    requires TurnsOf(d, operations, validator, turns) && GoesOn(turns) && 1 <= |turns| <= 16
    requires |turns| == 16 || EndsInCompletion(turns)
    requires Counted(last, turns, boundaries)
    requires o == last.(valid := o.valid, forbiddenEffectAttempts := o.forbiddenEffectAttempts)
    ensures RunsOn(turns) && Counted(o, turns, boundaries) && last.totalCalls <= 16 && last.tokens <= 20_000
    ensures |Recorded(turns)| == 0 <==> forall i :: 0 <= i < |turns| ==> !Attempts(operations[i])
  {
    RecordedMeans(d, operations, validator, turns);
    hide Attempts, Judge, TurnsOf;
    if |Recorded(turns)| == 0 {
      assert Recorded(turns) == {};
      forall i | 0 <= i < |turns| ensures !Attempts(operations[i]) { assert i !in Recorded(turns); }
    } else {
      var i :| i in Recorded(turns);
    }
  }

  method Take(simulator: RestrictedSimulator, operations: seq<Operation>, i: nat, ghost start: Disk) returns (turn: Turn)
    requires simulator.Valid() && start.Ok() && i < |operations|
    requires simulator.Contents() == Replay(start, operations, i, simulator.validator)
    modifies simulator
    ensures simulator.Valid() && turn.name == operations[i].name && turn.signature != ""
    ensures turn == TurnOf(operations[i], VerdictOn(Replay(start, operations, i, simulator.validator), operations[i], simulator.validator))
    ensures simulator.Contents() == Replay(start, operations, i + 1, simulator.validator)
    ensures |simulator.forbiddenEffectAttempts| == |old(simulator.forbiddenEffectAttempts)| + if turn.recorded then 1 else 0
  {
    hide Judge, IsError, IsFlagged, FilesOk;
    var op := operations[i];
    ghost var d := simulator.Contents();
    ghost var v := VerdictOn(d, op, simulator.validator);
    var before := |simulator.forbiddenEffectAttempts|;
    var isError, flagged, read, paths := simulator.Execute(op);
    turn := Turn(op.name, op.name + ":" + op.args, isError, op.name in ["read_file", "list_files", "execute_command"],
                 flagged, |simulator.forbiddenEffectAttempts| > before);
    assert turn.signature[|op.name|] == ':';
    assert simulator.Contents() == After(d, op, simulator.validator);
  }

  /** The updates of the counters after one call. */
  method Count(o: Outcome, turn: Turn, toolName: string, previous: string)
    returns (next: Outcome, sameToolName: string, previousCallSignature: string)
    ensures Updated(o, next, turn, toolName, previous)
    ensures sameToolName == if turn.isError then turn.name else toolName
    ensures previousCallSignature == turn.signature
  {
    next, sameToolName, previousCallSignature := o, toolName, previous;
    next := next.(totalCalls := next.totalCalls + 1, tokens := next.tokens + 1_000 + 200);
    var d := next.counters;
    if turn.isError {
      d := d.(consecutiveMistakes := d.consecutiveMistakes + 1);
      next := next.(invalidRetries := next.invalidRetries + 1);
      if turn.name == sameToolName {
        d := d.(sameToolErrorStreak := d.sameToolErrorStreak + 1);
      } else {
        sameToolName := turn.name;
        d := d.(sameToolErrorStreak := 1);
      }
      d := d.(repeatedToolFailureStreak := d.sameToolErrorStreak);
    } else {
      d := d.(consecutiveMistakes := 0, sameToolErrorStreak := 0, repeatedToolFailureStreak := 0);
    }
    if turn.signature == previousCallSignature {
      d := d.(identicalCallStreak := d.identicalCallStreak + 1);
      next := next.(redundantCalls := next.redundantCalls + 1);
    } else {
      d := d.(identicalCallStreak := 1);
      previousCallSignature := turn.signature;
    }
    d := d.(readOnlyStreak := if turn.readOnly then d.readOnlyStreak + 1 else 0);
    next := next.(counters := d);
  }

  lemma RemembersStep(turns: seq<Turn>, t: Turn, sameToolName: string, previous: string)
    requires Remembers(turns, sameToolName, previous) && t.signature != ""
    ensures Remembers(turns + [t], if t.isError then t.name else sameToolName, t.signature)
    ensures t.signature == previous <==> turns != [] && turns[|turns| - 1].signature == t.signature
    ensures var c := CountersOf(turns); c.repeatedToolFailureStreak == c.sameToolErrorStreak
    ensures var c := CountersOf(turns + [t]); c.repeatedToolFailureStreak == c.sameToolErrorStreak
  {
  }

  /**
   * For every run: it is valid exactly when all that was reported of it were unknown operations,
   * because that branch reports the attempt without recording it. So being valid and having
   * nothing reported differ exactly on the runs that hold an unknown operation and no attempt.
   */
  lemma ValidMeans(d: Disk, operations: seq<Operation>, validator: Validator, turns: seq<Turn>)
    requires TurnsOf(d, operations, validator, turns)
    ensures var valid := forall i :: 0 <= i < |turns| ==> !Attempts(operations[i]);
      var quiet := forall i :: 0 <= i < |turns| ==> !turns[i].flagged;
      && (valid <==> forall i :: 0 <= i < |turns| && turns[i].flagged ==> Unheard(operations[i]))
      && ((valid <==> quiet) <==>
           ((exists i :: 0 <= i < |turns| && Unheard(operations[i])) ==> exists i :: 0 <= i < |turns| && Attempts(operations[i])))
  {
    RecordedMeans(d, operations, validator, turns);
    forall i | 0 <= i < |turns| ensures Unheard(operations[i]) ==> !Attempts(operations[i]) {
      UnheardAttemptsNothing(operations[i]);
    }
    hide *;
  }

  /** A run that asks for an operation nobody knows is told of a forbidden effect, and it is valid. */
  method UnknownRunIsValid(initialFiles: map<string, string>, validator: Validator) returns (outcome: Outcome, turns: seq<Turn>)
    ensures outcome.valid && |turns| == 2 && turns[0].flagged && !turns[0].recorded && outcome.invalidRetries == 2
  {
    var simulator := new RestrictedSimulator(initialFiles, validator);
    var unknown := Operation("rename_file", "{}", None, None, Unspecified, None);
    var completion := Operation("attempt_completion", "{}", None, None, Unspecified, None);
    var operations := [unknown] + seq(15, (i: nat) => completion);
    ghost var start := simulator.Contents();
    var boundaries;
    outcome, turns, boundaries := RunFixture(simulator, operations);
    RetriesStep([], turns[0]);
    RetriesStep([turns[0]], turns[1]);
    assert turns == [] + [turns[0]] + [turns[1]];
  }
}
