/** The migration of legacy project data: guarded moves, step by step, over any tree and any links in it. */
module LegacyMigration {
  import opened Wrappers
  import opened Migration

  const NAMES := ["codesearch", "mode-models.json", "permissions.json"]

  const LEGACY := ".headlesscode"

  function LegacyOf(root: Path): Path { root + [LEGACY] }

  /** Reached through the legacy directory, which may be a link itself. */
  function SourceAt(t: Tree, root: Path, n: nat): (place: Option<Path>)
    requires n < |NAMES|
    ensures place.Some? ==> place.value != []
  {
    Place(t, LegacyOf(root), NAMES[n])
  }

  function TargetAt(t: Tree, central: Path, n: nat): (place: Option<Path>)
    requires n < |NAMES|
    ensures place.Some? ==> place.value != []
  {
    Place(t, central, NAMES[n])
  }

  /** The two guards: the source exists and the target does not. */
  predicate Acts(t: Tree, root: Path, n: nat, central: Path)
    requires n < |NAMES|
  {
    Exists(t, SourceAt(t, root, n)) && !Exists(t, TargetAt(t, central, n))
  }

  lemma SourceIsThere(t: Tree, root: Path, n: nat, central: Path)
    requires n < |NAMES| && Acts(t, root, n, central)
    ensures var src := SourceAt(t, root, n); src.Some? && src.value in t && ExistsAt(t, src.value)
    ensures var dest := TargetAt(t, central, n); dest.Some? ==> !ExistsAt(t, dest.value)
  {
    ExistsMeans(t, SourceAt(t, root, n).value);
  }

  /** What a migration does in turn: for each root its entries in order, and then the removal of what is empty. */
  datatype Step = Carry(root: Path, n: nat) | Drop(root: Path)

  function StepsOf(root: Path): seq<Step> { [Carry(root, 0), Carry(root, 1), Carry(root, 2), Drop(root)] }

  function Plan(roots: seq<Path>): seq<Step> {
    if roots == [] then [] else Plan(roots[..|roots| - 1]) + StepsOf(roots[|roots| - 1])
  }

  /** The tree after a step, whether the step went through, and where it put its source. */
  datatype Moment = Moment(tree: Tree, ok: bool, landed: Option<Path>)

  type Answers = (Path, Path) -> RenameResult

  ghost predicate CarryTaken(t: Tree, m: Moment, root: Path, n: nat, central: Path, rename: Answers)
    requires n < |NAMES|
  {
    if !Acts(t, root, n, central) then m == Moment(t, true, None)
    else
      SourceIsThere(t, root, n, central);
      var source, target := SourceAt(t, root, n), TargetAt(t, central, n);
      if target.None? || Dangles(t, central) then m == Moment(t, false, None)
      else MoveDone(t, m.tree, source.value, target.value, m.landed, rename(source.value, target.value), m.ok)
  }

  predicate EmptyDirectory(t: Tree, p: Path) { p in t && t[p].Directory? && Names(t, p) == {} }

  /** Only an empty legacy directory is removed, never a link to one or a file of that name. */
  ghost predicate DropTaken(t: Tree, m: Moment, root: Path) {
    m.ok && m.landed.None? &&
    (m.tree == t || var e := Place(t, root, LEGACY); e.Some? && EmptyDirectory(t, e.value) && m.tree == t - {e.value})
  }

  ghost predicate StepTaken(t: Tree, m: Moment, s: Step, central: Path, rename: Answers) {
    match s
    case Carry(root, n) => n < |NAMES| && CarryTaken(t, m, root, n, central, rename)
    case Drop(root) => DropTaken(t, m, root)
  }

  /** `log` starts with a tree and goes on with what each step of the plan made of it, up to the first that failed. */
  ghost predicate RunOf(plan: seq<Step>, log: seq<Moment>, central: Path, rename: Answers) {
    && 1 <= |log| <= |plan| + 1 && log[0].ok
    && (forall k :: 0 <= k < |log| ==> WellFormed(log[k].tree))
    && (forall k :: 0 <= k < |log| - 1 ==> log[k].ok && StepTaken(log[k].tree, log[k + 1], plan[k], central, rename))
  }

  lemma RunGoesOn(plan: seq<Step>, log: seq<Moment>, s: Step, m: Moment, central: Path, rename: Answers)
    requires RunOf(plan, log, central, rename) && |log| == |plan| + 1 && log[|plan|].ok
    requires WellFormed(m.tree) && StepTaken(log[|plan|].tree, m, s, central, rename)
    ensures RunOf(plan + [s], log + [m], central, rename)
  {
    hide StepTaken, WellFormed;
    var longer, steps := log + [m], plan + [s];
    forall k | 0 <= k < |longer| - 1 ensures longer[k].ok && StepTaken(longer[k].tree, longer[k + 1], steps[k], central, rename) {
      assert longer[k] == log[k];
      if k < |plan| { assert longer[k + 1] == log[k + 1] && steps[k] == plan[k]; }
    }
  }

  lemma RunStops(plan: seq<Step>, more: seq<Step>, log: seq<Moment>, central: Path, rename: Answers)
    requires RunOf(plan, log, central, rename)
    ensures RunOf(plan + more, log, central, rename)
  {
    hide StepTaken, WellFormed;
    assert forall k :: 0 <= k < |log| - 1 ==> (plan + more)[k] == plan[k];
  }

  // ---------------------------------------------------------------- where every entry ends up

  /** Every entry in the domain of `at` lies whole in `b` at a place of its own. */
  ghost predicate Relocates(a: Tree, b: Tree, at: map<Path, Path>) {
    && (forall p :: p in at ==> p in a && at[p] in b && b[at[p]] == a[p])
    && forall p, q :: p in at && q in at && at[p] == at[q] ==> p == q
  }

  ghost function Compose(f: map<Path, Path>, g: map<Path, Path>): map<Path, Path> {
    map p | p in f && f[p] in g :: g[f[p]]
  }

  lemma ComposeRelocates(a: Tree, b: Tree, c: Tree, f: map<Path, Path>, g: map<Path, Path>)
    requires Relocates(a, b, f) && Relocates(b, c, g)
    ensures Relocates(a, c, Compose(f, g))
  {
  }

  /** The step takes the entry at `q` away for good: a link that a rename replaces, or a dropped directory. */
  ghost predicate Taken(t: Tree, m: Moment, s: Step, central: Path, rename: Answers, q: Path)
    requires StepTaken(t, m, s, central, rename)
  {
    match s
    case Carry(root, n) =>
      Acts(t, root, n, central) && (
        SourceIsThere(t, root, n, central);
        var source, target := SourceAt(t, root, n), TargetAt(t, central, n);
        target == Some(q) && !Dangles(t, central) && Overwrites(t, source.value, q, rename(source.value, q)))
    case Drop(_) => q in t && q !in m.tree
  }

  /** Where the step puts the entry at `q`. */
  ghost function Goes(t: Tree, m: Moment, s: Step, q: Path): Path
    requires s.Carry? ==> s.n < |NAMES|
  {
    if s.Carry? && m.landed.Some? && SourceAt(t, s.root, s.n).Some? && SourceAt(t, s.root, s.n).value <= q then
      m.landed.value + q[|SourceAt(t, s.root, s.n).value|..]
    else q
  }

  ghost function StepMap(t: Tree, m: Moment, s: Step, central: Path, rename: Answers): map<Path, Path>
    requires StepTaken(t, m, s, central, rename)
  {
    map q | q in t && !t[q].Special? && !Taken(t, m, s, central, rename, q) :: Goes(t, m, s, q)
  }

  /** Nothing lies yet where an entry is put, but for the link that it overwrites. */
  lemma Fresh(t: Tree, src: Path, dest: Path, q: Path, answer: RenameResult, p: Path)
    requires WellFormed(t) && src in t && dest != [] && LandsAt(t, src, dest, q, answer)
    requires src <= p && p in t && !t[p].Special?
    ensures q + p[|src|..] in t ==> q + p[|src|..] == dest && Overwrites(t, src, dest, answer)
  {
    var r := q + p[|src|..];
    if src != p { OnlyDirectories(t, src, p); }
    if r in t && !(q in t) { AbsentIsEmpty(t, q, r); }
    assert src == p ==> r == q;
  }

  lemma MoveRelocates(t: Tree, u: Tree, src: Path, dest: Path, landed: Option<Path>, answer: RenameResult, at: map<Path, Path>)
    requires WellFormed(t) && src in t && dest != [] && MoveSafe(t, u, src, dest, landed, answer)
    requires forall p :: p in at <==> p in t && !t[p].Special? && !(p == dest && Overwrites(t, src, dest, answer))
    requires forall p :: p in at ==> at[p] == if landed.Some? && src <= p then landed.value + p[|src|..] else p
    ensures Relocates(t, u, at)
  {
    hide WellFormed, Overwrites, LandsAt;
    forall p, q | p in at && q in at && at[p] == at[q] ensures p == q {
      if landed.Some? && src <= p {
        Fresh(t, src, dest, landed.value, answer, p);
        if src <= q { SameRest(src, landed.value, p, q); }
      } else if landed.Some? && src <= q {
        Fresh(t, src, dest, landed.value, answer, q);
      }
    }
    forall p | p in at ensures at[p] in u && u[at[p]] == t[p] {
      if !(landed.Some? && src <= p) { assert Same(t, u, p); }
    }
  }

  lemma SameRest(src: Path, dest: Path, p: Path, q: Path)
    requires src <= p && src <= q && dest + p[|src|..] == dest + q[|src|..]
    ensures p == q
  {
    assert p[|src|..] == (dest + p[|src|..])[|dest|..] == q[|src|..];
    assert p == src + p[|src|..] && q == src + q[|src|..];
  }

  lemma StepRelocates(t: Tree, m: Moment, s: Step, central: Path, rename: Answers)
    requires WellFormed(t) && StepTaken(t, m, s, central, rename)
    ensures Relocates(t, m.tree, StepMap(t, m, s, central, rename))
  {
    var at := StepMap(t, m, s, central, rename);
    if s.Carry? && Acts(t, s.root, s.n, central) && TargetAt(t, central, s.n).Some? && !Dangles(t, central) {
      SourceIsThere(t, s.root, s.n, central);
      var src, dest := SourceAt(t, s.root, s.n).value, TargetAt(t, central, s.n).value;
      MoveRelocates(t, m.tree, src, dest, m.landed, rename(src, dest), at);
    }
  }

  /** Where the entries of the first tree are after the run; special files are left out. */
  ghost function Fate(plan: seq<Step>, log: seq<Moment>, central: Path, rename: Answers): map<Path, Path>
    requires RunOf(plan, log, central, rename)
    decreases |log|
  {
    var n := |log| - 1;
    if n == 0 then map p | p in log[0].tree && !log[0].tree[p].Special? :: p
    else
      Shorter(plan, log, central, rename);
      Compose(Fate(plan, log[..n], central, rename), StepMap(log[n - 1].tree, log[n], plan[n - 1], central, rename))
  }

  lemma Shorter(plan: seq<Step>, log: seq<Moment>, central: Path, rename: Answers)
    requires RunOf(plan, log, central, rename) && |log| > 1
    ensures RunOf(plan, log[..|log| - 1], central, rename)
  {
    hide StepTaken, WellFormed;
  }

  /** Step `k` of a run takes away the entry at `q`. */
  ghost predicate TakenAt(plan: seq<Step>, log: seq<Moment>, central: Path, rename: Answers, k: int, q: Path)
    requires RunOf(plan, log, central, rename)
  {
    0 <= k < |log| - 1 && q in log[k].tree && Taken(log[k].tree, log[k + 1], plan[k], central, rename, q)
  }

  /** Step `k` of a run puts an entry at `q`. */
  ghost predicate PutAt(log: seq<Moment>, k: int, q: Path) {
    0 < k < |log| && log[k].landed.Some? && log[k].landed.value <= q
  }

  /** What is missing at the end was taken away by some step. */
  ghost predicate LossesTaken(plan: seq<Step>, log: seq<Moment>, central: Path, rename: Answers)
    requires RunOf(plan, log, central, rename)
  {
    var a, fate := log[0].tree, Fate(plan, log, central, rename);
    forall p :: p in a && !a[p].Special? && p !in fate ==>
      exists k, q :: TakenAt(plan, log, central, rename, k, q) && log[k].tree[q] == a[p]
  }

  /** What lies elsewhere at the end was put there by some step. */
  ghost predicate MovesPut(plan: seq<Step>, log: seq<Moment>, central: Path, rename: Answers)
    requires RunOf(plan, log, central, rename)
  {
    var fate := Fate(plan, log, central, rename);
    forall p :: p in fate && fate[p] != p ==> exists k :: PutAt(log, k, fate[p])
  }

  /**
   * Over any run every entry but special files is whole at a place of its own in the last tree, or
   * some step took it away; and no entry moves except to where a step put its source.
   */
  lemma {:induction false} RunRelocates(plan: seq<Step>, log: seq<Moment>, central: Path, rename: Answers)
    requires RunOf(plan, log, central, rename)
    ensures Relocates(log[0].tree, log[|log| - 1].tree, Fate(plan, log, central, rename))
    ensures LossesTaken(plan, log, central, rename) && MovesPut(plan, log, central, rename)
    decreases |log|
  {
    var n := |log| - 1;
    hide StepTaken, WellFormed, Taken;
    if n > 0 {
      Shorter(plan, log, central, rename);
      RunRelocates(plan, log[..n], central, rename);
      hide Relocates, LossesTaken, MovesPut;
      LastStepRelocates(plan, log, central, rename);
      LastStepTakes(plan, log, central, rename);
      LastStepPuts(plan, log, central, rename);
    }
  }

  ghost function LastMap(plan: seq<Step>, log: seq<Moment>, central: Path, rename: Answers): map<Path, Path>
    requires RunOf(plan, log, central, rename) && |log| > 1
  {
    StepMap(log[|log| - 2].tree, log[|log| - 1], plan[|log| - 2], central, rename)
  }

  lemma LastStepRelocates(plan: seq<Step>, log: seq<Moment>, central: Path, rename: Answers)
    requires RunOf(plan, log, central, rename) && |log| > 1 && RunOf(plan, log[..|log| - 1], central, rename)
    requires Relocates(log[0].tree, log[|log| - 2].tree, Fate(plan, log[..|log| - 1], central, rename))
    ensures Relocates(log[0].tree, log[|log| - 1].tree, Fate(plan, log, central, rename))
  {
    var n := |log| - 1;
    hide StepTaken, WellFormed, Relocates, StepMap;
    StepRelocates(log[n - 1].tree, log[n], plan[n - 1], central, rename);
    ComposeRelocates(log[0].tree, log[n - 1].tree, log[n].tree, Fate(plan, log[..n], central, rename),
                     LastMap(plan, log, central, rename));
  }

  lemma Standing(a: Tree, b: Tree, at: map<Path, Path>, p: Path)
    requires Relocates(a, b, at) && p in at
    ensures p in a && at[p] in b && b[at[p]] == a[p]
  {
  }

  lemma TakenEarlier(plan: seq<Step>, log: seq<Moment>, central: Path, rename: Answers, k: int, q: Path)
    requires RunOf(plan, log, central, rename) && |log| > 1 && RunOf(plan, log[..|log| - 1], central, rename)
    requires TakenAt(plan, log[..|log| - 1], central, rename, k, q)
    ensures TakenAt(plan, log, central, rename, k, q) && log[k] == log[..|log| - 1][k]
  {
    hide StepTaken, WellFormed, Taken;
  }

  lemma TakenLast(plan: seq<Step>, log: seq<Moment>, central: Path, rename: Answers, q: Path)
    requires RunOf(plan, log, central, rename) && |log| > 1 && q in log[|log| - 2].tree && !log[|log| - 2].tree[q].Special?
    requires q !in LastMap(plan, log, central, rename)
    ensures TakenAt(plan, log, central, rename, |log| - 2, q)
  {
    hide StepTaken, WellFormed, Taken;
  }

  lemma LastStepTakes(plan: seq<Step>, log: seq<Moment>, central: Path, rename: Answers)
    requires RunOf(plan, log, central, rename) && |log| > 1 && RunOf(plan, log[..|log| - 1], central, rename)
    requires Relocates(log[0].tree, log[|log| - 2].tree, Fate(plan, log[..|log| - 1], central, rename))
    requires LossesTaken(plan, log[..|log| - 1], central, rename)
    ensures LossesTaken(plan, log, central, rename)
  {
    var n := |log| - 1;
    var a, shorter, step := log[0].tree, Fate(plan, log[..n], central, rename), LastMap(plan, log, central, rename);
    var fate := Fate(plan, log, central, rename);
    assert fate == Compose(shorter, step);
    hide StepTaken, WellFormed, Taken, Fate, Relocates, RunOf;
    forall p | p in a && !a[p].Special? && p !in fate
      ensures exists k, q :: TakenAt(plan, log, central, rename, k, q) && log[k].tree[q] == a[p]
    {
      if p in shorter {
        Standing(a, log[n - 1].tree, shorter, p);
        TakenLast(plan, log, central, rename, shorter[p]);
      } else {
        var k, q :| TakenAt(plan, log[..n], central, rename, k, q) && log[..n][k].tree[q] == a[p];
        TakenEarlier(plan, log, central, rename, k, q);
      }
    }
  }

  lemma LastStepPuts(plan: seq<Step>, log: seq<Moment>, central: Path, rename: Answers)
    requires RunOf(plan, log, central, rename) && |log| > 1 && RunOf(plan, log[..|log| - 1], central, rename)
    requires MovesPut(plan, log[..|log| - 1], central, rename)
    ensures MovesPut(plan, log, central, rename)
  {
    var n := |log| - 1;
    var shorter, step := Fate(plan, log[..n], central, rename), LastMap(plan, log, central, rename);
    var fate := Fate(plan, log, central, rename);
    assert fate == Compose(shorter, step);
    hide StepTaken, WellFormed, Taken, Fate;
    forall p | p in fate && fate[p] != p ensures exists k :: PutAt(log, k, fate[p]) {
      if step[shorter[p]] != shorter[p] {
        assert PutAt(log, n, fate[p]);
      } else {
        var k :| PutAt(log[..n], k, shorter[p]);
        assert PutAt(log, k, fate[p]);
      }
    }
  }

  // ---------------------------------------------------------------- what a step may take away

  /** A link on the way that leads nowhere leaves nothing at the end. */
  lemma {:induction false} DanglingIsAbsent(t: Tree, p: Path)
    requires WellFormed(t) && Dangles(t, p)
    ensures var l := Landing(t, p, MAX_HOPS); l.Some? ==> l.value !in t
    decreases |p|
  {
    var d := Landing(t, Parent(p), MAX_HOPS);
    if d.Some? && Dangles(t, Parent(p)) {
      DanglingIsAbsent(t, Parent(p));
      if d.value + [Last(p)] in t { AbsentIsEmpty(t, d.value, d.value + [Last(p)]); }
    }
  }

  lemma TargetInStore(t: Tree, central: Path, n: nat)
    requires WellFormed(t) && n < |NAMES|
    ensures var q := TargetAt(t, central, n); q.Some? && q.value in t ==> !Dangles(t, central)
  {
    var d := Landing(t, central, MAX_HOPS);
    if Dangles(t, central) && d.Some? {
      DanglingIsAbsent(t, central);
      if d.value + [NAMES[n]] in t { AbsentIsEmpty(t, d.value, d.value + [NAMES[n]]); }
    }
  }

  /**
   * When an entry that was there is changed by a step that moves: exactly when it is the target, the
   * guards let the move through, the source is no directory and the rename is taken (and the source
   * does not happen to be an equal link). It is a link that leads nowhere, and it now is the source.
   */
  lemma OverwrittenExactly(t: Tree, m: Moment, root: Path, n: nat, central: Path, rename: Answers, q: Path)
    requires WellFormed(t) && StepTaken(t, m, Carry(root, n), central, rename) && q in t
    requires var src := SourceAt(t, root, n); !(src.Some? && src.value <= q)
    ensures var src := SourceAt(t, root, n);
      !Same(t, m.tree, q) <==>
        && TargetAt(t, central, n) == Some(q) && !ExistsAt(t, q)
        && src.Some? && src.value in t && ExistsAt(t, src.value)
        && !t[src.value].Directory? && rename(src.value, q).Renamed? && t[src.value] != t[q]
    ensures !Same(t, m.tree, q) ==> m.ok && t[q].Link? && q in m.tree && m.tree[q] == t[SourceAt(t, root, n).value]
  {
    TargetInStore(t, central, n);
    if q != [] { ExistsMeans(t, q); }
    hide WellFormed, Dangles, ExistsAt, Landing, Carried, LandsAt;
    if Acts(t, root, n, central) { SourceIsThere(t, root, n, central); }
  }

  /** A step takes away a link that leads nowhere and is replaced, or an empty legacy directory; never a file. */
  lemma TakenMeans(t: Tree, m: Moment, s: Step, central: Path, rename: Answers, q: Path)
    requires WellFormed(t) && StepTaken(t, m, s, central, rename) && q in t && Taken(t, m, s, central, rename, q)
    ensures if s.Carry? then q != [] && t[q].Link? && !ExistsAt(t, q) else Place(t, s.root, LEGACY) == Some(q) && EmptyDirectory(t, q)
  {
    if s.Carry? {
      SourceIsThere(t, s.root, s.n, central);
      ExistsMeans(t, q);
    }
  }

  /** Where a step puts its source: at the target, or across file systems where the link at the target leads. */
  lemma LandedWhere(t: Tree, m: Moment, root: Path, n: nat, central: Path, rename: Answers)
    requires WellFormed(t) && StepTaken(t, m, Carry(root, n), central, rename) && m.landed.Some?
    ensures var src, dest := SourceAt(t, root, n), TargetAt(t, central, n);
      && src.Some? && src.value in t && dest.Some?
      && (m.landed == dest || t[src.value].Special?
          || (dest.value in t && t[dest.value].Link? && rename(src.value, dest.value).CrossDevice? && t[src.value].Regular?
              && m.landed == Settle(t, dest.value, MAX_HOPS) && m.landed.value !in t))
  {
    SourceIsThere(t, root, n, central);
    ExistsMeans(t, TargetAt(t, central, n).value);
  }

  /** Unless the step failed, a source that exists has arrived whole at a target that was absent. */
  ghost predicate SourceArrived(t: Tree, u: Tree, s: Step, central: Path) {
    s.Carry? && s.n < |NAMES| && Acts(t, s.root, s.n, central)
      && TargetAt(t, central, s.n).Some? && TargetAt(t, central, s.n).value !in t ==>
    var src, dest := SourceAt(t, s.root, s.n), TargetAt(t, central, s.n);
    src.Some? && Nothing(u, src.value) && (Arrived(t, src.value, u, dest.value) || Copied(t, src.value, u, dest.value))
  }

  lemma StepArrives(t: Tree, m: Moment, s: Step, central: Path, rename: Answers)
    requires StepTaken(t, m, s, central, rename) && m.ok
    ensures SourceArrived(t, m.tree, s, central)
  {
  }

  /** Every file is whole at a place of its own. */
  ghost predicate MigrationSafe(a: Tree, b: Tree, fate: map<Path, Path>) {
    Relocates(a, b, fate) && forall p :: p in a && a[p].Regular? ==> p in fate
  }

  lemma RunKeeps(plan: seq<Step>, log: seq<Moment>, central: Path, rename: Answers)
    requires RunOf(plan, log, central, rename)
    ensures MigrationSafe(log[0].tree, log[|log| - 1].tree, Fate(plan, log, central, rename))
    ensures LossesTaken(plan, log, central, rename) && MovesPut(plan, log, central, rename)
  {
    RunRelocates(plan, log, central, rename);
    var a, fate := log[0].tree, Fate(plan, log, central, rename);
    hide StepTaken, WellFormed, Taken, Fate, Relocates;
    forall p | p in a && a[p].Regular? ensures p in fate {
      if p !in fate {
        var k, q :| TakenAt(plan, log, central, rename, k, q) && log[k].tree[q] == a[p];
        TakenMeans(log[k].tree, log[k + 1], plan[k], central, rename, q);
      }
    }
  }

  lemma AllArrive(plan: seq<Step>, log: seq<Moment>, central: Path, rename: Answers)
    requires RunOf(plan, log, central, rename) && log[|log| - 1].ok
    ensures forall k :: 0 <= k < |log| - 1 ==> SourceArrived(log[k].tree, log[k + 1].tree, plan[k], central)
  {
    hide StepTaken, WellFormed, SourceArrived;
    forall k | 0 <= k < |log| - 1 ensures SourceArrived(log[k].tree, log[k + 1].tree, plan[k], central) {
      assert log[k + 1].ok;
      StepArrives(log[k].tree, log[k + 1], plan[k], central, rename);
    }
  }

  // ---------------------------------------------------------------- the migration

  /** One entry of one legacy directory. */
  method MigrateEntry(fs: FileSystem, root: Path, n: nat, central: Path) returns (ok: bool, landed: Option<Path>)
    requires WellFormed(fs.entries) && n < |NAMES|
    modifies fs`entries
    ensures WellFormed(fs.entries)
    ensures StepTaken(old(fs.entries), Moment(fs.entries, ok, landed), Carry(root, n), central, fs.rename)
  {
    hide WellFormed, MoveDone, Dangles, ExistsAt, SourceAt, TargetAt;
    var src, target := SourceAt(fs.entries, root, n), TargetAt(fs.entries, central, n);
    if !Exists(fs.entries, src) || Exists(fs.entries, target) { return true, None; }
    SourceIsThere(fs.entries, root, n, central);
    if target.None? || Dangles(fs.entries, central) { return false, None; }  // mkdirSync throws
    ok, landed := fs.MoveVerified(src.value, target.value);
  }

  /** The removal of an emptied legacy directory; an error is only logged. */
  method DropLegacy(fs: FileSystem, root: Path, ghost central: Path)
    requires WellFormed(fs.entries)
    modifies fs`entries
    ensures WellFormed(fs.entries)
    ensures StepTaken(old(fs.entries), Moment(fs.entries, true, None), Drop(root), central, fs.rename)
  {
    var legacy := Place(fs.entries, root, LEGACY);
    var removable: bool := *;
    if removable && legacy.Some? && EmptyDirectory(fs.entries, legacy.value) {
      DropIsWellFormed(fs.entries, legacy.value);
      fs.entries := fs.entries - {legacy.value};
    }
  }

  lemma NameInParent(t: Tree, p: Path)
    requires p in t && p != []
    ensures p[|p| - 1] in Names(t, Parent(p))
  {
    NameMeans(t, Parent(p), p[|p| - 1]);
    assert Parent(p) + [p[|p| - 1]] == p;
  }

  lemma DropIsWellFormed(t: Tree, legacy: Path)
    requires WellFormed(t) && legacy != [] && Names(t, legacy) == {}
    ensures WellFormed(t - {legacy})
  {
    var c := t - {legacy};
    forall p | p in c && p != [] ensures Parent(p) in c && c[Parent(p)].Directory? { NameInParent(t, p); }
  }

  /** Without a legacy directory none of its steps does anything. */
  lemma NothingToMigrate(t: Tree, root: Path, central: Path, rename: Answers)
    requires WellFormed(t)
    requires var legacy := Landing(t, LegacyOf(root), MAX_HOPS); legacy.Some? ==> legacy.value !in t
    ensures forall s :: s in StepsOf(root) ==> StepTaken(t, Moment(t, true, None), s, central, rename)
  {
    forall n: nat | n < |NAMES| ensures !Acts(t, root, n, central) {
      var d := Landing(t, LegacyOf(root), MAX_HOPS);
      if d.Some? {
        if d.value + [NAMES[n]] in t { AbsentIsEmpty(t, d.value, d.value + [NAMES[n]]); }
        ExistsMeans(t, d.value + [NAMES[n]]);
      }
    }
  }

  /** One root: its entries are moved in order, and the legacy directory is dropped when nothing is left in it. */
  method MigrateRoot(fs: FileSystem, root: Path, central: Path, ghost plan: seq<Step>, ghost log: seq<Moment>)
    returns (ok: bool, ghost longer: seq<Moment>)
    requires RunOf(plan, log, central, fs.rename) && |log| == |plan| + 1
    requires log[|plan|].ok && log[|plan|].tree == fs.entries
    modifies fs`entries
    ensures RunOf(plan + StepsOf(root), longer, central, fs.rename) && longer[0] == log[0]
    ensures longer[|longer| - 1].tree == fs.entries && longer[|longer| - 1].ok == ok
    ensures ok ==> |longer| == |plan| + |StepsOf(root)| + 1
  {
    hide StepTaken, WellFormed, Landing;
    ghost var steps := StepsOf(root);
    TreeIsWellFormed(plan, log, central, fs.rename);
    var legacy := Landing(fs.entries, LegacyOf(root), MAX_HOPS);
    if legacy.None? || legacy.value !in fs.entries {
      NothingToMigrate(fs.entries, root, central, fs.rename);
      longer := IdleRun(plan, log, steps, Moment(fs.entries, true, None), central, fs.rename);
      return true, longer;
    }
    longer := log;
    assert steps[..0] == [] && plan + [] == plan;
    for n := 0 to |NAMES|
      invariant RunOf(plan + steps[..n], longer, central, fs.rename) && |longer| == |plan| + n + 1 && longer[0] == log[0]
      invariant longer[|plan| + n].ok && longer[|plan| + n].tree == fs.entries && WellFormed(fs.entries)
    {
      var landed;
      ok, landed := MigrateEntry(fs, root, n, central);
      ghost var m := Moment(fs.entries, ok, landed);
      RunGoesOn(plan + steps[..n], longer, steps[n], m, central, fs.rename);
      longer := longer + [m];
      assert plan + steps[..n + 1] == plan + steps[..n] + [steps[n]];
      if !ok {
        RunStops(plan + steps[..n + 1], steps[n + 1..], longer, central, fs.rename);
        assert plan + steps[..n + 1] + steps[n + 1..] == plan + steps;
        return;
      }
    }
    DropLegacy(fs, root, central);
    ghost var m := Moment(fs.entries, true, None);
    RunGoesOn(plan + steps[..3], longer, Drop(root), m, central, fs.rename);
    assert plan + steps == plan + steps[..3] + [Drop(root)];
    longer := longer + [m];
    ok := true;
  }

  lemma TreeIsWellFormed(plan: seq<Step>, log: seq<Moment>, central: Path, rename: Answers)
    requires RunOf(plan, log, central, rename)
    ensures WellFormed(log[|log| - 1].tree)
  {
  }

  /** A run goes on with steps that do nothing. */
  ghost method IdleRun(plan: seq<Step>, log: seq<Moment>, steps: seq<Step>, same: Moment, central: Path, rename: Answers)
    returns (longer: seq<Moment>)
    requires RunOf(plan, log, central, rename) && |log| == |plan| + 1 && log[|plan|].ok
    requires same.ok && log[|plan|].tree == same.tree
    requires forall s :: s in steps ==> StepTaken(same.tree, same, s, central, rename)
    ensures RunOf(plan + steps, longer, central, rename) && |longer| == |plan| + |steps| + 1
    ensures longer[0] == log[0] && longer[|plan| + |steps|].ok && longer[|plan| + |steps|].tree == same.tree
  {
    hide StepTaken, WellFormed;
    longer := log;
    TreeIsWellFormed(plan, log, central, rename);
    assert steps[..0] == [] && plan + [] == plan;
    for n := 0 to |steps|
      invariant RunOf(plan + steps[..n], longer, central, rename) && |longer| == |plan| + n + 1
      invariant longer[0] == log[0] && longer[|plan| + n].ok && longer[|plan| + n].tree == same.tree
    {
      RunGoesOn(plan + steps[..n], longer, steps[n], same, central, rename);
      assert plan + steps[..n + 1] == plan + steps[..n] + [steps[n]];
      longer := longer + [same];
    }
    assert steps[..|steps|] == steps;
  }

  /**
   * `migrateLegacyProjectData`, for any tree and any links in it. `log` tells step by step what was
   * done; wherever it stops every file is whole at a place of its own, and whatever else is missing
   * was taken away by a step. Unless it fails, every source that exists arrives at an absent target.
   */
  method MigrateLegacyProjectData(fs: FileSystem, roots: seq<Path>, central: Path) returns (ok: bool, ghost log: seq<Moment>)
    requires WellFormed(fs.entries)
    modifies fs`entries
    ensures RunOf(Plan(roots), log, central, fs.rename) && (ok ==> |log| == |Plan(roots)| + 1)
    ensures log[0].tree == old(fs.entries) && log[|log| - 1].tree == fs.entries && log[|log| - 1].ok == ok
    ensures MigrationSafe(old(fs.entries), fs.entries, Fate(Plan(roots), log, central, fs.rename))
    ensures LossesTaken(Plan(roots), log, central, fs.rename) && MovesPut(Plan(roots), log, central, fs.rename)
    ensures ok ==> forall k :: 0 <= k < |Plan(roots)| ==>
      SourceArrived(log[k].tree, log[k + 1].tree, Plan(roots)[k], central)
  {
    hide StepTaken, WellFormed, SourceArrived, LossesTaken, MovesPut, MigrationSafe, Fate;
    log := [Moment(fs.entries, true, None)];
    assert roots[..0] == [];
    for i := 0 to |roots|
      invariant RunOf(Plan(roots[..i]), log, central, fs.rename) && |log| == |Plan(roots[..i])| + 1
      invariant log[0].tree == old(fs.entries) && log[|log| - 1].tree == fs.entries && log[|log| - 1].ok
    {
      ok, log := MigrateRoot(fs, roots[i], central, Plan(roots[..i]), log);
      assert roots[..i + 1][..i] == roots[..i];
      if !ok {
        PlanPrefix(roots, i + 1);
        ghost var more :| Plan(roots) == Plan(roots[..i + 1]) + more;
        RunStops(Plan(roots[..i + 1]), more, log, central, fs.rename);
        RunKeeps(Plan(roots), log, central, fs.rename);
        return;
      }
    }
    assert roots[..|roots|] == roots;
    RunKeeps(Plan(roots), log, central, fs.rename);
    AllArrive(Plan(roots), log, central, fs.rename);
    ok := true;
  }

  lemma {:induction false} PlanPrefix(roots: seq<Path>, i: nat)
    requires i <= |roots|
    ensures exists more :: Plan(roots) == Plan(roots[..i]) + more
  {
    if i == |roots| {
      assert roots[..i] == roots && Plan(roots) == Plan(roots[..i]) + [];
    } else {
      var n := |roots| - 1;
      PlanPrefix(roots[..n], i);
      assert roots[..n][..i] == roots[..i];
      var more :| Plan(roots[..n]) == Plan(roots[..i]) + more;
      assert Plan(roots) == Plan(roots[..i]) + (more + StepsOf(roots[n]));
    }
  }

  // ---------------------------------------------------------------- a link that leads nowhere

  /** A permissions file in the legacy directory, and in the central store a link to nothing in its place. */
  function LinkedStore(): Tree {
    map[
      [] := Directory,
      ["w"] := Directory,
      ["w", LEGACY] := Directory,
      ["w", LEGACY, "permissions.json"] := Regular("{}"),
      ["c"] := Directory,
      ["c", "permissions.json"] := Link(Absolute(["gone"]))]
  }

  lemma {:induction false} RealPath(t: Tree, p: Path, hops: nat)
    requires WellFormed(t) && p in t && !t[p].Link?
    ensures Landing(t, p, hops) == Some(p)
    decreases |p|
  {
    if p != [] {
      RealPath(t, Parent(p), hops);
      assert Parent(p) + [Last(p)] == p;
    }
  }

  lemma LinkedStoreIsTree()
    ensures WellFormed(LinkedStore()) && ["gone"] !in LinkedStore()
  {
    assert Parent(["w"]) == [] && Parent(["c"]) == [];
    assert Parent(["w", LEGACY]) == ["w"] && Parent(["w", LEGACY, "permissions.json"]) == ["w", LEGACY];
    assert Parent(["c", "permissions.json"]) == ["c"];
    assert ["gone"][0] != "w" && ["gone"][0] != "c";
  }

  /** The places that the steps of the example look at. */
  lemma LinkedStorePlaces(n: nat)
    requires n < |NAMES|
    ensures var t := LinkedStore();
      SourceAt(t, ["w"], n) == Some(["w", LEGACY, NAMES[n]]) && TargetAt(t, ["c"], n) == Some(["c", NAMES[n]])
  {
    var t := LinkedStore();
    LinkedStoreIsTree();
    assert LegacyOf(["w"]) == ["w", LEGACY];
    RealPath(t, ["w", LEGACY], MAX_HOPS);
    RealPath(t, ["c"], MAX_HOPS);
    hide Landing, Settle, LinkedStore, WellFormed;
    assert ["w", LEGACY] + [NAMES[n]] == ["w", LEGACY, NAMES[n]] && ["c"] + [NAMES[n]] == ["c", NAMES[n]];
  }

  /** The link of the example leads to a path where nothing is. */
  lemma LinkedStoreDangles()
    ensures Settle(LinkedStore(), ["c", "permissions.json"], MAX_HOPS) == Some(["gone"])
    ensures !ExistsAt(LinkedStore(), ["c", "permissions.json"]) && ExistsAt(LinkedStore(), ["w", LEGACY, "permissions.json"])
  {
    var t := LinkedStore();
    LinkedStoreIsTree();
    RealPath(t, [], MAX_HOPS - 1);
    assert Parent(["gone"]) == [] && [] + [Last(["gone"])] == ["gone"];
    hide WellFormed;
    assert Landing(t, ["gone"], MAX_HOPS - 1) == Some(["gone"]);
  }

  lemma LinkedStoreActs(n: nat)
    requires n < |NAMES|
    ensures var t := LinkedStore();
      && SourceAt(t, ["w"], n) == Some(["w", LEGACY, NAMES[n]]) && TargetAt(t, ["c"], n) == Some(["c", NAMES[n]])
      && (Acts(t, ["w"], n, ["c"]) <==> n == 2)
    ensures Settle(LinkedStore(), ["c", "permissions.json"], MAX_HOPS) == Some(["gone"])
    ensures !ExistsAt(LinkedStore(), ["c", "permissions.json"]) && ExistsAt(LinkedStore(), ["w", LEGACY, "permissions.json"])
  {
    LinkedStorePlaces(n);
    LinkedStoreDangles();
    hide SourceAt, TargetAt, ExistsAt;
    if n < 2 {
      assert ["w", LEGACY, NAMES[n]][2] == NAMES[n];
      assert ["w", LEGACY, NAMES[n]] !in LinkedStore();
      ExistsMeans(LinkedStore(), ["w", LEGACY, NAMES[n]]);
    }
  }

  /** On one file system the run replaces the link by the file. */
  method LinkIsOverwritten() returns (fs: FileSystem)
    ensures ["c", "permissions.json"] in fs.entries && fs.entries[["c", "permissions.json"]] == Regular("{}")
  {
    hide *;
    LinkedStoreIsTree();
    fs := new FileSystem(LinkedStore(), (src, dest) => Renamed);
    var ok, log := MigrateLegacyProjectData(fs, [["w"]], ["c"]);
    PlanOfOne(["w"]);
    Overwritten(log, fs.rename);
  }

  lemma Overwritten(log: seq<Moment>, rename: Answers)
    requires RunOf(StepsOf(["w"]), log, ["c"], rename) && log[0].tree == LinkedStore() && (|log| == 5 || !log[|log| - 1].ok)
    requires rename(["w", LEGACY, "permissions.json"], ["c", "permissions.json"]).Renamed?
    ensures var b, q := log[|log| - 1].tree, ["c", "permissions.json"]; q in b && b[q] == Regular("{}")
  {
    var q := ["c", "permissions.json"];
    FirstSteps(log, rename);
    LinkedStoreIsTree();
    LinkedStoreActs(2);
    hide StepTaken, WellFormed;
    assert StepsOf(["w"])[2] == Carry(["w"], 2);
    assert !(["w", LEGACY, "permissions.json"] <= q);
    OverwrittenExactly(log[2].tree, log[3], ["w"], 2, ["c"], rename, q);
    LastStepKeeps(log, rename, q);
  }

  /** Across file systems the run leaves the link alone and writes the file where the link leads. */
  method LinkIsWrittenThrough() returns (fs: FileSystem, ok: bool)
    ensures ["c", "permissions.json"] in fs.entries && fs.entries[["c", "permissions.json"]].Link?
    ensures ok ==> ["gone"] in fs.entries && fs.entries[["gone"]] == Regular("{}")
  {
    hide *;
    LinkedStoreIsTree();
    fs := new FileSystem(LinkedStore(), (src, dest) => CrossDevice);
    ghost var log;
    ok, log := MigrateLegacyProjectData(fs, [["w"]], ["c"]);
    PlanOfOne(["w"]);
    WrittenThrough(log, fs.rename);
  }

  lemma WrittenThrough(log: seq<Moment>, rename: Answers)
    requires RunOf(StepsOf(["w"]), log, ["c"], rename) && log[0].tree == LinkedStore() && (|log| == 5 || !log[|log| - 1].ok)
    requires rename(["w", LEGACY, "permissions.json"], ["c", "permissions.json"]).CrossDevice?
    ensures var b, q := log[|log| - 1].tree, ["c", "permissions.json"]; q in b && b[q].Link?
    ensures var b := log[|log| - 1].tree; log[|log| - 1].ok ==> ["gone"] in b && b[["gone"]] == Regular("{}")
  {
    var t, q, src := LinkedStore(), ["c", "permissions.json"], ["w", LEGACY, "permissions.json"];
    FirstSteps(log, rename);
    LinkedStoreIsTree();
    LinkedStoreActs(2);
    assert StepsOf(["w"])[2] == Carry(["w"], 2);
    assert !(src <= q);
    OverwrittenExactly(t, log[3], ["w"], 2, ["c"], rename, q);
    LastStepKeeps(log, rename, q);
    if log[3].ok {
      SourceIsThere(t, ["w"], 2, ["c"]);
      LandedWhere(t, log[3], ["w"], 2, ["c"], rename);
      assert ["gone"] + src[|src|..] == ["gone"];
      LastStepKeeps(log, rename, ["gone"]);
    }
  }

  /** The last step of the example run takes away at most the legacy directory. */
  lemma LastStepKeeps(log: seq<Moment>, rename: Answers, q: Path)
    requires RunOf(StepsOf(["w"]), log, ["c"], rename) && 4 <= |log| <= 5 && q in log[3].tree && !log[3].tree[q].Directory?
    ensures q in log[|log| - 1].tree && log[|log| - 1].tree[q] == log[3].tree[q]
  {
    assert StepsOf(["w"])[3] == Drop(["w"]);
  }

  lemma PlanOfOne(root: Path)
    ensures Plan([root]) == StepsOf(root) && |StepsOf(root)| == 4
  {
    assert [root][..0] == [];
  }

  /** The first two entries are missing, so the run comes to the third with the tree as it was. */
  lemma FirstSteps(log: seq<Moment>, rename: Answers)
    requires RunOf(StepsOf(["w"]), log, ["c"], rename) && log[0].tree == LinkedStore()
    requires |log| == 5 || !log[|log| - 1].ok
    ensures |log| >= 4 && log[2].tree == LinkedStore()
  {
    LinkedStoreActs(0);
    LinkedStoreActs(1);
    hide Acts, SourceAt, TargetAt, WellFormed;
    assert StepsOf(["w"])[0] == Carry(["w"], 0) && StepsOf(["w"])[1] == Carry(["w"], 1);
  }
}
