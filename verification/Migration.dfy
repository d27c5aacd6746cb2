/** The migration of legacy project data: a rename, or a verified copy followed by a removal. */
module Migration {
  import opened Wrappers

  type Path = seq<string>

  /** What a link says: a path from the root, or one that first climbs from the link's own directory. */
  datatype Target = Absolute(path: Path) | Relative(up: nat, path: Path)

  datatype Entry = Directory | Link(target: Target) | Regular(bytes: string) | Special

  type Tree = map<Path, Entry>

  /** Every entry but the root stands in a directory. */
  predicate WellFormed(t: Tree) {
    && [] in t && t[[]].Directory?
    && forall p :: p in t && p != [] ==> Parent(p) in t && t[Parent(p)].Directory?
  }

  function Parent(p: Path): Path
    requires p != []
  {
    p[..|p| - 1]
  }

  ghost predicate Same(a: Tree, b: Tree, p: Path) { (p in a <==> p in b) && (p in a ==> a[p] == b[p]) }

  ghost predicate SameOutside(a: Tree, b: Tree, root: Path) { forall p: Path :: !(root <= p) ==> Same(a, b, p) }

  ghost predicate Nothing(t: Tree, root: Path) { forall p: Path :: root <= p ==> p !in t }

  predicate Unrelated(a: Path, b: Path) { !(a <= b) && !(b <= a) }

  /** The path under `src` that corresponds to `p` under `dest`. */
  function Origin(p: Path, src: Path, dest: Path): Path
    requires dest <= p
  {
    src + p[|dest|..]
  }

  /** What stands under `dest` in `b` is exactly what stands under `src` in `a`, special files apart. */
  ghost predicate Copied(a: Tree, src: Path, b: Tree, dest: Path) {
    forall p: Path :: dest <= p ==> CopiedAt(a, src, b, dest, p)
  }

  ghost predicate CopiedAt(a: Tree, src: Path, b: Tree, dest: Path, p: Path)
    requires dest <= p
  {
    var o := Origin(p, src, dest);
    (p in b <==> o in a && !a[o].Special?) && (p in b ==> b[p] == a[o])
  }

  lemma {:induction false} AbsentIsEmpty(t: Tree, root: Path, p: Path)
    requires WellFormed(t) && root !in t && root <= p
    ensures p !in t
    decreases |p|
  {
    if |p| > |root| {
      AbsentIsEmpty(t, root, Parent(p));
    } else {
      assert p == root;
    }
  }

  /** Only directories have anything below them. */
  lemma {:induction false} OnlyDirectories(t: Tree, root: Path, p: Path)
    requires WellFormed(t) && root < p && p in t
    ensures root in t && t[root].Directory?
    decreases |p|
  {
    if Parent(p) != root { OnlyDirectories(t, root, Parent(p)); }
  }

  ghost function Under(t: Tree, root: Path): set<Path> { set p | p in t && root <= p }

  function Names(t: Tree, dir: Path): set<string> {
    set p | p in t && |p| == |dir| + 1 && dir <= p :: p[|dir|]
  }

  lemma UnderShrinks(t: Tree, dir: Path, name: string)
    requires dir in t
    ensures |Under(t, dir + [name])| < |Under(t, dir)|
  {
    assert Under(t, dir + [name]) <= Under(t, dir) - {dir};
    SubsetSize(Under(t, dir + [name]), Under(t, dir) - {dir});
  }

  lemma {:induction false} SubsetSize<T>(a: set<T>, b: set<T>)
    requires a <= b
    ensures |a| <= |b|
  {
    if a != {} {
      var x :| x in a;
      SubsetSize(a - {x}, b - {x});
    }
  }

  lemma SameUnder(a: Tree, b: Tree, src: Path, dest: Path)
    requires SameOutside(a, b, dest) && Unrelated(src, dest)
    ensures forall p: Path :: src <= p ==> Same(a, b, p)
    ensures Under(a, src) == Under(b, src)
  {
    forall p: Path | src <= p ensures Same(a, b, p) {
      if dest <= p { Prefixes(src, dest, p); }
    }
    forall p: Path ensures p in Under(a, src) <==> p in Under(b, src) {
      if src <= p { assert Same(a, b, p); }
    }
  }

  lemma Prefixes(a: Path, b: Path, p: Path)
    requires a <= p && b <= p
    ensures a <= b || b <= a
  {
    if |a| <= |b| { assert a == p[..|a|] == b[..|a|]; } else { assert b == p[..|b|] == a[..|b|]; }
  }

  /** An entry that is no directory is copied by writing the same entry, or nothing for a special file. */
  lemma LeafCopied(a: Tree, src: Path, b: Tree, dest: Path)
    requires WellFormed(a) && src in a && !a[src].Directory?
    requires forall p: Path :: dest < p ==> p !in b
    ensures (if a[src].Special? then dest !in b else dest in b && b[dest] == a[src]) ==> Copied(a, src, b, dest)
  {
    forall p: Path | dest < p ensures Origin(p, src, dest) !in a {
      var o := Origin(p, src, dest);
      assert src <= o;
      if o in a { OnlyDirectories(a, src, o); }
    }
    forall p: Path | dest <= p
      ensures (if a[src].Special? then dest !in b else dest in b && b[dest] == a[src]) ==> CopiedAt(a, src, b, dest, p)
    {
      if |p| == |dest| {
        assert p == dest && Origin(p, src, dest) == src;
      } else {
        assert dest < p;
      }
    }
  }

  lemma SameNames(a: Tree, b: Tree, src: Path, dest: Path)
    requires SameOutside(a, b, dest) && Unrelated(src, dest)
    ensures Names(a, src) == Names(b, src)
  {
    SameUnder(a, b, src, dest);
    forall n ensures n in Names(a, src) <==> n in Names(b, src) {
      assert n in Names(a, src) <==> src + [n] in a by { NameMeans(a, src, n); }
      assert n in Names(b, src) <==> src + [n] in b by { NameMeans(b, src, n); }
      assert Same(a, b, src + [n]);
    }
  }

  lemma NameMeans(t: Tree, dir: Path, n: string)
    ensures n in Names(t, dir) <==> dir + [n] in t
  {
    if dir + [n] in t { assert (dir + [n])[|dir|] == n; }
    forall p | p in t && |p| == |dir| + 1 && dir <= p ensures p == dir + [p[|dir|]] {}
  }

  /** One child was copied: the others, done or not, are as they were. */
  lemma ChildCopied(before: Tree, mid: Tree, after: Tree, src: Path, dest: Path, name: string)
    requires Unrelated(src, dest) && SameOutside(before, mid, dest) && SameOutside(mid, after, dest + [name])
    ensures SameOutside(before, after, dest) && (dest in mid ==> dest in after && after[dest] == mid[dest])
    ensures Copied(mid, src + [name], after, dest + [name]) ==> Copied(before, src + [name], after, dest + [name])
    ensures forall n :: n != name && Copied(before, src + [n], mid, dest + [n]) ==> Copied(before, src + [n], after, dest + [n])
    ensures forall n :: n != name && Nothing(mid, dest + [n]) ==> Nothing(after, dest + [n])
  {
    SameUnder(before, mid, src, dest);
    forall p: Path | !(dest <= p) ensures Same(before, after, p) {
      assert !(dest + [name] <= p);
      assert Same(before, mid, p) && Same(mid, after, p);
    }
    assert Same(mid, after, dest);
    forall n, p: Path | n != name && dest + [n] <= p ensures Same(mid, after, p) {
      assert p[|dest|] == n;
    }
    forall n | n != name && Nothing(mid, dest + [n]) ensures Nothing(after, dest + [n]) {
      forall p: Path | dest + [n] <= p ensures p !in after { assert Same(mid, after, p) && p !in mid; }
    }
    forall n | n != name && Copied(before, src + [n], mid, dest + [n]) ensures Copied(before, src + [n], after, dest + [n]) {
      forall p: Path | dest + [n] <= p ensures CopiedAt(before, src + [n], after, dest + [n], p) {
        assert CopiedAt(before, src + [n], mid, dest + [n], p) && Same(mid, after, p);
      }
    }
    if Copied(mid, src + [name], after, dest + [name]) {
      forall p: Path | dest + [name] <= p ensures CopiedAt(before, src + [name], after, dest + [name], p) {
        assert CopiedAt(mid, src + [name], after, dest + [name], p);
        var o := Origin(p, src + [name], dest + [name]);
        assert src <= o && Same(before, mid, o);
      }
    }
  }

  /** A directory is copied once every name in it is. */
  lemma ChildrenCopied(before: Tree, src: Path, after: Tree, dest: Path)
    requires WellFormed(before) && src in before && before[src].Directory? && dest in after && after[dest].Directory?
    requires forall n :: n in Names(before, src) ==> Copied(before, src + [n], after, dest + [n])
    requires forall n :: n !in Names(before, src) ==> Nothing(after, dest + [n])
    ensures Copied(before, src, after, dest)
  {
    forall p: Path | dest <= p ensures CopiedAt(before, src, after, dest, p) {
      var o := Origin(p, src, dest);
      if |p| == |dest| {
        assert p == dest && o == src;
      } else {
        var n := p[|dest|];
        assert dest + [n] <= p && src + [n] <= o;
        NameMeans(before, src, n);
        assert o == Origin(p, src + [n], dest + [n]);
        if n in Names(before, src) {
          assert CopiedAt(before, src + [n], after, dest + [n], p);
        } else {
          assert p !in after;
          AbsentIsEmpty(before, src + [n], o);
        }
      }
    }
  }

  /** Between `a` and `b` only directories above `dir`, or `dir` itself, were added. */
  ghost predicate OnlyParents(a: Tree, b: Tree, dir: Path) {
    forall p: Path :: Same(a, b, p) || (p !in a && p in b && b[p].Directory? && p <= dir)
  }

  lemma AbsentBelow(t: Tree, root: Path)
    requires WellFormed(t) && root !in t
    ensures Nothing(t, root)
  {
    forall p: Path | root <= p ensures p !in t { AbsentIsEmpty(t, root, p); }
  }

  predicate Removable(t: Tree, src: Path, removed: set<Path>) {
    (forall p :: p in removed ==> src <= p) && WellFormed(t - removed)
  }

  datatype RenameResult = Renamed | CrossDevice | Failed

  function ArrivedPaths(t: Tree, src: Path, dest: Path): set<Path> {
    set p | p in t && src <= p :: dest + p[|src|..]
  }

  lemma ArrivedPathsMean(t: Tree, src: Path, dest: Path)
    ensures forall q :: q in ArrivedPaths(t, src, dest) <==> dest <= q && Origin(q, src, dest) in t
  {
    var r := ArrivedPaths(t, src, dest);
    forall q: Path | dest <= q && Origin(q, src, dest) in t ensures q in r {
      var o := Origin(q, src, dest);
      assert src <= o && dest + o[|src|..] == q;
    }
    forall q: Path | q in r ensures dest <= q && Origin(q, src, dest) in t {
      var p :| p in t && src <= p && q == dest + p[|src|..];
      assert q[|dest|..] == p[|src|..] && src + p[|src|..] == p;
    }
  }

  /** The tree after `src` was renamed to `dest`. */
  function Moved(t: Tree, src: Path, dest: Path): Tree {
    (map p | p in t && !(src <= p) && !(dest <= p) :: t[p])
    + (ArrivedPathsMean(t, src, dest); map q | q in ArrivedPaths(t, src, dest) :: t[Origin(q, src, dest)])
  }

  /** What stands under `dest` in `b` is exactly what stands under `src` in `a`. */
  ghost predicate Arrived(a: Tree, src: Path, b: Tree, dest: Path) {
    forall p: Path :: dest <= p ==>
      (p in b <==> Origin(p, src, dest) in a) && (p in b ==> b[p] == a[Origin(p, src, dest)])
  }

  lemma MovedMeans(t: Tree, src: Path, dest: Path)
    requires Unrelated(src, dest)
    ensures Arrived(t, src, Moved(t, src, dest), dest) && Nothing(Moved(t, src, dest), src)
    ensures forall p: Path :: !(src <= p) && !(dest <= p) ==> Same(t, Moved(t, src, dest), p)
  {
    ArrivedPathsMean(t, src, dest);
    var m := Moved(t, src, dest);
    forall p: Path | src <= p ensures p !in m {
      if dest <= p { Prefixes(src, dest, p); }
    }
  }

  lemma ArrivedParent(t: Tree, m: Tree, src: Path, dest: Path, p: Path)
    requires WellFormed(t) && Arrived(t, src, m, dest) && dest < p && p in m && src != []
    ensures Parent(p) in m && m[Parent(p)].Directory?
  {
    assert dest <= Parent(p) && Origin(Parent(p), src, dest) == Parent(Origin(p, src, dest));
  }

  lemma MovedIsWellFormed(t: Tree, src: Path, dest: Path)
    requires WellFormed(t) && src in t && src != [] && Unrelated(src, dest) && (dest in t ==> t[dest].Link?)
    requires dest != [] && Parent(dest) in t && t[Parent(dest)].Directory?
    ensures WellFormed(Moved(t, src, dest))
  {
    var m := Moved(t, src, dest);
    MovedMeans(t, src, dest);
    hide Moved;
    assert Same(t, m, []);
    forall p | p in m && p != [] ensures Parent(p) in m && m[Parent(p)].Directory? {
      if dest < p {
        ArrivedParent(t, m, src, dest, p);
      } else if dest <= p {
        assert p == dest;
        PrefixUp(src, dest);
        assert Same(t, m, Parent(dest));
      } else {
        PrefixUp(src, p);
        assert Same(t, m, p);
        NotBelowLink(t, dest, p);
        assert Same(t, m, Parent(p));
      }
    }
  }

  lemma PrefixUp(a: Path, p: Path)
    requires p != []
    ensures a <= Parent(p) ==> a <= p
  {
  }

  lemma NotBelowLink(t: Tree, dest: Path, p: Path)
    requires WellFormed(t) && p in t && p != [] && (dest in t ==> t[dest].Link?)
    ensures !(dest <= Parent(p))
  {
    if dest <= Parent(p) {
      PrefixUp(dest, p);
      OnlyDirectories(t, dest, p);
    }
  }

  lemma ParentsStep(a: Tree, mid: Tree, b: Tree, dir: Path)
    requires dir != [] && OnlyParents(a, mid, Parent(dir)) && SameOutside(mid, b, dir) && dir !in mid
    requires forall p: Path :: dir < p ==> p !in b && p !in mid
    requires dir in b ==> b[dir].Directory?
    ensures OnlyParents(a, b, dir)
  {
    forall p: Path ensures Same(a, b, p) || (p !in a && p in b && b[p].Directory? && p <= dir) {
      assert Same(a, mid, p) || (p !in a && p in mid && mid[p].Directory? && p <= Parent(dir));
      if !(dir <= p) {
        assert Same(mid, b, p);
      } else if |p| == |dir| {
        assert p == dir;
      } else {
        assert dir < p;
      }
    }
  }

  lemma RootIsThere(t: Tree)
    requires WellFormed(t)
    ensures [] in t
  {
  }

  lemma StillAbsent(a: Tree, b: Tree, dir: Path)
    requires dir != [] && Nothing(a, dir) && OnlyParents(a, b, Parent(dir))
    ensures Nothing(b, dir) && OnlyParents(a, b, dir)
  {
    forall p: Path ensures (dir <= p ==> p !in b) && (p <= Parent(dir) ==> p <= dir) {
      assert Same(a, b, p) || p <= Parent(dir);
    }
  }

  function Cut(t: Tree, src: Path): Tree { map p | p in t && !(src <= p) :: t[p] }

  lemma CutIsWellFormed(t: Tree, src: Path)
    requires WellFormed(t) && src != []
    ensures WellFormed(Cut(t, src)) && SameOutside(t, Cut(t, src), src) && Nothing(Cut(t, src), src)
  {
    assert |src| > 0 && !(src <= []);
    forall p | p in t && p != [] && !(src <= p) ensures !(src <= Parent(p)) { PrefixUp(src, p); }
  }

  ghost predicate NoSpecial(t: Tree, src: Path) { forall p: Path :: src <= p && p in t ==> !t[p].Special? }

  /** A verified copy is complete exactly when the source holds no special file. */
  lemma CopyIsComplete(a: Tree, src: Path, b: Tree, dest: Path)
    requires Copied(a, src, b, dest)
    ensures Arrived(a, src, b, dest) <==> NoSpecial(a, src)
  {
    forall p: Path | src <= p ensures Origin(dest + p[|src|..], src, dest) == p {
      assert (dest + p[|src|..])[|dest|..] == p[|src|..];
    }
    if Arrived(a, src, b, dest) {
      forall p: Path | src <= p && p in a ensures !a[p].Special? {
        assert CopiedAt(a, src, b, dest, dest + p[|src|..]);
      }
    } else if NoSpecial(a, src) {
      forall p: Path | dest <= p ensures
        (p in b <==> Origin(p, src, dest) in a) && (p in b ==> b[p] == a[Origin(p, src, dest)])
      {
        assert CopiedAt(a, src, b, dest, p) && src <= Origin(p, src, dest);
      }
    }
  }

  // ---------------------------------------------------------------- links

  function Last(p: Path): string
    requires p != []
  {
    p[|p| - 1]
  }

  /** The path that the link at `q` names. */
  function Named(q: Path, target: Target): Path
    requires q != []
  {
    match target
    case Absolute(path) => path
    case Relative(up, path) => (if up < |q| then q[..|q| - 1 - up] else []) + path
  }

  /** Where `p` leads once the links on its way and at its end are followed; the last part need not exist. */
  function Landing(t: Tree, p: Path, hops: nat): (r: Option<Path>)
    decreases hops, |p|
  {
    if p == [] then Some([])
    else
      match Landing(t, Parent(p), hops)
      case None => None
      case Some(d) => Settle(t, d + [Last(p)], hops)
  }

  /** Follows the entry at `q` as long as it is a link. */
  function Settle(t: Tree, q: Path, hops: nat): Option<Path>
    requires q != []
    decreases hops, 0
  {
    if q in t && t[q].Link? then
      if hops == 0 then None else Landing(t, Named(q, t[q].target), hops - 1)
    else Some(q)
  }

  const MAX_HOPS := 40

  /** Something is found behind the entry at `q`. */
  predicate ExistsAt(t: Tree, q: Path)
    requires q != []
  {
    var s := Settle(t, q, MAX_HOPS); s.Some? && s.value in t
  }

  lemma ExistsMeans(t: Tree, q: Path)
    requires q != []
    ensures ExistsAt(t, q) ==> q in t
    ensures q in t && !ExistsAt(t, q) ==> t[q].Link?
  {
  }

  /** The entry that a name in a directory stands for; the entry itself is not followed. */
  function Place(t: Tree, dir: Path, name: string): (place: Option<Path>)
    ensures place.Some? ==> place.value != []
  {
    var d := Landing(t, dir, MAX_HOPS); if d.Some? then Some(d.value + [name]) else None
  }

  /** `existsSync`: a symbolic link exists when what it leads to does. */
  predicate Exists(t: Tree, place: Option<Path>) { place.Some? && place.value != [] && ExistsAt(t, place.value) }

  /** A link on the way to `p`, or at its end, leads nowhere; then `p` cannot be made a directory. */
  predicate Dangles(t: Tree, p: Path) {
    p != [] && (Dangles(t, Parent(p)) || var q := Place(t, Parent(p), Last(p)); q.None? || (q.value in t && !Exists(t, q)))
  }

  // ---------------------------------------------------------------- one move

  /** Under a target that exists nothing leads nowhere, so a guarded target never contains its source. */
  lemma TargetBesideSource(t: Tree, src: Path, dest: Path)
    requires WellFormed(t) && src in t && dest != [] && src != [] && ExistsAt(t, src) && !ExistsAt(t, dest)
    ensures !(dest <= src)
  {
    ExistsMeans(t, dest);
    assert dest <= src && |dest| >= |src| ==> dest == src;
    if dest < src { OnlyDirectories(t, dest, src); }
  }

  /** With the guard passed: a link that leads nowhere stands at the target, and the rename replaces it. */
  predicate Overwrites(t: Tree, src: Path, dest: Path, answer: RenameResult)
    requires src in t
  {
    dest in t && !t[src].Directory? && answer.Renamed?
  }

  /** Every entry under `src`, special files apart, is at its place under `q`. */
  ghost predicate Carried(t: Tree, src: Path, u: Tree, q: Path) {
    forall p: Path :: src <= p && p in t && !t[p].Special? ==> q + p[|src|..] in u && u[q + p[|src|..]] == t[p]
  }

  /** The source comes to lie at the target, or where the link that stands there leads. */
  ghost predicate LandsAt(t: Tree, src: Path, dest: Path, q: Path, answer: RenameResult)
    requires src in t && dest != []
  {
    || t[src].Special?
    || (q == dest && (dest !in t || Overwrites(t, src, dest, answer)))
    || (dest in t && t[src].Regular? && answer.CrossDevice? && Settle(t, dest, MAX_HOPS) == Some(q) && q !in t)
  }

  /**
   * What a move may do wherever it stops: until the source is whole at its new place every entry
   * stays, and after that the source may go. The one other entry that can change is an overwritten link.
   */
  ghost predicate MoveSafe(t: Tree, u: Tree, src: Path, dest: Path, landed: Option<Path>, answer: RenameResult)
    requires src in t && dest != []
  {
    && (forall p :: p in t && !(src <= p) && !(p == dest && Overwrites(t, src, dest, answer)) ==> Same(t, u, p))
    && (landed.None? ==> forall p :: p in t ==> Same(t, u, p))
    && (landed.Some? ==> Carried(t, src, u, landed.value) && LandsAt(t, src, dest, landed.value, answer))
  }

  /** With its parent there, nothing stands in the way of a rename that the system answers. */
  predicate RenameGoes(t: Tree, src: Path, dest: Path, answer: RenameResult)
    requires src in t && dest != []
  {
    && Parent(dest) in t && t[Parent(dest)].Directory? && Unrelated(src, dest) && answer.Renamed?
    && !(dest in t && t[src].Directory?)
  }

  /** How a move ends. */
  ghost predicate MoveDone(t: Tree, u: Tree, src: Path, dest: Path, landed: Option<Path>, answer: RenameResult, ok: bool)
    requires src in t && dest != []
  {
    && MoveSafe(t, u, src, dest, landed, answer)
    && (ok ==> Nothing(u, src) && landed.Some?)
    && (ok && dest !in t ==> Arrived(t, src, u, dest) || Copied(t, src, u, dest))
    && (RenameGoes(t, src, dest, answer) ==> ok && Arrived(t, src, u, dest))
    && (Overwrites(t, src, dest, answer) ==> ok && landed == Some(dest) && dest in u && u[dest] == t[src])
  }

  /** The tree once the parents of `dest` are made. */
  ghost predicate Prepared(t0: Tree, t1: Tree, dest: Path) {
    && (dest !in t0 ==> Nothing(t1, dest)) && (dest in t0 ==> t1 == t0)
    && forall p: Path :: Same(t0, t1, p) || (p !in t0 && p in t1 && t1[p].Directory? && p < dest)
  }

  lemma ParentsMade(t0: Tree, t1: Tree, dest: Path)
    requires WellFormed(t0) && dest != [] && OnlyParents(t0, t1, Parent(dest))
    requires Parent(dest) in t0 ==> t1 == t0
    ensures Prepared(t0, t1, dest)
  {
    if dest !in t0 {
      AbsentBelow(t0, dest);
      StillAbsent(t0, t1, dest);
    }
    forall p: Path ensures Same(t0, t1, p) || (p !in t0 && p in t1 && t1[p].Directory? && p < dest) {
      assert Same(t0, t1, p) || (p !in t0 && p in t1 && t1[p].Directory? && p <= Parent(dest));
      if p <= Parent(dest) { assert |p| < |dest|; }
    }
  }

  lemma SourcePrepared(t0: Tree, t1: Tree, src: Path, dest: Path)
    requires Prepared(t0, t1, dest) && Unrelated(src, dest)
    ensures forall p: Path :: src <= p ==> Same(t0, t1, p)
  {
    forall p: Path | src <= p ensures Same(t0, t1, p) {
      assert p < dest ==> src <= dest;
    }
  }

  lemma NotMoved(t0: Tree, t1: Tree, t2: Tree, src: Path, dest: Path, answer: RenameResult)
    requires src in t0 && dest != [] && Prepared(t0, t1, dest) && forall p :: p in t1 ==> Same(t1, t2, p)
    ensures MoveSafe(t0, t2, src, dest, None, answer)
  {
    forall p | p in t0 ensures Same(t0, t2, p) { assert Same(t0, t1, p) && Same(t1, t2, p); }
  }

  lemma RenameIsDone(t0: Tree, t1: Tree, src: Path, dest: Path, answer: RenameResult)
    requires WellFormed(t0) && src in t0 && dest != [] && Prepared(t0, t1, dest) && Unrelated(src, dest) && answer.Renamed?
    requires dest in t0 ==> t0[dest].Link? && !t0[src].Directory?
    ensures MoveDone(t0, Moved(t1, src, dest), src, dest, Some(dest), answer, true)
  {
    var m := Moved(t1, src, dest);
    MovedMeans(t1, src, dest);
    hide *;
    SourcePrepared(t0, t1, src, dest);
    ArrivedFrom(t0, t1, src, m, dest);
    ArrivedIsCarried(t0, src, m, dest);
    OthersStay(t0, t1, m, src, dest, answer);
    MovedIsDone(t0, m, src, dest, answer);
  }

  lemma ArrivedFrom(t0: Tree, t1: Tree, src: Path, m: Tree, dest: Path)
    requires Arrived(t1, src, m, dest) && forall p: Path :: src <= p ==> Same(t0, t1, p)
    ensures Arrived(t0, src, m, dest)
  {
    forall p: Path | dest <= p ensures Same(t0, t1, Origin(p, src, dest)) { assert src <= Origin(p, src, dest); }
  }

  lemma MovedIsDone(t: Tree, m: Tree, src: Path, dest: Path, answer: RenameResult)
    requires src in t && dest != [] && answer.Renamed? && (dest in t ==> !t[src].Directory?)
    requires Arrived(t, src, m, dest) && Carried(t, src, m, dest) && Nothing(m, src)
    requires forall p :: p in t && !(src <= p) && !(p == dest && Overwrites(t, src, dest, answer)) ==> Same(t, m, p)
    ensures MoveDone(t, m, src, dest, Some(dest), answer, true)
  {
    assert Origin(dest, src, dest) == src && dest <= dest;
    hide Carried, Nothing, Same;
  }

  lemma OthersStay(t0: Tree, t1: Tree, m: Tree, src: Path, dest: Path, answer: RenameResult)
    requires WellFormed(t0) && src in t0 && dest != [] && Prepared(t0, t1, dest) && answer.Renamed?
    requires dest in t0 ==> t0[dest].Link? && !t0[src].Directory?
    requires forall p: Path :: !(src <= p) && !(dest <= p) ==> Same(t1, m, p)
    ensures forall p :: p in t0 && !(src <= p) && !(p == dest && Overwrites(t0, src, dest, answer)) ==> Same(t0, m, p)
  {
    hide WellFormed, Nothing;
    forall p | p in t0 && !(src <= p) && !(p == dest && Overwrites(t0, src, dest, answer)) ensures Same(t0, m, p) {
      if dest <= p {
        NothingBelowTarget(t0, dest, p);
      } else {
        assert Same(t0, t1, p) && Same(t1, m, p);
      }
    }
  }

  /** What is absent, or a link, has nothing below it. */
  lemma NothingBelowTarget(t: Tree, dest: Path, p: Path)
    requires WellFormed(t) && p in t && dest <= p && (dest in t ==> t[dest].Link?)
    ensures p == dest && dest in t
  {
    if dest !in t {
      AbsentIsEmpty(t, dest, p);
    } else if dest != p {
      OnlyDirectories(t, dest, p);
    }
  }

  lemma ArrivedIsCarried(t: Tree, src: Path, u: Tree, q: Path)
    requires Arrived(t, src, u, q) || Copied(t, src, u, q)
    ensures Carried(t, src, u, q)
  {
    forall p: Path | src <= p && p in t && !t[p].Special? ensures q + p[|src|..] in u && u[q + p[|src|..]] == t[p] {
      var r := q + p[|src|..];
      assert q <= r && Origin(r, src, q) == p;
      if Copied(t, src, u, q) { assert CopiedAt(t, src, u, q, r); }
    }
  }

  /** After the copy to `q`, the removal of the source, and whatever it left. */
  lemma CopyIsSafe(t0: Tree, t1: Tree, t2: Tree, t3: Tree, src: Path, dest: Path, q: Path, answer: RenameResult)
    requires WellFormed(t0) && src in t0 && dest != [] && Prepared(t0, t1, dest) && Unrelated(src, dest) && Unrelated(src, q)
    requires SameOutside(t1, t2, q) && Copied(t1, src, t2, q) && SameOutside(t2, t3, src) && Nothing(t1, q)
    requires LandsAt(t0, src, dest, q, answer) && !answer.Renamed?
    ensures MoveSafe(t0, t3, src, dest, Some(q), answer) && Copied(t0, src, t3, q)
  {
    SourcePrepared(t0, t1, src, dest);
    SameUnder(t2, t3, q, src);
    assert Copied(t0, src, t3, q) by {
      forall p: Path | q <= p ensures CopiedAt(t0, src, t3, q, p) {
        assert CopiedAt(t1, src, t2, q, p) && src <= Origin(p, src, q);
        assert Same(t0, t1, Origin(p, src, q)) && Same(t2, t3, p);
      }
    }
    ArrivedIsCarried(t0, src, t3, q);
    forall p | p in t0 && !(src <= p) ensures Same(t0, t3, p) {
      assert Same(t0, t1, p);
      assert !(q <= p);
      assert Same(t1, t2, p) && Same(t2, t3, p);
    }
  }

  lemma CopyStopped(t0: Tree, t1: Tree, t2: Tree, src: Path, dest: Path, q: Path, answer: RenameResult)
    requires src in t0 && dest != [] && Prepared(t0, t1, dest) && SameOutside(t1, t2, q) && Nothing(t1, q)
    ensures MoveSafe(t0, t2, src, dest, None, answer)
  {
    forall p | p in t1 ensures Same(t1, t2, p) { assert !(q <= p); }
    NotMoved(t0, t1, t2, src, dest, answer);
  }

  /** A special file is not copied but removed all the same. */
  lemma SpecialIsDropped(t0: Tree, t1: Tree, src: Path, dest: Path, answer: RenameResult)
    requires WellFormed(t0) && src in t0 && t0[src].Special? && dest in t0 && SameOutside(t0, t1, src) && !answer.Renamed?
    requires dest != []
    ensures MoveSafe(t0, t1, src, dest, Some(dest), answer)
  {
    forall p: Path | src <= p && p in t0 ensures p == src {
      if src != p { OnlyDirectories(t0, src, p); }
    }
  }

  /** Where an open for writing creates the file that the link at `dest` names. */
  lemma BehindLink(t: Tree, src: Path, dest: Path, q: Path)
    requires WellFormed(t) && src in t && t[src].Regular? && q != [] && q !in t
    requires Parent(q) in t && t[Parent(q)].Directory?
    ensures Unrelated(src, q) && Nothing(t, q)
  {
    AbsentBelow(t, q);
    if src <= q {
      assert src <= Parent(q);
      if src != Parent(q) { OnlyDirectories(t, src, Parent(q)); }
    }
  }

  class FileSystem {
    var entries: Tree
    /** What the system answers to a rename that the entries themselves allow. */
    const rename: (Path, Path) -> RenameResult

    constructor (entries: Tree, rename: (Path, Path) -> RenameResult)
      ensures this.entries == entries && this.rename == rename
    {
      this.entries, this.rename := entries, rename;
    }

    /** Copies one entry that is no directory; the written bytes are those of the source or of another size. */
    method CopyLeaf(src: Path, dest: Path) returns (ok: bool)
      requires WellFormed(entries) && src in entries && !entries[src].Directory? && Unrelated(src, dest)
      requires dest != [] && Parent(dest) in entries && entries[Parent(dest)].Directory? && Nothing(entries, dest)
      modifies `entries
      ensures WellFormed(entries) && SameOutside(old(entries), entries, dest)
      ensures ok ==> Copied(old(entries), src, entries, dest)
    {
      ok := true;
      var e := entries[src];
      if e.Link? {
        if * { return false; }
        entries := entries[dest := e];
        if * { return false; }
      } else if e.Regular? {
        if * { return false; }
        var written: string :| written == e.bytes || |written| != |e.bytes|;
        entries := entries[dest := Regular(written)];
        if * { return false; }
        ok := |e.bytes| == |written|;
      }
      LeafCopied(old(entries), src, entries, dest);
    }

    method MakeDirectory(dest: Path) returns (ok: bool)
      requires WellFormed(entries) && dest != [] && Parent(dest) in entries && entries[Parent(dest)].Directory?
      requires Nothing(entries, dest)
      modifies `entries
      ensures WellFormed(entries) && SameOutside(old(entries), entries, dest)
      ensures forall p: Path :: dest < p ==> p !in entries
      ensures dest in entries ==> entries[dest].Directory?
      ensures ok ==> dest in entries
    {
      ok := *;
      var done: bool := *;
      if ok || done { entries := entries[dest := Directory]; }
    }

    /** `copyVerified`: stops at the first error, with the source untouched. */
    method CopyVerified(src: Path, dest: Path) returns (ok: bool)
      requires WellFormed(entries) && src in entries && Unrelated(src, dest)
      requires dest != [] && Parent(dest) in entries && entries[Parent(dest)].Directory? && Nothing(entries, dest)
      modifies `entries
      ensures WellFormed(entries) && SameOutside(old(entries), entries, dest)
      ensures ok ==> Copied(old(entries), src, entries, dest)
      decreases |Under(entries, src)|, 1
    {
      if entries[src].Directory? {
        ok := MakeDirectory(dest);
        if !ok { return; }
        SameUnder(old(entries), entries, src, dest);
        ok := CopyChildren(src, dest, old(entries));
      } else {
        ok := CopyLeaf(src, dest);
      }
    }

    /** The loop over the names in a directory, in whatever order they are listed. */
    method CopyChildren(src: Path, dest: Path, ghost before: Tree) returns (ok: bool)
      requires WellFormed(entries) && WellFormed(before) && Unrelated(src, dest) && SameOutside(before, entries, dest)
      requires src in before && before[src].Directory? && dest in entries && entries[dest].Directory?
      requires forall p: Path :: dest < p ==> p !in entries
      modifies `entries
      ensures WellFormed(entries) && SameOutside(before, entries, dest)
      ensures ok ==> Copied(before, src, entries, dest)
      decreases |Under(before, src)|, 0
    {
      hide WellFormed, Copied, SameOutside, Nothing, Under, Names;
      SameNames(before, entries, src, dest);
      ChildrenAbsent(entries, dest);
      var names := Names(entries, src);
      ghost var all := names;
      while names != {}
        invariant names <= all == Names(before, src)
        invariant WellFormed(entries) && SameOutside(before, entries, dest)
        invariant dest in entries && entries[dest].Directory?
        invariant forall n :: n in all && n !in names ==> Copied(before, src + [n], entries, dest + [n])
        invariant forall n :: n !in all || n in names ==> Nothing(entries, dest + [n])
        decreases |names|
      {
        var name :| name in names;
        ghost var mid := entries;
        ReadyForChild(before, entries, src, dest, name);
        ok := CopyVerified(src + [name], dest + [name]);
        ChildCopied(before, mid, entries, src, dest, name);
        if !ok { return; }
        names := names - {name};
      }
      ChildrenCopied(before, src, entries, dest);
      ok := true;
    }

    /** `mkdirSync` of a directory and its missing parents. */
    method MakeParents(dir: Path) returns (ok: bool)
      requires WellFormed(entries)
      modifies `entries
      ensures WellFormed(entries) && OnlyParents(old(entries), entries, dir)
      ensures ok ==> dir in entries && entries[dir].Directory?
      ensures dir in old(entries) ==> entries == old(entries) && ok == entries[dir].Directory?
      decreases |dir|
    {
      RootIsThere(entries);
      if dir in entries { return entries[dir].Directory?; }
      hide WellFormed;
      ghost var before := entries;
      AbsentBelow(entries, dir);
      ok := MakeParents(Parent(dir));
      StillAbsent(before, entries, dir);
      if !ok { return; }
      ghost var mid := entries;
      ok := MakeDirectory(dir);
      ParentsStep(before, mid, entries, dir);
    }

    /** `renameSync`, which is atomic. A directory does not replace a link, and nothing moves into itself. */
    method Rename(src: Path, dest: Path) returns (r: RenameResult)
      requires WellFormed(entries) && src in entries && src != [] && !(dest <= src)
      requires dest != [] && Parent(dest) in entries && entries[Parent(dest)].Directory?
      requires dest in entries ==> entries[dest].Link?
      modifies `entries
      ensures WellFormed(entries)
      ensures entries == if r.Renamed? then Moved(old(entries), src, dest) else old(entries)
      ensures r.Renamed? <==>
        Unrelated(src, dest) && rename(src, dest).Renamed? && !(dest in old(entries) && old(entries)[src].Directory?)
      ensures r.CrossDevice? ==> Unrelated(src, dest) && rename(src, dest).CrossDevice?
    {
      r := rename(src, dest);
      if src <= dest || (r.Renamed? && dest in entries && entries[src].Directory?) { r := Failed; }
      if r.Renamed? {
        MovedIsWellFormed(entries, src, dest);
        entries := Moved(entries, src, dest);
      }
    }

    /** `rmSync`: stopped early, it has removed some of the entries. */
    method RemoveTree(src: Path) returns (ok: bool)
      requires WellFormed(entries) && src != []
      modifies `entries
      ensures WellFormed(entries) && SameOutside(old(entries), entries, src)
      ensures forall p :: p in entries ==> Same(old(entries), entries, p)
      ensures ok ==> Nothing(entries, src)
    {
      ok := *;
      var t := entries;
      if ok {
        CutIsWellFormed(t, src);
        entries := Cut(t, src);
      } else {
        var removed: set<Path> := *;
        if Removable(t, src, removed) { entries := t - removed; }
      }
    }

    /**
     * `copyVerified` onto a link that leads nowhere: no directory or link can be made there, but a
     * file is written through the link, to `place`. A special file is passed over as always.
     */
    method CopyOntoLink(src: Path, dest: Path) returns (ok: bool, place: Path)
      requires WellFormed(entries) && src in entries && src != [] && dest != [] && Unrelated(src, dest)
      requires dest in entries && entries[dest].Link? && !ExistsAt(entries, dest)
      modifies `entries
      ensures WellFormed(entries)
      ensures !old(entries)[src].Regular? ==> entries == old(entries) && ok == old(entries)[src].Special?
      ensures old(entries)[src].Regular? ==>
        if Settle(old(entries), dest, MAX_HOPS) == Some(place) then
          && Unrelated(src, place) && Nothing(old(entries), place) && SameOutside(old(entries), entries, place)
          && (ok ==> Copied(old(entries), src, entries, place))
        else !ok && entries == old(entries)
    {
      place := dest;
      if !entries[src].Regular? { return entries[src].Special?, dest; }
      var behind := Settle(entries, dest, MAX_HOPS);
      if behind.None? || behind.value == [] { return false, []; }
      if Parent(behind.value) !in entries || !entries[Parent(behind.value)].Directory? { return false, []; }
      place := behind.value;
      BehindLink(entries, src, dest, place);
      ok := CopyLeaf(src, place);
    }

    /** `moveVerified`: a rename, or across file systems a verified copy and then the removal of the source. */
    method MoveVerified(src: Path, dest: Path) returns (ok: bool, landed: Option<Path>)
      requires WellFormed(entries) && src in entries && src != [] && dest != []
      requires ExistsAt(entries, src) && !ExistsAt(entries, dest)
      modifies `entries
      ensures WellFormed(entries) && MoveDone(old(entries), entries, src, dest, landed, rename(src, dest), ok)
    {
      hide WellFormed, Copied, SameOutside, Nothing, OnlyParents, Arrived, MoveSafe, ExistsAt, Prepared, LandsAt;
      landed := None;
      ghost var t0 := entries;
      ExistsMeans(t0, dest);
      TargetBesideSource(t0, src, dest);
      OverwriteIsFree(t0, src, dest, rename(src, dest));
      ok := MakeParents(Parent(dest));
      ghost var t1 := entries;
      ParentsMade(t0, t1, dest);
      NotMoved(t0, t1, t1, src, dest, rename(src, dest));
      SourceStands(t0, t1, src, dest);
      if !ok { return; }
      var r := Rename(src, dest);
      if r.Renamed? {
        RenameIsDone(t0, t1, src, dest, rename(src, dest));
        return true, Some(dest);
      }
      if r.Failed? { return false, None; }
      if dest in entries {
        ok, landed := MoveBehindLink(src, dest);
      } else {
        ok, landed := MoveByCopy(src, dest, t0);
      }
    }

    /** Across file systems, to a target that is absent. */
    method MoveByCopy(src: Path, dest: Path, ghost t0: Tree) returns (ok: bool, landed: Option<Path>)
      requires WellFormed(t0) && WellFormed(entries) && src in t0 && src in entries && src != [] && dest != []
      requires Prepared(t0, entries, dest) && dest !in t0 && Unrelated(src, dest) && rename(src, dest).CrossDevice?
      requires Parent(dest) in entries && entries[Parent(dest)].Directory?
      modifies `entries
      ensures WellFormed(entries) && MoveDone(t0, entries, src, dest, landed, rename(src, dest), ok)
    {
      hide WellFormed, Copied, SameOutside, Nothing, Arrived, MoveSafe, Carried;
      landed := None;
      ghost var t1 := entries;
      ok := CopyVerified(src, dest);
      ghost var t2 := entries;
      CopyStopped(t0, t1, t2, src, dest, dest, rename(src, dest));
      if !ok { return; }
      ok := RemoveTree(src);
      CopyIsSafe(t0, t1, t2, entries, src, dest, dest, rename(src, dest));
      landed := Some(dest);
    }

    /** Across file systems, to a target that is a link leading nowhere. */
    method MoveBehindLink(src: Path, dest: Path) returns (ok: bool, landed: Option<Path>)
      requires WellFormed(entries) && src in entries && src != [] && dest != [] && Unrelated(src, dest)
      requires dest in entries && entries[dest].Link? && !ExistsAt(entries, dest) && rename(src, dest).CrossDevice?
      modifies `entries
      ensures WellFormed(entries) && MoveDone(old(entries), entries, src, dest, landed, rename(src, dest), ok)
    {
      hide WellFormed, Copied, SameOutside, Nothing, Arrived, MoveSafe, Carried, ExistsAt, Settle;
      landed := None;
      ghost var t0 := entries;
      var regular := entries[src].Regular?;
      NotMoved(t0, t0, t0, src, dest, rename(src, dest));
      var place;
      ok, place := CopyOntoLink(src, dest);
      ghost var t2 := entries;
      if t0[src].Regular? && entries != t0 { CopyStopped(t0, t0, t2, src, dest, place, rename(src, dest)); }
      if !ok { return; }
      ok := RemoveTree(src);
      if regular {
        CopyIsSafe(t0, t0, t2, entries, src, dest, place, rename(src, dest));
        landed := Some(place);
      } else {
        SpecialIsDropped(t0, entries, src, dest, rename(src, dest));
        landed := Some(dest);
      }
    }
  }

  /** An overwriting rename meets no obstacle. */
  lemma OverwriteIsFree(t: Tree, src: Path, dest: Path, answer: RenameResult)
    requires WellFormed(t) && src in t && dest != [] && !(dest <= src) && (dest in t ==> t[dest].Link?)
    ensures Overwrites(t, src, dest, answer) ==> Unrelated(src, dest)
    ensures dest in t ==> Parent(dest) in t && t[Parent(dest)].Directory?
  {
    if src < dest && dest in t { OnlyDirectories(t, src, dest); }
  }

  lemma SourceStands(t0: Tree, t1: Tree, src: Path, dest: Path)
    requires Prepared(t0, t1, dest) && src in t0
    ensures Same(t0, t1, src) && (dest in t0 ==> t1 == t0) && (dest !in t0 ==> dest !in t1 && Nothing(t1, dest))
  {
    assert dest <= dest;
  }

  lemma ChildrenAbsent(t: Tree, dest: Path)
    requires forall p: Path :: dest < p ==> p !in t
    ensures forall n :: Nothing(t, dest + [n])
  {
  }

  lemma ReadyForChild(before: Tree, t: Tree, src: Path, dest: Path, name: string)
    requires Unrelated(src, dest) && SameOutside(before, t, dest) && src in before && name in Names(before, src)
    ensures src + [name] in t && Unrelated(src + [name], dest + [name]) && Parent(dest + [name]) == dest
    ensures |Under(t, src + [name])| < |Under(before, src)|
  {
    NameMeans(before, src, name);
    SameUnder(before, t, src, dest);
    assert Same(before, t, src + [name]);
    UnderShrinks(before, src, name);
    Diverge(src, dest, [name]);
    SameUnder(before, t, src + [name], dest);
  }

  lemma Diverge(a: Path, b: Path, tail: Path)
    requires Unrelated(a, b)
    ensures Unrelated(a + tail, b + tail) && Unrelated(a + tail, b)
  {
    if a + tail <= b + tail { Prefixes(a, b, b + tail); }
    if b + tail <= a + tail { Prefixes(a, b, a + tail); }
    if b <= a + tail { Prefixes(a, b, a + tail); }
    if a + tail <= b { Prefixes(a, b, b); }
  }

}
