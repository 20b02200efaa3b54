/**
 * The installer for packages of type `legacy-contao-module`: every file below
 * `<install path>/TL_ROOT/` is symlinked, one file at a time, to the same
 * relative path below the Contao root. Uninstalling removes exactly those
 * links and then the directories that became empty.
 *
 * The filesystem is a map from absolute paths (lists of path segments) to
 * nodes. A link stores the absolute path it resolves to.
 */
module LegacyInstaller {
  import opened Results

  type Path = seq<string>

  datatype Node = File(content: string) | Dir | Link(target: Path)

  /** The failures the installer raises, all as RuntimeException. */
  datatype InstallError =
    | TargetExists(path: Path)          // install: something other than the right link is there
    | ParentNotADirectory(path: Path)   // install: a node on the way to the target is not a directory
    | NotALink(path: Path)              // uninstall: the target is a file or a directory
    | ForeignLink(path: Path)           // uninstall: the target links somewhere else

  /** The package type this installer is registered for. */
  const LegacyModuleType := "legacy-contao-module"

  /** The directory inside a package that mirrors the Contao root. */
  const SourceDir := "TL_ROOT"

  /** `d` lies strictly above `p` in the directory tree. */
  predicate IsAncestor(d: Path, p: Path) {
    |d| < |p| && p[..|d|] == d
  }

  function Parent(p: Path): Path
    requires p != []
  {
    p[..|p| - 1]
  }

  /** The filesystem is a tree: the root directory exists and every other node sits in a directory. */
  predicate Valid(fs: map<Path, Node>) {
    && [] in fs && fs[[]].Dir?
    && forall p :: p in fs && p != [] ==> Parent(p) in fs && fs[Parent(p)].Dir?
  }

  /** Some node exists below directory `d`: the directory is not empty. */
  predicate HasDescendant(fs: map<Path, Node>, d: Path) {
    exists q :: q in fs && IsAncestor(d, q)
  }

  /** Every node of `fs` is still in `fs'`, unchanged. */
  predicate Keeps(fs: map<Path, Node>, fs': map<Path, Node>) {
    forall p :: p in fs ==> p in fs' && fs'[p] == fs[p]
  }

  lemma KeepsTransitive(a: map<Path, Node>, b: map<Path, Node>, c: map<Path, Node>)
    requires Keeps(a, b) && Keeps(b, c)
    ensures Keeps(a, c)
  {
  }

  lemma {:induction false} AncestorTransitive(a: Path, b: Path, c: Path)
    requires IsAncestor(a, b) && IsAncestor(b, c)
    ensures IsAncestor(a, c)
  {
    assert c[..|b|][..|a|] == c[..|a|];
  }

  /** In a tree every ancestor of an existing node exists and is a directory. */
  lemma {:induction false} AncestorsAreDirs(fs: map<Path, Node>, p: Path, d: Path)
    requires Valid(fs) && p in fs && IsAncestor(d, p)
    ensures d in fs && fs[d].Dir?
    decreases |p|
  {
    var q := Parent(p);
    if d != q {
      assert IsAncestor(d, q) by {
        assert q[..|d|] == p[..|d|];
      }
      AncestorsAreDirs(fs, q, d);
    }
  }

  /**
   * The files of a package's TL_ROOT directory, as paths relative to it.
   * Links and directories below TL_ROOT are not linked themselves.
   */
  function SourceFiles(fs: map<Path, Node>, base: Path): (s: set<Path>)
    ensures forall rel :: rel in s ==> rel != [] && base + rel in fs && fs[base + rel].File?
  {
    var s := set p | p in fs && IsAncestor(base, p) && fs[p].File? :: p[|base|..];
    assert forall rel :: rel in s ==> rel != [] && base + rel in fs && fs[base + rel].File? by {
      forall rel | rel in s ensures rel != [] && base + rel in fs && fs[base + rel].File? {
        var p :| p in fs && IsAncestor(base, p) && fs[p].File? && rel == p[|base|..];
        assert base + rel == p;
      }
    }
    s
  }

  /**
   * Two different source files never give targets where one lies inside the
   * other: a file has nothing below it, so the sources form no chain and
   * neither do their images below the Contao root.
   */
  lemma TargetsUnrelated(fs: map<Path, Node>, base: Path, root: Path, a: Path, b: Path)
    requires Valid(fs) && a in SourceFiles(fs, base) && b in SourceFiles(fs, base) && a != b
    ensures root + a != root + b
    ensures !IsAncestor(root + a, root + b)
  {
    assert a == (root + a)[|root|..] && b == (root + b)[|root|..];
    if IsAncestor(root + a, root + b) {
      assert IsAncestor(base + a, base + b) by {
        assert b[..|a|] == (root + b)[..|root + a|][|root|..];
      }
      AncestorsAreDirs(fs, base + b, base + a);
    }
  }

  /**
   * Linking `source` at `target` is refused: the target exists and is not
   * already that link, or a node on the way to it is not a directory.
   */
  predicate LinkBlocked(fs: map<Path, Node>, target: Path, source: Path) {
    (target in fs && fs[target] != Link(source)) || !PathClear(fs, target)
  }

  /** Every node that exists on the way down to `target` is a directory. */
  predicate PathClear(fs: map<Path, Node>, target: Path) {
    forall k :: 0 <= k < |target| && target[..k] in fs ==> fs[target[..k]].Dir?
  }

  /** The target is this installer's own link to `source`. */
  predicate Owned(fs: map<Path, Node>, target: Path, source: Path) {
    target in fs && fs[target] == Link(source)
  }

  /** Removing the link at `target` is refused: something else is there. */
  predicate UnlinkRefused(fs: map<Path, Node>, target: Path, source: Path) {
    target in fs && fs[target] != Link(source)
  }

  /** `fs'` grew from `fs` by creating `target` and directories above it, and nothing else. */
  predicate GrewAlong(fs: map<Path, Node>, fs': map<Path, Node>, target: Path) {
    && Keeps(fs, fs')
    && forall p :: p in fs' && p !in fs ==> p == target || (IsAncestor(p, target) && fs'[p].Dir?)
  }

  /** A change along one target leaves the verdict for an unrelated target as it was. */
  lemma BlockedUnaffected(fs: map<Path, Node>, fs': map<Path, Node>, target: Path, t: Path, s: Path)
    requires GrewAlong(fs, fs', target)
    requires t != target && !IsAncestor(t, target) && !IsAncestor(target, t)
    ensures LinkBlocked(fs', t, s) <==> LinkBlocked(fs, t, s)
  {
    assert t in fs' ==> t in fs;
    forall k | 0 <= k < |t|
      ensures t[..k] in fs' ==> t[..k] in fs || fs'[t[..k]].Dir?
    {
      assert IsAncestor(t[..k], t);
    }
  }

  /**
   * The state after a successful install: nothing that existed changed,
   * every source file has its link at the same relative path below the root,
   * and the only other new nodes are directories above those links.
   */
  predicate Installed(fs: map<Path, Node>, fs': map<Path, Node>, root: Path, base: Path, files: set<Path>) {
    && Keeps(fs, fs')
    && (forall rel :: rel in files ==> Owned(fs', root + rel, base + rel))
    && (forall p :: p in fs' && p !in fs ==>
          exists rel :: rel in files && (p == root + rel || (IsAncestor(p, root + rel) && fs'[p].Dir?)))
  }

  /**
   * Re-installing over correct links succeeds and changes nothing: no target
   * is blocked, and the only state an install may then leave is the old one.
   */
  lemma ReinstallIsNoop(fs: map<Path, Node>, fs': map<Path, Node>, root: Path, base: Path, files: set<Path>)
    requires Valid(fs)
    requires forall rel :: rel in files ==> Owned(fs, root + rel, base + rel)
    ensures forall rel :: rel in files ==> !LinkBlocked(fs, root + rel, base + rel)
    ensures Installed(fs, fs', root, base, files) ==> fs' == fs
  {
    forall rel | rel in files ensures !LinkBlocked(fs, root + rel, base + rel) {
      var t := root + rel;
      forall k | 0 <= k < |t| && t[..k] in fs ensures fs[t[..k]].Dir? {
        AncestorsAreDirs(fs, t, t[..k]);
      }
    }
    if Installed(fs, fs', root, base, files) {
      forall p | p in fs' ensures p in fs {
        if p !in fs {
          var rel :| rel in files && (p == root + rel || (IsAncestor(p, root + rel) && fs'[p].Dir?));
          if p != root + rel {
            AncestorsAreDirs(fs, root + rel, p);
          }
        }
      }
      assert fs'.Keys == fs.Keys;
    }
  }

  /**
   * What uninstalling may remove: only this installer's own links to the
   * given sources, and directories strictly below the root above such links.
   */
  predicate RemovedOnlyOwned(fs: map<Path, Node>, fs': map<Path, Node>, root: Path, base: Path, files: set<Path>) {
    && Keeps(fs', fs)
    && forall p :: p in fs && p !in fs' ==>
         exists rel :: rel in files && Owned(fs, root + rel, base + rel) &&
           (p == root + rel || (IsAncestor(p, root + rel) && IsAncestor(root, p) && fs[p].Dir?))
  }

  /**
   * Directories below the root that held a removed link are either gone or
   * still hold something: no emptied directory is left behind.
   */
  predicate Pruned(fs: map<Path, Node>, fs': map<Path, Node>, root: Path, base: Path, files: set<Path>) {
    forall d, rel ::
      (rel in files && Owned(fs, root + rel, base + rel) && d in fs' &&
       IsAncestor(root, d) && IsAncestor(d, root + rel)) ==> HasDescendant(fs', d)
  }

  /** The state after a successful uninstall. */
  predicate Uninstalled(fs: map<Path, Node>, fs': map<Path, Node>, root: Path, base: Path, files: set<Path>) {
    && RemovedOnlyOwned(fs, fs', root, base, files)
    && (forall rel :: rel in files ==> root + rel !in fs')
    && Pruned(fs, fs', root, base, files)
  }

  /**
   * A directory below the root that held nothing but the chain of directories
   * down to a removed link does not survive the uninstall.
   */
  lemma {:induction false} EmptiedDirectoryRemoved(fs: map<Path, Node>, fs': map<Path, Node>, root: Path, base: Path,
                                                  files: set<Path>, rel: Path, d: Path)
    requires Uninstalled(fs, fs', root, base, files)
    requires rel in files && Owned(fs, root + rel, base + rel)
    requires IsAncestor(root, d) && IsAncestor(d, root + rel)
    requires forall q :: q in fs && IsAncestor(d, q) ==> q == root + rel || IsAncestor(q, root + rel)
    ensures d !in fs'
    decreases |root + rel| - |d|
  {
    if d in fs' {
      var q :| q in fs' && IsAncestor(d, q);
      assert q in fs;
      assert q != root + rel;
      assert IsAncestor(q, root + rel);
      AncestorTransitive(root, d, q);
      forall q' | q' in fs && IsAncestor(q, q') ensures q' == root + rel || IsAncestor(q', root + rel) {
        AncestorTransitive(d, q, q');
      }
      EmptiedDirectoryRemoved(fs, fs', root, base, files, rel, q);
    }
  }

  /** Adding a node where there is none, inside an existing directory, keeps the tree shape. */
  lemma AddLeafKeepsValid(fs: map<Path, Node>, p: Path, n: Node)
    requires Valid(fs) && p != [] && p !in fs && Parent(p) in fs && fs[Parent(p)].Dir?
    ensures Valid(fs[p := n])
  {
  }

  /**
   * LinkFile's loop invariant: the directories above `target` down to depth
   * `k` exist, and nothing but those directories has been added.
   */
  predicate LinkProgress(init: map<Path, Node>, fs: map<Path, Node>, target: Path, source: Path, k: nat) {
    && 1 <= k <= |target|
    && Valid(fs) && GrewAlong(init, fs, target) && PathClear(fs, target)
    && (target in fs ==> fs[target] == Link(source))
    && (forall j :: 0 <= j < k ==> target[..j] in fs)
  }

  lemma LinkProgressStart(fs: map<Path, Node>, target: Path, source: Path)
    requires Valid(fs) && target != [] && !LinkBlocked(fs, target, source)
    ensures LinkProgress(fs, fs, target, source, 1)
  {
    assert target[..0] == [];
  }

  /** Creating the directory `target[..k]` if it is missing keeps LinkFile's loop invariant. */
  lemma AddDirAlong(init: map<Path, Node>, fs: map<Path, Node>, target: Path, source: Path, k: nat)
    requires LinkProgress(init, fs, target, source, k) && k < |target|
    ensures target[..k] !in fs ==> LinkProgress(init, fs[target[..k] := Dir], target, source, k + 1)
    ensures target[..k] in fs ==> LinkProgress(init, fs, target, source, k + 1)
  {
    var d := target[..k];
    if d !in fs {
      var fs' := fs[d := Dir];
      assert Parent(d) == target[..k - 1];
      assert Parent(d) in fs && fs[Parent(d)].Dir?;
      AddLeafKeepsValid(fs, d, Dir);
      assert IsAncestor(d, target);
      assert GrewAlong(init, fs', target) by {
        forall p | p in fs' && p !in init
          ensures p == target || (IsAncestor(p, target) && fs'[p].Dir?)
        {
          if p != d {
            assert p in fs && fs'[p] == fs[p];
          }
        }
      }
      assert PathClear(fs', target) by {
        forall i | 0 <= i < |target| && target[..i] in fs' ensures fs'[target[..i]].Dir? {
          if target[..i] != d {
            assert target[..i] in fs;
          }
        }
      }
      assert |target| != |d|;
      forall j | 0 <= j <= k ensures target[..j] in fs' {
        if j < k {
          assert target[..j] in fs;
        }
      }
    }
  }

  /** With every directory above it in place, adding the link completes LinkFile. */
  lemma AddLinkAlong(init: map<Path, Node>, fs: map<Path, Node>, target: Path, source: Path)
    requires LinkProgress(init, fs, target, source, |target|)
    ensures target !in fs ==> Valid(fs[target := Link(source)]) && GrewAlong(init, fs[target := Link(source)], target)
    ensures target in fs ==> Owned(fs, target, source)
  {
    if target !in fs {
      assert target[..|target| - 1] == Parent(target);
      AddLeafKeepsValid(fs, target, Link(source));
    }
  }

  /** Removing a node with nothing below it keeps the tree shape. */
  lemma RemoveLeafKeepsValid(fs: map<Path, Node>, p: Path)
    requires Valid(fs) && p != [] && !HasDescendant(fs, p)
    ensures Valid(fs - {p})
  {
    forall q | q in fs && q != []
      ensures Parent(q) != p
    {
      assert IsAncestor(Parent(q), q);
    }
  }

  /**
   * RemoveLink's loop invariant: the link is gone, the directories above it
   * deeper than `k` are gone, those down to depth `k` remain, and nothing
   * else was removed.
   */
  predicate PruneProgress(init: map<Path, Node>, fs: map<Path, Node>, root: Path, target: Path, k: nat) {
    && Valid(init) && target in init && IsAncestor(root, target) && |root| <= k < |target|
    && Valid(fs) && Keeps(fs, init) && target !in fs
    && (forall j :: k < j < |target| ==> target[..j] !in fs)
    && (forall j :: 0 <= j <= k ==> target[..j] in fs)
    && (forall p :: p in init && p !in fs ==>
          p == target || (IsAncestor(p, target) && |p| > k && init[p].Dir?))
  }

  lemma PruneStart(init: map<Path, Node>, root: Path, target: Path)
    requires Valid(init) && target in init && init[target].Link? && IsAncestor(root, target)
    ensures PruneProgress(init, init - {target}, root, target, |target| - 1)
  {
    forall j | 0 <= j < |target| ensures target[..j] in init {
      AncestorsAreDirs(init, target, target[..j]);
    }
    forall q | q in init ensures !IsAncestor(target, q) {
      if IsAncestor(target, q) {
        AncestorsAreDirs(init, q, target);
      }
    }
    RemoveLeafKeepsValid(init, target);
  }

  /** Removing the emptied directory `target[..k]` keeps RemoveLink's loop invariant. */
  lemma PruneStep(init: map<Path, Node>, fs: map<Path, Node>, root: Path, target: Path, k: nat)
    requires PruneProgress(init, fs, root, target, k) && k > |root| && !HasDescendant(fs, target[..k])
    ensures PruneProgress(init, fs - {target[..k]}, root, target, k - 1)
  {
    var d := target[..k];
    var fs' := fs - {d};
    RemoveLeafKeepsValid(fs, d);
    assert IsAncestor(d, target);
    AncestorsAreDirs(init, target, d);
    forall j | 0 <= j <= k - 1 ensures target[..j] in fs' {
      assert |target[..j]| != |d|;
    }
    forall p | p in init && p !in fs'
      ensures p == target || (IsAncestor(p, target) && |p| > k - 1 && init[p].Dir?)
    {
      if p != d {
        assert p !in fs;
      }
    }
  }

  /** When pruning stops, every directory between the root and the removed link still holds something. */
  lemma PruneDone(init: map<Path, Node>, fs: map<Path, Node>, root: Path, target: Path, k: nat)
    requires PruneProgress(init, fs, root, target, k) && (k == |root| || HasDescendant(fs, target[..k]))
    ensures forall p :: p in init && p !in fs ==>
      p == target || (IsAncestor(p, target) && IsAncestor(root, p) && init[p].Dir?)
    ensures forall d :: d in fs && IsAncestor(root, d) && IsAncestor(d, target) ==> HasDescendant(fs, d)
  {
    forall p | p in init && p !in fs && p != target
      ensures IsAncestor(root, p)
    {
      assert p == target[..|p|];
      assert p[..|root|] == target[..|root|];
    }
    forall d | d in fs && IsAncestor(root, d) && IsAncestor(d, target) ensures HasDescendant(fs, d) {
      assert d == target[..|d|];
      if |d| < k {
        assert IsAncestor(d, target[..k]) by {
          assert target[..k][..|d|] == target[..|d|];
        }
      } else if |d| == k {
        assert d == target[..k];
      }
    }
  }

  /** What a partly done install has achieved: the invariant of Install's loop. */
  predicate InstallProgress(init: map<Path, Node>, fs: map<Path, Node>, root: Path, base: Path,
                            files: set<Path>, todo: set<Path>)
  {
    && todo <= files
    && Keeps(init, fs)
    && (forall rel :: rel in files - todo ==> !LinkBlocked(init, root + rel, base + rel))
    && (forall rel :: rel in todo ==>
          (LinkBlocked(fs, root + rel, base + rel) <==> LinkBlocked(init, root + rel, base + rel)))
    && (forall rel :: rel in files - todo ==> Owned(fs, root + rel, base + rel))
    && (forall p :: p in fs && p !in init ==>
          exists rel :: rel in files - todo && (p == root + rel || (IsAncestor(p, root + rel) && fs[p].Dir?)))
  }

  /** Linking one target leaves the verdict for every other pending target as it was at the start. */
  lemma {:induction false} InstallStepOthers(init: map<Path, Node>, before: map<Path, Node>, after: map<Path, Node>,
                                             root: Path, base: Path, todo: set<Path>, rel: Path)
    requires Valid(init) && todo <= SourceFiles(init, base) && rel in todo
    requires forall other :: other in todo ==>
      (LinkBlocked(before, root + other, base + other) <==> LinkBlocked(init, root + other, base + other))
    requires GrewAlong(before, after, root + rel)
    ensures forall other :: other in todo - {rel} ==>
      (LinkBlocked(after, root + other, base + other) <==> LinkBlocked(init, root + other, base + other))
  {
    forall other | other in todo - {rel}
      ensures LinkBlocked(after, root + other, base + other) <==> LinkBlocked(before, root + other, base + other)
    {
      TargetsUnrelated(init, base, root, other, rel);
      TargetsUnrelated(init, base, root, rel, other);
      BlockedUnaffected(before, after, root + rel, root + other, base + other);
    }
  }

  /** Every node an install has created so far belongs to a target already linked. */
  lemma {:induction false} InstallStepNew(init: map<Path, Node>, before: map<Path, Node>, after: map<Path, Node>,
                                          root: Path, prevDone: set<Path>, done: set<Path>, rel: Path)
    requires prevDone <= done && rel in done
    requires forall p :: p in before && p !in init ==>
      exists rel' :: rel' in prevDone && (p == root + rel' || (IsAncestor(p, root + rel') && before[p].Dir?))
    requires GrewAlong(before, after, root + rel)
    ensures forall p :: p in after && p !in init ==>
      exists rel' :: rel' in done && (p == root + rel' || (IsAncestor(p, root + rel') && after[p].Dir?))
  {
    forall p | p in after && p !in init
      ensures exists rel' :: rel' in done && (p == root + rel' || (IsAncestor(p, root + rel') && after[p].Dir?))
    {
      if p in before {
        var rel' :| rel' in prevDone && (p == root + rel' || (IsAncestor(p, root + rel') && before[p].Dir?));
        assert after[p] == before[p] && rel' in done;
      }
    }
  }

  /** One successful link keeps Install's loop invariant with that file moved to the done side. */
  lemma InstallStep(init: map<Path, Node>, before: map<Path, Node>, after: map<Path, Node>,
                    root: Path, base: Path, files: set<Path>, todo: set<Path>, rel: Path)
    requires Valid(init) && files == SourceFiles(init, base)
    requires InstallProgress(init, before, root, base, files, todo) && rel in todo
    requires !LinkBlocked(before, root + rel, base + rel)
    requires GrewAlong(before, after, root + rel) && Owned(after, root + rel, base + rel)
    ensures InstallProgress(init, after, root, base, files, todo - {rel})
  {
    var done := files - (todo - {rel});
    assert files - todo <= done && rel in done;
    InstallStepOthers(init, before, after, root, base, todo, rel);
    InstallStepNew(init, before, after, root, files - todo, done, rel);
    KeepsTransitive(init, before, after);
    forall r | r in done ensures !LinkBlocked(init, root + r, base + r) && Owned(after, root + r, base + r) {
      if r != rel {
        assert r in files - todo;
      }
    }
  }

  /** What a partly done uninstall has achieved: the invariant of Uninstall's loop. */
  predicate UninstallProgress(init: map<Path, Node>, fs: map<Path, Node>, root: Path, base: Path,
                              files: set<Path>, todo: set<Path>)
  {
    && todo <= files
    && RemovedOnlyOwned(init, fs, root, base, files - todo)
    && (forall rel :: rel in files - todo ==> !UnlinkRefused(init, root + rel, base + rel))
    && (forall rel :: rel in files - todo ==> root + rel !in fs)
    && Pruned(init, fs, root, base, files - todo)
    && (forall rel :: rel in todo ==> (root + rel in fs <==> root + rel in init))
  }

  lemma UninstallSkipStep(init: map<Path, Node>, fs: map<Path, Node>,
                          root: Path, base: Path, files: set<Path>, todo: set<Path>, rel: Path)
    requires UninstallProgress(init, fs, root, base, files, todo) && rel in todo
    requires root + rel !in fs
    ensures UninstallProgress(init, fs, root, base, files, todo - {rel})
  {
    var done := files - (todo - {rel});
    assert root + rel !in init;
    forall p | p in init && p !in fs
      ensures exists rel' :: (rel' in done && Owned(init, root + rel', base + rel') &&
        (p == root + rel' || (IsAncestor(p, root + rel') && IsAncestor(root, p) && init[p].Dir?)))
    {
      var rel' :| rel' in files - todo && Owned(init, root + rel', base + rel') &&
        (p == root + rel' || (IsAncestor(p, root + rel') && IsAncestor(root, p) && init[p].Dir?));
      assert rel' in done;
    }
  }

  /** Removing one link keeps every removed node accounted for by a link already handled. */
  lemma {:induction false} UninstallRemovedOwned(init: map<Path, Node>, before: map<Path, Node>, after: map<Path, Node>,
                                                 root: Path, base: Path, prevDone: set<Path>, done: set<Path>, rel: Path)
    requires prevDone <= done && rel in done && Owned(init, root + rel, base + rel)
    requires RemovedOnlyOwned(init, before, root, base, prevDone)
    requires Keeps(after, before)
    requires forall p :: p in before && p !in after ==>
      p == root + rel || (IsAncestor(p, root + rel) && IsAncestor(root, p) && before[p].Dir?)
    ensures RemovedOnlyOwned(init, after, root, base, done)
  {
    KeepsTransitive(after, before, init);
    forall p | p in init && p !in after
      ensures exists rel' :: (rel' in done && Owned(init, root + rel', base + rel') &&
        (p == root + rel' || (IsAncestor(p, root + rel') && IsAncestor(root, p) && init[p].Dir?)))
    {
      if p in before {
        assert init[p] == before[p];
        assert rel in done;
      } else {
        var rel' :| rel' in prevDone && Owned(init, root + rel', base + rel') &&
          (p == root + rel' || (IsAncestor(p, root + rel') && IsAncestor(root, p) && init[p].Dir?));
        assert rel' in done;
      }
    }
  }

  /** Removing one link and pruning above it keeps every directory above a handled link non-empty or gone. */
  lemma {:induction false} UninstallPrunedStep(init: map<Path, Node>, before: map<Path, Node>, after: map<Path, Node>,
                                               root: Path, base: Path, prevDone: set<Path>, done: set<Path>, rel: Path)
    requires done == prevDone + {rel}
    requires Pruned(init, before, root, base, prevDone)
    requires Keeps(after, before)
    requires forall p :: p in before && p !in after ==> p == root + rel || IsAncestor(p, root + rel)
    requires forall d :: d in after && IsAncestor(root, d) && IsAncestor(d, root + rel) ==> HasDescendant(after, d)
    ensures Pruned(init, after, root, base, done)
  {
    forall d, rel' | rel' in done && Owned(init, root + rel', base + rel') && d in after &&
        IsAncestor(root, d) && IsAncestor(d, root + rel')
      ensures HasDescendant(after, d)
    {
      if rel' != rel {
        assert rel' in prevDone && d in before;
        var q :| q in before && IsAncestor(d, q);
        if q !in after && q != root + rel {
          AncestorTransitive(d, q, root + rel);
        }
      }
    }
  }

  /** Removing one link leaves the presence of every other pending target as it was at the start. */
  lemma UninstallOthers(init: map<Path, Node>, before: map<Path, Node>, after: map<Path, Node>,
                        root: Path, base: Path, todo: set<Path>, rel: Path)
    requires Valid(init) && todo <= SourceFiles(init, base) && rel in todo
    requires forall other :: other in todo ==> (root + other in before <==> root + other in init)
    requires Keeps(after, before)
    requires forall p :: p in before && p !in after ==> p == root + rel || IsAncestor(p, root + rel)
    ensures forall other :: other in todo - {rel} ==> (root + other in after <==> root + other in init)
  {
    forall other | other in todo - {rel}
      ensures root + other in after <==> root + other in before
    {
      TargetsUnrelated(init, base, root, other, rel);
    }
  }

  /** The handled targets, the one just removed included, are absent and were not refused. */
  lemma UninstallDoneTargets(init: map<Path, Node>, before: map<Path, Node>, after: map<Path, Node>,
                             root: Path, base: Path, prevDone: set<Path>, done: set<Path>, rel: Path)
    requires done == prevDone + {rel} && Owned(init, root + rel, base + rel) && root + rel !in after
    requires forall r :: r in prevDone ==> !UnlinkRefused(init, root + r, base + r) && root + r !in before
    requires Keeps(after, before)
    ensures forall r :: r in done ==> !UnlinkRefused(init, root + r, base + r) && root + r !in after
  {
  }

  /** Removing one link (and directories above it) keeps Uninstall's loop invariant with that file done. */
  lemma UninstallRemoveStep(init: map<Path, Node>, before: map<Path, Node>, after: map<Path, Node>,
                            root: Path, base: Path, files: set<Path>, todo: set<Path>, rel: Path)
    requires Valid(init) && files == SourceFiles(init, base)
    requires UninstallProgress(init, before, root, base, files, todo) && rel in todo
    requires Owned(before, root + rel, base + rel)
    requires Keeps(after, before) && root + rel !in after
    requires forall p :: p in before && p !in after ==>
      p == root + rel || (IsAncestor(p, root + rel) && IsAncestor(root, p) && before[p].Dir?)
    requires forall d :: d in after && IsAncestor(root, d) && IsAncestor(d, root + rel) ==> HasDescendant(after, d)
    ensures UninstallProgress(init, after, root, base, files, todo - {rel})
  {
    var prevDone := files - todo;
    var done := files - (todo - {rel});
    assert done == prevDone + {rel};
    assert root + rel in init;
    assert Owned(init, root + rel, base + rel);
    UninstallOthers(init, before, after, root, base, todo, rel);
    UninstallRemovedOwned(init, before, after, root, base, prevDone, done, rel);
    UninstallPrunedStep(init, before, after, root, base, prevDone, done, rel);
    UninstallDoneTargets(init, before, after, root, base, prevDone, done, rel);
  }


  class LegacyContaoModuleInstaller {
    /** The package type handed in at construction. */
    const installerType: string
    /** The Contao root, below which the links are created. */
    const root: Path
    /** Composer's vendor directory; a package is installed to vendorDir + name. */
    const vendorDir: Path
    var fs: map<Path, Node>

    constructor (installerType: string, root: Path, vendorDir: Path, fs: map<Path, Node>)
      requires Valid(fs)
      ensures this.installerType == installerType && this.root == root && this.vendorDir == vendorDir
      ensures this.fs == fs
    {
      this.installerType := installerType;
      this.root := root;
      this.vendorDir := vendorDir;
      this.fs := fs;
    }

    /** Composer dispatches a package to this installer iff its type is the one given at construction. */
    predicate Supports(packageType: string) {
      packageType == installerType
    }

    /** The directory whose files are linked: `<install path>/TL_ROOT`. */
    function SourceRoot(name: Path): Path {
      vendorDir + name + [SourceDir]
    }

    /**
     * Creates the directories missing on the way to `target`, then the link
     * to `source` unless the right link is already there.
     */
    method LinkFile(target: Path, source: Path)
      requires Valid(fs) && target != [] && !LinkBlocked(fs, target, source)
      modifies this
      ensures Valid(fs)
      ensures GrewAlong(old(fs), fs, target)
      ensures Owned(fs, target, source)
    {
      ghost var init := fs;
      LinkProgressStart(fs, target, source);
      var k := 1;
      while k < |target|
        invariant LinkProgress(init, fs, target, source, k)
      {
        AddDirAlong(init, fs, target, source, k);
        if target[..k] !in fs {
          fs := fs[target[..k] := Dir];
        }
        k := k + 1;
      }
      AddLinkAlong(init, fs, target, source);
      if target !in fs {
        fs := fs[target := Link(source)];
      }
    }

    /**
     * Symlinks every file below `<install path>/TL_ROOT/` to the same
     * relative path below the Contao root. It fails on the first target that
     * holds something else, keeping the links made so far; it never changes
     * or removes an existing node.
     */
    method Install(name: Path) returns (r: Outcome<InstallError>)
      requires Valid(fs)
      modifies this
      ensures Valid(fs)
      ensures Keeps(old(fs), fs)
      ensures r.Pass? <==>
        forall rel :: rel in SourceFiles(old(fs), SourceRoot(name)) ==>
          !LinkBlocked(old(fs), root + rel, SourceRoot(name) + rel)
      ensures r.Pass? ==> Installed(old(fs), fs, root, SourceRoot(name), SourceFiles(old(fs), SourceRoot(name)))
      ensures r.Fail? ==> r.error.TargetExists? || r.error.ParentNotADirectory?
      ensures r.Fail? ==>
        exists rel :: rel in SourceFiles(old(fs), SourceRoot(name)) && r.error.path == root + rel &&
          LinkBlocked(old(fs), root + rel, SourceRoot(name) + rel)
    {
      var base := SourceRoot(name);
      ghost var init := fs;
      ghost var files := SourceFiles(fs, base);
      var todo := SourceFiles(fs, base);
      while todo != {}
        invariant Valid(fs) && InstallProgress(init, fs, root, base, files, todo)
        decreases todo
      {
        var rel :| rel in todo;
        var target, source := root + rel, base + rel;
        if LinkBlocked(fs, target, source) {
          if target in fs {
            return Fail(TargetExists(target));
          }
          return Fail(ParentNotADirectory(target));
        }
        ghost var before := fs;
        LinkFile(target, source);
        InstallStep(init, before, fs, root, base, files, todo, rel);
        todo := todo - {rel};
      }
      assert files - {} == files;
      return Pass;
    }

    /**
     * Removes the link at `target`, then every directory above it, up to but
     * not including the root, that is left empty.
     */
    method RemoveLink(target: Path)
      requires Valid(fs) && target in fs && fs[target].Link? && IsAncestor(root, target)
      modifies this
      ensures Valid(fs)
      ensures Keeps(fs, old(fs))
      ensures target !in fs
      ensures forall p :: p in old(fs) && p !in fs ==>
        p == target || (IsAncestor(p, target) && IsAncestor(root, p) && old(fs)[p].Dir?)
      ensures forall d :: d in fs && IsAncestor(root, d) && IsAncestor(d, target) ==> HasDescendant(fs, d)
    {
      ghost var init := fs;
      PruneStart(fs, root, target);
      fs := fs - {target};
      var k: nat := |target| - 1;
      while k > |root| && !HasDescendant(fs, target[..k])
        invariant PruneProgress(init, fs, root, target, k)
        decreases k
      {
        PruneStep(init, fs, root, target, k);
        fs := fs - {target[..k]};
        k := k - 1;
      }
      PruneDone(init, fs, root, target, k);
    }

    /**
     * Removes the links an install made for every file below
     * `<install path>/TL_ROOT/`. A missing target is skipped; a target that is
     * not a link, or links somewhere else, fails the uninstall.
     */
    method Uninstall(name: Path) returns (r: Outcome<InstallError>)
      requires Valid(fs)
      modifies this
      ensures Valid(fs)
      ensures RemovedOnlyOwned(old(fs), fs, root, SourceRoot(name), SourceFiles(old(fs), SourceRoot(name)))
      ensures r.Pass? <==>
        forall rel :: rel in SourceFiles(old(fs), SourceRoot(name)) ==>
          !UnlinkRefused(old(fs), root + rel, SourceRoot(name) + rel)
      ensures r.Pass? ==> Uninstalled(old(fs), fs, root, SourceRoot(name), SourceFiles(old(fs), SourceRoot(name)))
      ensures r.Fail? ==> r.error.ForeignLink? || r.error.NotALink?
      ensures r.Fail? ==>
        exists rel :: rel in SourceFiles(old(fs), SourceRoot(name)) && r.error.path == root + rel &&
          UnlinkRefused(old(fs), root + rel, SourceRoot(name) + rel) &&
          (r.error.ForeignLink? <==> old(fs)[root + rel].Link?)
    {
      var base := SourceRoot(name);
      ghost var init := fs;
      ghost var files := SourceFiles(fs, base);
      var todo := SourceFiles(fs, base);
      while todo != {}
        invariant Valid(fs) && UninstallProgress(init, fs, root, base, files, todo)
        decreases todo
      {
        var rel :| rel in todo;
        var target, source := root + rel, base + rel;
        if target in fs {
          if fs[target] != Link(source) {
            if fs[target].Link? {
              return Fail(ForeignLink(target));
            }
            return Fail(NotALink(target));
          }
          ghost var before := fs;
          assert IsAncestor(root, target);
          RemoveLink(target);
          UninstallRemoveStep(init, before, fs, root, base, files, todo, rel);
        } else {
          UninstallSkipStep(init, fs, root, base, files, todo, rel);
        }
        todo := todo - {rel};
      }
      assert files - {} == files;
      return Pass;
    }
  }

  /** The installer registered for legacy modules accepts that type and no other. */
  lemma SupportsOnlyLegacyModules(installer: LegacyContaoModuleInstaller, packageType: string)
    requires installer.installerType == LegacyModuleType
    ensures installer.Supports(packageType) <==> packageType == "legacy-contao-module"
    ensures !installer.Supports("contao-module") && !installer.Supports("library")
  {
  }
}
