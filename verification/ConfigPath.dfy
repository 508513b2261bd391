/** The configuration directory: a walk from the root that creates what is missing and
    refuses a path whose directories cannot protect secrets. */
module ConfigPath {
  import opened Prelude

  type Path = seq<string>
  datatype Access = Access(read: bool, write: bool, search: bool)

  /** The twelve mode bits. */
  datatype Mode = Mode(setuid: bool, setgid: bool, sticky: bool, user: Access, group: Access, other: Access)

  const ALL := Access(true, true, true)
  const NONE := Access(false, false, false)
  const PRIVATE := Mode(false, false, false, ALL, NONE, NONE)     // 0700
  const ROOT: nat := 0

  /** `Other` is anything an open for a directory that follows no link rejects. */
  datatype Node = Dir(owner: nat, mode: Mode) | Other

  type Fs = map<Path, Node>

  /** What the operating system allows the caller: making a name in its parent, and
      opening a directory with these attributes. */
  datatype System = System(mayMake: Path -> bool, mayOpen: (Path, Node) -> bool)

  datatype Refusal =
    | DotDot | NotADirectory | Denied
    | ForeignLeaf | UserAncestorOfRoot | ForeignAncestor | WritableLeaf | WritableAncestor

  predicate Writable(mode: Mode) {
    mode.group.write || mode.other.write
  }

  predicate Closed(mode: Mode) {
    mode.group == NONE && mode.other == NONE
  }

  function Without(a: Access, mask: Access): Access {
    Access(a.read && !mask.read, a.write && !mask.write, a.search && !mask.search)
  }

  /** What `mkdir` makes of a requested mode. */
  function Masked(mode: Mode, umask: Mode): Mode {
    mode.(user := Without(mode.user, umask.user), group := Without(mode.group, umask.group),
          other := Without(mode.other, umask.other))
  }

  /** The ownership rules of one directory, in the order in which they are reported. */
  function Validate(caller: nat, owner: nat, mode: Mode, leaf: bool, created: bool, trusted: bool): (r: Option<Refusal>)
    ensures r.None? <==> && (leaf ==> owner == caller)
                         && (!created ==> && owner in {caller, ROOT}
                                          && (Writable(mode) ==> if leaf then trusted else mode.sticky))
  {
    if leaf && owner != caller then Some(ForeignLeaf)
    else if caller == ROOT && !created && owner != ROOT then Some(UserAncestorOfRoot)
    else if !created && owner != caller && owner != ROOT then Some(ForeignAncestor)
    else if !created && leaf && Writable(mode) && !trusted then Some(WritableLeaf)
    else if !created && !leaf && Writable(mode) && !mode.sticky then Some(WritableAncestor)
    else None
  }

  // ---- what the walk promises, stated on the filesystem it starts from --------------------

  /** Some strict prefix of the first `n` components is closed to others; one that is
      missing will be. */
  ghost predicate Sheltered(fs: Fs, path: Path, n: nat)
    requires n <= |path|
  {
    exists k :: 1 <= k < n && (path[..k] !in fs || (fs[path[..k]].Dir? && Closed(fs[path[..k]].mode)))
  }

  /** Why the walk stops at the directory `p`, if it does. */
  function Judge(sys: System, caller: nat, fs: Fs, p: Path, leaf: bool, trusted: bool): Option<Refusal> {
    if p !in fs then
      if sys.mayMake(p) && sys.mayOpen(p, Dir(caller, PRIVATE)) then None else Some(Denied)
    else if fs[p].Other? then Some(NotADirectory)
    else if !sys.mayOpen(p, fs[p]) then Some(Denied)
    else Validate(caller, fs[p].owner, fs[p].mode, leaf, false, trusted)
  }

  ghost function Objection(sys: System, caller: nat, fs: Fs, path: Path, n: nat): Option<Refusal>
    requires n <= |path|
  {
    Judge(sys, caller, fs, path[..n], n == |path|, Sheltered(fs, path, n))
  }

  /** The walk gets past the first `n` components. */
  ghost predicate Passes(sys: System, caller: nat, fs: Fs, path: Path, n: nat)
    requires n <= |path|
  {
    forall m :: 1 <= m <= n ==> Objection(sys, caller, fs, path, m).None?
  }

  ghost predicate Acceptable(sys: System, caller: nat, fs: Fs, path: Path) {
    Passes(sys, caller, fs, path, |path|)
  }

  /** `fs` with the missing ones among the first `n` components made private. */
  function Made(caller: nat, fs: Fs, path: Path, n: nat): Fs
    requires n <= |path|
  {
    if n == 0 then fs
    else
      var above := Made(caller, fs, path, n - 1);
      if path[..n] in fs then above else above[path[..n] := Dir(caller, PRIVATE)]
  }

  function After(caller: nat, fs: Fs, path: Path): Fs {
    Made(caller, fs, path, |path|)[path := Dir(caller, PRIVATE)]
  }

  /** Whatever was there is as it was, mode and owner; what is new is one of the first
      `n` components, private and the caller's. */
  lemma {:induction false} MadeMeaning(caller: nat, fs: Fs, path: Path, n: nat, q: Path)
    requires n <= |path|
    ensures var made := Made(caller, fs, path, n);
            && (q in fs ==> q in made && made[q] == fs[q])
            && (q in made && q !in fs <==> q !in fs && 1 <= |q| <= n && q == path[..|q|])
            && (q in made && q !in fs ==> made[q] == Dir(caller, PRIVATE))
  {
    if n > 0 {
      MadeMeaning(caller, fs, path, n - 1, q);
    }
  }

  /** `n` is the first component the walk objects to, with this refusal. */
  ghost predicate StopsAt(sys: System, caller: nat, fs: Fs, path: Path, n: nat, why: Refusal)
    requires 1 <= n <= |path|
  {
    Objection(sys, caller, fs, path, n) == Some(why) && Passes(sys, caller, fs, path, n - 1)
  }

  /** How many components exist when the walk stops at `n`. */
  function Reached(sys: System, fs: Fs, path: Path, n: nat): (r: nat)
    requires 1 <= n <= |path|
    ensures r <= |path|
  {
    if path[..n] !in fs && !sys.mayMake(path[..n]) then n - 1 else n
  }

  /** The filesystem after the walk has tried to enter `p`. */
  function Entered(sys: System, caller: nat, fs: Fs, p: Path): Fs {
    if p in fs || !sys.mayMake(p) then fs else fs[p := Dir(caller, PRIVATE)]
  }

  predicate Shelters(fs: Fs, p: Path) {
    p !in fs || (fs[p].Dir? && Closed(fs[p].mode))
  }

  /** Creating the components above changes nothing for the `n`th. */
  lemma NextComponent(sys: System, caller: nat, fs: Fs, path: Path, n: nat, now: Fs, trusted: bool)
    requires 1 <= n <= |path| && now == Made(caller, fs, path, n - 1) && (trusted <==> Sheltered(fs, path, n))
    ensures Judge(sys, caller, now, path[..n], n == |path|, trusted) == Objection(sys, caller, fs, path, n)
    ensures Entered(sys, caller, now, path[..n]) == Made(caller, fs, path, Reached(sys, fs, path, n))
    ensures Shelters(now, path[..n]) <==> Shelters(fs, path[..n])
    ensures Objection(sys, caller, fs, path, n).None? ==> Reached(sys, fs, path, n) == n
  {
    MadeMeaning(caller, fs, path, n - 1, path[..n]);
  }

  lemma PassOne(sys: System, caller: nat, fs: Fs, path: Path, n: nat)
    requires 1 <= n <= |path| && Passes(sys, caller, fs, path, n - 1) && Objection(sys, caller, fs, path, n).None?
    ensures Passes(sys, caller, fs, path, n)
    ensures n < |path| ==> (Sheltered(fs, path, n + 1) <==> Sheltered(fs, path, n) || Shelters(fs, path[..n]))
  {
    if n < |path| {
      ShelterGrows(fs, path, n);
    }
  }

  // ---- the walk ------------------------------------------------------------------------------

  class FileSystem {
    var nodes: Fs
    const sys: System

    constructor (nodes: Fs, sys: System)
      ensures this.nodes == nodes && this.sys == sys
    {
      this.nodes, this.sys := nodes, sys;
    }

    /** One component: make it if missing, open it, judge it, note whether it shelters
        what lies below. */
    method Enter(p: Path, leaf: bool, caller: nat, umask: Mode, trusted: bool)
      returns (refusal: Option<Refusal>, shelters: bool)
      modifies this`nodes
      ensures refusal == Judge(sys, caller, old(nodes), p, leaf, trusted)
      ensures nodes == Entered(sys, caller, old(nodes), p)
      ensures refusal.None? && !leaf ==> (shelters <==> trusted || Shelters(old(nodes), p))
    {
      PrivateIsClosed();
      shelters := trusted;
      var created := p !in nodes;
      if created {
        if !sys.mayMake(p) { return Some(Denied), shelters; }
        nodes := nodes[p := Dir(caller, Masked(PRIVATE, umask))];
        nodes := nodes[p := Dir(caller, PRIVATE)];
      }
      if nodes[p].Other? { return Some(NotADirectory), shelters; }
      if !sys.mayOpen(p, nodes[p]) { return Some(Denied), shelters; }
      var owner, mode := nodes[p].owner, nodes[p].mode;
      refusal := Validate(caller, owner, mode, leaf, created, trusted);
      if refusal.Some? { return; }
      if !leaf && owner in {caller, ROOT} && Closed(mode) { shelters := true; }
      if created { nodes := nodes[p := Dir(owner, PRIVATE)]; }
    }

    /** The loop over the components: stop at the first objection, `at`. */
    method Descend(path: Path, caller: nat, umask: Mode) returns (refusal: Option<Refusal>, ghost at: nat)
      modifies this`nodes
      ensures match refusal
              case None => Acceptable(sys, caller, old(nodes), path) && nodes == Made(caller, old(nodes), path, |path|)
              case Some(why) =>
                && 1 <= at <= |path| && StopsAt(sys, caller, old(nodes), path, at, why)
                && nodes == Made(caller, old(nodes), path, Reached(sys, old(nodes), path, at))
    {
      ghost var fs := nodes;
      var trusted, index := false, 0;
      assert nodes == Made(caller, fs, path, 0);
      while index < |path|
        invariant 0 <= index <= |path|
        invariant nodes == Made(caller, fs, path, index)
        invariant Passes(sys, caller, fs, path, index)
        invariant index < |path| ==> (trusted <==> Sheltered(fs, path, index + 1))
      {
        at := index + 1;
        NextComponent(sys, caller, fs, path, at, nodes, trusted);
        refusal, trusted := Enter(path[..index + 1], index + 1 == |path|, caller, umask, trusted);
        if refusal.Some? { return; }
        PassOne(sys, caller, fs, path, at);
        index := index + 1;
      }
      refusal, at := None, 0;
    }

    /** The outcome is decided by the directories on the path and what the system
        allows; the umask has no part in it. */
    method InitConfigDir(base: Path, caller: nat, umask: Mode) returns (r: Result<Path, Refusal>, ghost at: nat)
      modifies this`nodes
      ensures var path := base + ["clawrium"];
              match r
              case Ok(dir) =>
                && dir == path && ".." !in path && Acceptable(sys, caller, old(nodes), path)
                && nodes == After(caller, old(nodes), path)
              case Err(why) =>
                if ".." in path then why == DotDot && nodes == old(nodes)
                else && 1 <= at <= |path| && StopsAt(sys, caller, old(nodes), path, at, why)
                     && nodes == Made(caller, old(nodes), path, Reached(sys, old(nodes), path, at))
    {
      var path := base + ["clawrium"];
      at := 0;
      if ".." in path { return Err(DotDot), at; }
      var refusal;
      refusal, at := Descend(path, caller, umask);
      if refusal.Some? { return Err(refusal.value), at; }
      nodes := nodes[path := Dir(caller, PRIVATE)];
      r := Ok(path);
    }
  }

  lemma PrivateIsClosed()
    ensures Closed(PRIVATE) && !Writable(PRIVATE)
  {
  }

  lemma ShelterGrows(fs: Fs, path: Path, n: nat)
    requires 1 <= n < |path|
    ensures Sheltered(fs, path, n + 1) <==>
            Sheltered(fs, path, n) || path[..n] !in fs || (fs[path[..n]].Dir? && Closed(fs[path[..n]].mode))
  {
  }

  // ---- what follows ------------------------------------------------------------------------------

  /** The `n`th component is one the walk can make, or a directory that the caller may use. */
  ghost predicate Fit(sys: System, caller: nat, fs: Fs, path: Path, n: nat)
    requires n <= |path|
  {
    var p := path[..n];
    if p !in fs then
      // missing: made with mode 0700
      sys.mayMake(p) && sys.mayOpen(p, Dir(caller, Mode(false, false, false, ALL, NONE, NONE)))
    else
      && fs[p].Dir? && sys.mayOpen(p, fs[p])
      && fs[p].owner in (if n == |path| then {caller} else {caller, 0})
      // where others may write, an ancestor is sticky, and the leaf lies below a closed or a missing one
      && (fs[p].mode.group.write || fs[p].mode.other.write ==>
            if n < |path| then fs[p].mode.sticky
            else exists k :: 1 <= k < n && (path[..k] !in fs
                   || (fs[path[..k]].Dir? && fs[path[..k]].mode.group == NONE && fs[path[..k]].mode.other == NONE)))
  }

  lemma FitMeans(sys: System, caller: nat, fs: Fs, path: Path, n: nat)
    requires 1 <= n <= |path|
    ensures Fit(sys, caller, fs, path, n) <==> Objection(sys, caller, fs, path, n).None?
  {
  }

  /** The walk succeeds exactly when every component is fit. */
  lemma AcceptableIff(sys: System, caller: nat, fs: Fs, path: Path)
    ensures Acceptable(sys, caller, fs, path) <==> forall n :: 1 <= n <= |path| ==> Fit(sys, caller, fs, path, n)
  {
    forall n | 1 <= n <= |path| ensures Fit(sys, caller, fs, path, n) <==> Objection(sys, caller, fs, path, n).None? {
      FitMeans(sys, caller, fs, path, n);
    }
  }

  /** Why an existing directory is refused; at most one of these holds. */
  lemma RefusalMeaning(sys: System, caller: nat, fs: Fs, path: Path, n: nat)
    requires 1 <= n <= |path| && path[..n] in fs
    ensures var p := path[..n]; var leaf := n == |path|; var why := Objection(sys, caller, fs, path, n);
            && (fs[p].Other? <==> why == Some(NotADirectory))
            && (fs[p].Dir? && !sys.mayOpen(p, fs[p]) <==> why == Some(Denied))
            && (fs[p].Dir? && sys.mayOpen(p, fs[p]) ==>
                  var owner, mode := fs[p].owner, fs[p].mode;
                  && (leaf && owner != caller <==> why == Some(ForeignLeaf))
                  && (!leaf && caller == 0 != owner <==> why == Some(UserAncestorOfRoot))
                  && (!leaf && caller != 0 && owner !in {caller, 0} <==> why == Some(ForeignAncestor))
                  && (leaf && owner == caller && Writable(mode) && !Sheltered(fs, path, n) <==> why == Some(WritableLeaf))
                  && (!leaf && owner in {caller, 0} && Writable(mode) && !mode.sticky <==> why == Some(WritableAncestor)))
  {
  }

  /** A successful walk leaves a private leaf of the caller's; every ancestor is a
      directory of the caller's or root's, one that predates the walk is as it was, and
      sticky where others may write; nothing off the path changes. */
  lemma SuccessIsSafe(sys: System, caller: nat, fs: Fs, path: Path)
    requires path != [] && Acceptable(sys, caller, fs, path)
    ensures var after := After(caller, fs, path);
            && path in after && after[path] == Dir(caller, PRIVATE)
            && (forall k :: 1 <= k < |path| ==>
                  path[..k] in after && after[path[..k]].Dir? && after[path[..k]].owner in {caller, ROOT})
            && (forall k :: 1 <= k < |path| && path[..k] in fs ==>
                  && after[path[..k]] == fs[path[..k]]
                  && (Writable(fs[path[..k]].mode) ==> fs[path[..k]].mode.sticky))
            && (forall k :: 1 <= k < |path| && path[..k] !in fs ==> after[path[..k]].mode == PRIVATE)
            && (forall q :: q in after && !(exists k :: 1 <= k <= |path| && q == path[..k]) ==> q in fs && after[q] == fs[q])
  {
    assert path[..|path|] == path;
    MadeMeaning(caller, fs, path, |path|, path);
    forall k | 1 <= k < |path| ensures Objection(sys, caller, fs, path, k).None? && path[..k] != path {
      assert |path[..k]| == k;
    }
    forall k | 1 <= k < |path| ensures Carries(caller, fs, Made(caller, fs, path, |path|), path[..k])
                                       && path[..k] in Made(caller, fs, path, |path|) {
      MadeCarries(caller, fs, path, |path|, k);
    }
    forall q | q in After(caller, fs, path) && !(exists k :: 1 <= k <= |path| && q == path[..k])
      ensures q in fs && After(caller, fs, path)[q] == fs[q]
    {
      MadeMeaning(caller, fs, path, |path|, q);
      assert q != path[..|path|];
      assert 1 <= |q| <= |path| ==> q != path[..|q|];
    }
  }

  /** The caller may open its own private directories. */
  ghost predicate Sensible(sys: System, caller: nat) {
    forall p: Path :: sys.mayOpen(p, Dir(caller, PRIVATE))
  }

  /** What a walk leaves under `p`: what was there, or nothing, or its own directory. */
  predicate Carries(caller: nat, fs: Fs, left: Fs, p: Path) {
    if p in fs then p in left && left[p] == fs[p] else p in left ==> left[p] == Dir(caller, PRIVATE)
  }

  lemma ShelterCarried(caller: nat, fs: Fs, left: Fs, path: Path, n: nat)
    requires n <= |path| && forall k :: 1 <= k < n ==> Carries(caller, fs, left, path[..k])
    ensures Sheltered(left, path, n) <==> Sheltered(fs, path, n)
  {
    PrivateIsClosed();
    if Sheltered(fs, path, n) {
      var k :| 1 <= k < n && (path[..k] !in fs || (fs[path[..k]].Dir? && Closed(fs[path[..k]].mode)));
      assert Carries(caller, fs, left, path[..k]);
    }
    if Sheltered(left, path, n) {
      var k :| 1 <= k < n && (path[..k] !in left || (left[path[..k]].Dir? && Closed(left[path[..k]].mode)));
      assert Carries(caller, fs, left, path[..k]);
    }
  }

  lemma ObjectionCarried(sys: System, caller: nat, fs: Fs, left: Fs, path: Path, n: nat)
    requires 1 <= n <= |path| && Sensible(sys, caller)
    requires forall k :: 1 <= k <= n ==> Carries(caller, fs, left, path[..k])
    requires path[..n] !in fs && path[..n] in left ==> sys.mayMake(path[..n])
    ensures Objection(sys, caller, left, path, n) == Objection(sys, caller, fs, path, n)
  {
    ShelterCarried(caller, fs, left, path, n);
    PrivateIsClosed();
    assert Carries(caller, fs, left, path[..n]);
  }

  lemma MadeCarries(caller: nat, fs: Fs, path: Path, n: nat, k: nat)
    requires n <= |path| && 1 <= k <= |path|
    ensures Carries(caller, fs, Made(caller, fs, path, n), path[..k])
    ensures path[..k] in Made(caller, fs, path, n) <==> path[..k] in fs || k <= n
  {
    assert |path[..k]| == k;
    MadeMeaning(caller, fs, path, n, path[..k]);
  }

  lemma {:induction false} NothingMissing(caller: nat, fs: Fs, path: Path, n: nat)
    requires n <= |path| && forall k :: 1 <= k <= n ==> path[..k] in fs
    ensures Made(caller, fs, path, n) == fs
  {
    if n > 0 {
      NothingMissing(caller, fs, path, n - 1);
      assert path[..n] in fs;
    }
  }

  /** A second walk succeeds and changes nothing. */
  lemma SecondWalkIsIdle(sys: System, caller: nat, fs: Fs, path: Path)
    requires path != [] && Acceptable(sys, caller, fs, path) && Sensible(sys, caller)
    ensures var after := After(caller, fs, path);
            Acceptable(sys, caller, after, path) && After(caller, after, path) == after
  {
    var after := After(caller, fs, path);
    PrivateIsClosed();
    assert path[..|path|] == path;
    forall k | 1 <= k < |path| ensures Carries(caller, fs, after, path[..k]) && path[..k] in after {
      MadeCarries(caller, fs, path, |path|, k);
      assert |path[..k]| == k;
    }
    forall n | 1 <= n <= |path| ensures Objection(sys, caller, after, path, n).None? {
      assert Objection(sys, caller, fs, path, n).None?;
      if n < |path| {
        ObjectionCarried(sys, caller, fs, after, path, n);
      }
    }
    NothingMissing(caller, after, path, |path|);
  }

  /** A refused walk is refused again, at the same component and for the same reason,
      until somebody changes that component. */
  lemma RefusalIsStable(sys: System, caller: nat, fs: Fs, path: Path, n: nat, why: Refusal)
    requires 1 <= n <= |path| && StopsAt(sys, caller, fs, path, n, why) && Sensible(sys, caller)
    ensures var left := Made(caller, fs, path, Reached(sys, fs, path, n));
            StopsAt(sys, caller, left, path, n, why) && Made(caller, left, path, Reached(sys, left, path, n)) == left
  {
    var reached := Reached(sys, fs, path, n);
    var left := Made(caller, fs, path, reached);
    forall k | 1 <= k <= n ensures Carries(caller, fs, left, path[..k]) && (path[..k] in left <==> path[..k] in fs || k <= reached) {
      MadeCarries(caller, fs, path, reached, k);
    }
    forall m | 1 <= m <= n ensures Objection(sys, caller, left, path, m) == Objection(sys, caller, fs, path, m) {
      assert m == n || Objection(sys, caller, fs, path, m).None?;
      ObjectionCarried(sys, caller, fs, left, path, m);
    }
    assert left == Made(caller, fs, path, reached);
    NothingMissing(caller, left, path, Reached(sys, left, path, n));
  }
}
