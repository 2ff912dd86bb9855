/** Moving shared directories into a per-user layout, on an abstract file tree
    (backend/scripts/migrate_user_isolation.py). */
module Migration {
  import opened Options
  import opened RecencyLists

  // ------------------------------------------------------------------ file trees

  type Name = string
  type Path = seq<Name>
  datatype Node = Dir | File(content: string)

  /** The nodes below the base directory; the base directory itself is []. */
  type Tree = map<Path, Node>

  function At(t: Tree, p: Path): Option<Node> {
    if p in t then Some(t[p]) else None
  }

  /** What is found at `q` inside `d`. */
  function Below(t: Tree, d: Path, q: Path): Option<Node> {
    At(t, d + q)
  }

  /** Directory `d1` of `t1` holds just what directory `d2` of `t2` holds. */
  ghost predicate SameBelow(t1: Tree, d1: Path, t2: Tree, d2: Path) {
    forall q :: Below(t1, d1, q) == Below(t2, d2, q)
  }

  ghost predicate NothingBelow(t: Tree, d: Path) {
    forall q :: Below(t, d, q) == None
  }

  function Parent(p: Path): Path
    requires p != []
  {
    p[..|p| - 1]
  }

  function Base(p: Path): Name
    requires p != []
  {
    p[|p| - 1]
  }

  ghost predicate IsTree(t: Tree) {
    At(t, []) == Some(Dir) && forall p <- t :: p == [] || At(t, Parent(p)) == Some(Dir)
  }

  /** A path that is not there has nothing below it. */
  lemma {:induction false} AbsentIsEmpty(t: Tree, d: Path, p: Path)
    requires IsTree(t) && d !in t && d <= p
    ensures p !in t
    decreases |p|
  {
    if p != d { AbsentIsEmpty(t, d, Parent(p)); }
  }

  /** `mkdir(parents=True, exist_ok=True)`; None if a file is in the way. */
  function MakeDirs(t: Tree, p: Path): Option<Tree>
    decreases |p|
  {
    if p in t then (if t[p].Dir? then Some(t) else None)
    else if p == [] then None
    else
      match MakeDirs(t, Parent(p))
      case Some(t1) => Some(t1[p := Dir])
      case None => None
  }

  lemma PrefixOfSnoc(q: Path, p: Path)
    requires p != []
    ensures q <= p <==> q <= Parent(p) || q == p
  {
  }

  lemma {:induction false} MakeDirsAdds(t: Tree, p: Path)
    requires IsTree(t) && MakeDirs(t, p).Some?
    ensures IsTree(MakeDirs(t, p).value) && At(MakeDirs(t, p).value, p) == Some(Dir)
    ensures forall q :: At(MakeDirs(t, p).value, q) == if q <= p && q !in t then Some(Dir) else At(t, q)
    decreases |p|
  {
    if p in t {
      forall q | q <= p ensures q in t {
        if q !in t { AbsentIsEmpty(t, q, p); }
      }
    } else {
      MakeDirsAdds(t, Parent(p));
      forall q ensures At(MakeDirs(t, p).value, q) == if q <= p && q !in t then Some(Dir) else At(t, q) {
        PrefixOfSnoc(q, p);
      }
    }
  }

  /** `os.rename` of a directory to a place where nothing is. */
  function Rename(t: Tree, src: Path, dst: Path): Tree {
    assert forall q <- t | src <= q :: src + (dst + q[|src|..])[|dst|..] == q;
    var kept := map p | p in t && !(src <= p) :: t[p];
    var landed := set q | q in t && src <= q :: dst + q[|src|..];
    kept + map p | p in landed :: t[src + p[|dst|..]]
  }

  lemma RenameAt(t: Tree, src: Path, dst: Path, p: Path)
    ensures dst <= p && src + p[|dst|..] in t ==> At(Rename(t, src, dst), p) == At(t, src + p[|dst|..])
    ensures !(dst <= p && src + p[|dst|..] in t) && src <= p ==> At(Rename(t, src, dst), p) == None
    ensures !(dst <= p && src + p[|dst|..] in t) && !(src <= p) ==> At(Rename(t, src, dst), p) == At(t, p)
  {
    var landed := set q | q in t && src <= q :: dst + q[|src|..];
    assert forall q <- t | src <= q :: src + (dst + q[|src|..])[|dst|..] == q;
    if dst <= p && src + p[|dst|..] in t {
      var q := src + p[|dst|..];
      assert dst + q[|src|..] == p;
      assert p in landed;
    }
    if p in landed {
      var q :| q in t && src <= q && p == dst + q[|src|..];
      assert src + p[|dst|..] == q;
    }
  }

  /** `shutil.move` of a directory: into an existing directory, else to the path itself; None if that is taken. */
  function Move(t: Tree, src: Path, dst: Path): Option<Tree>
    requires src != []
  {
    var place := if At(t, dst) == Some(Dir) then dst + [Base(src)] else dst;
    if place in t then None else Some(Rename(t, src, place))
  }

  // ------------------------------------------------------------------ jobs

  /** The two migrations: thread directories by owner, agent directories to one user. */
  datatype Job = Threads(owners: map<Name, Name>) | Agents(user: Name) {
    function Source(): Path {
      if Threads? then ["threads"] else ["agents"]
    }

    function Conflicts(): Path {
      if Threads? then ["migration-conflicts"] else ["migration-conflicts", "agents"]
    }

    function Owner(name: Name): Name {
      if Agents? then user else if name in owners then owners[name] else "default"
    }

    function From(name: Name): Path { Source() + [name] }

    function Dest(name: Name): Path { ["users", Owner(name)] + Source() + [name] }

    function Aside(name: Name): Path { Conflicts() + [name] }

    /** Where the report says the directory went. */
    function Reported(t: Tree, name: Name): Path {
      if Dest(name) in t then Aside(name) else Dest(name)
    }

    /** Where the directory goes. */
    function Target(t: Tree, name: Name): Path {
      if Dest(name) !in t then Dest(name)
      else if Aside(name) !in t then Aside(name)
      else Aside(name) + [name]
    }

    /** The paths that moving `name` may change. */
    predicate InZone(name: Name, p: Path) {
      From(name) <= p || Dest(name) <= p || Aside(name) <= p
    }

    /** The paths that moving `name` may create as directories. */
    predicate Scaffold(name: Name, p: Path) {
      p <= Parent(Dest(name)) || p <= Parent(Aside(name))
    }
  }

  datatype Action = Moved(dest: Path) | Conflict(aside: Path)
  datatype Entry = Entry(name: Name, user: Name, action: Action)

  /** The name can be read off any path of its zone. */
  lemma ZoneNames(job: Job, name: Name, p: Path)
    requires job.InZone(name, p)
    ensures |p| >= 2
    ensures p[0] == job.Source()[0] ==> p[1] == name
    ensures p[0] == "users" ==> |p| >= 4 && p[3] == name
    ensures p[0] == "migration-conflicts" ==> |p| > |job.Conflicts()| && p[|job.Conflicts()|] == name
    ensures p[0] == job.Source()[0] || p[0] == "users" || p[0] == "migration-conflicts"
  {
  }

  lemma ZonesApart(job: Job, m: Name, n: Name, p: Path)
    requires job.InZone(m, p) && job.InZone(n, p)
    ensures m == n
  {
    ZoneNames(job, m, p);
    ZoneNames(job, n, p);
  }

  lemma ScaffoldOutside(job: Job, m: Name, n: Name, p: Path)
    requires job.Scaffold(m, p)
    ensures !job.InZone(n, p)
  {
    assert Parent(job.Dest(m)) == ["users", job.Owner(m)] + job.Source();
    assert Parent(job.Aside(m)) == job.Conflicts();
    if p != [] {
      assert p[0] == "users" || p[0] == "migration-conflicts";
    }
  }

  // ------------------------------------------------------------------ moving one directory

  datatype Outcome = Outcome(tree: Tree, ok: bool)

  function MoveOne(t: Tree, job: Job, name: Name): Outcome {
    match MakeDirs(t, Parent(job.Reported(t, name)))
    case None => Outcome(t, false)
    case Some(t1) =>
      match Move(t1, job.From(name), job.Reported(t, name))
      case None => Outcome(t1, false)
      case Some(t2) => Outcome(t2, true)
  }

  /** The tree just before the move. */
  lemma MoveOneByRename(t: Tree, job: Job, name: Name)
    requires IsTree(t) && At(t, job.From(name)) == Some(Dir)
    ensures var r := MoveOne(t, job, name);
      if r.ok then
        var made := MakeDirs(t, Parent(job.Reported(t, name)));
        && made.Some?
        && r.tree == Rename(made.value, job.From(name), job.Target(t, name))
        && job.Target(t, name) !in made.value
        && At(made.value, Parent(job.Target(t, name))) == Some(Dir)
      else
        var made := MakeDirs(t, Parent(job.Reported(t, name)));
        r.tree == if made.Some? then made.value else t
  {
    var goal := job.Reported(t, name);
    if MakeDirs(t, Parent(goal)).Some? {
      MakeDirsAdds(t, Parent(goal));
      assert Base(job.From(name)) == name;
      assert !(goal <= Parent(goal));
      var t1 := MakeDirs(t, Parent(goal)).value;
      assert At(t1, goal) == At(t, goal);
    }
  }

  /** Moving one directory changes nothing outside its zone, but for making directories. */
  lemma MoveOneFrame(t: Tree, job: Job, name: Name, p: Path)
    requires IsTree(t) && At(t, job.From(name)) == Some(Dir) && !job.InZone(name, p)
    ensures var after := At(MoveOne(t, job, name).tree, p);
      after == At(t, p) || (job.Scaffold(name, p) && p !in t && after == Some(Dir))
  {
    MoveOneByRename(t, job, name);
    var parent := Parent(job.Reported(t, name));
    if MakeDirs(t, parent).Some? {
      MakeDirsAdds(t, parent);
      if MoveOne(t, job, name).ok {
        RenameAt(MakeDirs(t, parent).value, job.From(name), job.Target(t, name), p);
      }
    }
  }

  /** ... so other names see the same. */
  lemma MoveOneOthers(t: Tree, job: Job, name: Name, other: Name, p: Path)
    requires IsTree(t) && At(t, job.From(name)) == Some(Dir) && name != other && job.InZone(other, p)
    ensures At(MoveOne(t, job, name).tree, p) == At(t, p)
  {
    if job.InZone(name, p) { ZonesApart(job, name, other, p); }
    if job.Scaffold(name, p) { ScaffoldOutside(job, name, other, p); }
    MoveOneFrame(t, job, name, p);
  }

  /** What is not moved stays as it was: nothing is overwritten. */
  lemma MoveOneKeeps(t: Tree, job: Job, name: Name, p: Path)
    requires IsTree(t) && At(t, job.From(name)) == Some(Dir) && p in t
    requires !(job.From(name) <= p) || !MoveOne(t, job, name).ok
    ensures At(MoveOne(t, job, name).tree, p) == At(t, p)
  {
    MoveOneByRename(t, job, name);
    var parent := Parent(job.Reported(t, name));
    if MakeDirs(t, parent).Some? {
      MakeDirsAdds(t, parent);
      if MoveOne(t, job, name).ok {
        var made := MakeDirs(t, parent).value;
        if job.Target(t, name) <= p { AbsentIsEmpty(made, job.Target(t, name), p); }
        RenameAt(made, job.From(name), job.Target(t, name), p);
      }
    }
  }

  /** The directory has gone from its old place, with all its contents, to `place`. */
  ghost predicate Arrived(t: Tree, after: Tree, src: Path, place: Path) {
    SameBelow(after, place, t, src) && NothingBelow(after, src)
  }

  lemma SourceOutside(job: Job, name: Name, p: Path)
    requires job.From(name) <= p
    ensures !(job.Dest(name) <= p) && !(job.Aside(name) <= p) && !job.Scaffold(name, p)
  {
    assert p[0] == job.Source()[0];
  }

  lemma MoveOneArrives(t: Tree, job: Job, name: Name)
    requires IsTree(t) && At(t, job.From(name)) == Some(Dir) && MoveOne(t, job, name).ok
    ensures Arrived(t, MoveOne(t, job, name).tree, job.From(name), job.Target(t, name))
  {
    MoveOneByRename(t, job, name);
    var parent, src, dst := Parent(job.Reported(t, name)), job.From(name), job.Target(t, name);
    MakeDirsAdds(t, parent);
    var made, after := MakeDirs(t, parent).value, MoveOne(t, job, name).tree;
    forall q ensures Below(after, dst, q) == Below(t, src, q) {
      SourceOutside(job, name, src + q);
      RenameAt(made, src, dst, dst + q);
      assert (dst + q)[|dst|..] == q;
      if dst + q in made { AbsentIsEmpty(made, dst, dst + q); }
      if src <= dst + q { SourceOutside(job, name, dst + q); }
    }
    forall q ensures Below(after, src, q) == None {
      SourceOutside(job, name, src + q);
      RenameAt(made, src, dst, src + q);
    }
  }

  lemma RenameIsTree(t: Tree, src: Path, dst: Path)
    requires IsTree(t) && src in t && dst !in t && !(src <= dst) && src != [] && dst != []
    requires At(t, Parent(dst)) == Some(Dir)
    ensures IsTree(Rename(t, src, dst))
  {
    RenameAt(t, src, dst, []);
    forall p | p in Rename(t, src, dst) && p != [] ensures At(Rename(t, src, dst), Parent(p)) == Some(Dir) {
      RenameAt(t, src, dst, p);
      if dst <= p && src + p[|dst|..] in t {
        LandedParent(t, src, dst, p);
      } else {
        KeptParent(t, src, dst, p);
      }
    }
  }

  lemma LandedParent(t: Tree, src: Path, dst: Path, p: Path)
    requires IsTree(t) && !(src <= dst) && dst != [] && At(t, Parent(dst)) == Some(Dir)
    requires dst <= p && src + p[|dst|..] in t
    ensures At(Rename(t, src, dst), Parent(p)) == Some(Dir)
  {
    RenameAt(t, src, dst, Parent(p));
    if p == dst {
      assert !(dst <= Parent(p)) && !(src <= Parent(p));
    } else {
      ParentBehind(src, dst, p);
      assert At(t, Parent(src + p[|dst|..])) == Some(Dir);
    }
  }

  lemma ParentBehind(src: Path, dst: Path, p: Path)
    requires dst <= p && p != dst
    ensures dst <= Parent(p) && src + p[|dst|..] != [] && src + Parent(p)[|dst|..] == Parent(src + p[|dst|..])
  {
  }

  lemma KeptParent(t: Tree, src: Path, dst: Path, p: Path)
    requires IsTree(t) && dst !in t && p in t && !(src <= p) && p != []
    ensures At(Rename(t, src, dst), Parent(p)) == Some(Dir)
  {
    RenameAt(t, src, dst, Parent(p));
    if dst <= Parent(p) { AbsentIsEmpty(t, dst, p); }
  }

  lemma MoveOneIsTree(t: Tree, job: Job, name: Name)
    requires IsTree(t) && At(t, job.From(name)) == Some(Dir)
    ensures IsTree(MoveOne(t, job, name).tree)
  {
    MoveOneByRename(t, job, name);
    var parent := Parent(job.Reported(t, name));
    if MakeDirs(t, parent).Some? {
      MakeDirsAdds(t, parent);
      if MoveOne(t, job, name).ok {
        if job.From(name) <= job.Target(t, name) { SourceOutside(job, name, job.Target(t, name)); }
        SourceOutside(job, name, job.From(name));
        RenameIsTree(MakeDirs(t, parent).value, job.From(name), job.Target(t, name));
      }
    }
  }

  // ------------------------------------------------------------------ the loop over the listing

  datatype Run = Run(tree: Tree, report: seq<Entry>, ok: bool)

  function EntryFor(t: Tree, job: Job, name: Name): Entry {
    Entry(name, job.Owner(name), if job.Dest(name) in t then Conflict(job.Aside(name)) else Moved(job.Dest(name)))
  }

  /** The loop over a listing of the shared directory; `dry` only reports. */
  function MoveAll(t: Tree, job: Job, listing: seq<Name>, dry: bool): (r: Run)
    decreases |listing|
  {
    if listing == [] then Run(t, [], true)
    else
      var name, rest := listing[0], listing[1..];
      if At(t, job.From(name)) != Some(Dir) then MoveAll(t, job, rest, dry)
      else
        var moved := if dry then Outcome(t, true) else MoveOne(t, job, name);
        if !moved.ok then Run(moved.tree, [], false)
        else
          var after := MoveAll(moved.tree, job, rest, dry);
          Run(after.tree, [EntryFor(t, job, name)] + after.report, after.ok)
  }

  /** The listing has every entry of the shared directory once, in any order. */
  ghost predicate IsListing(t: Tree, job: Job, listing: seq<Name>) {
    && Distinct(listing)
    && forall n :: n in listing <==> job.From(n) in t
  }

  lemma {:induction false} RunIsTree(t: Tree, job: Job, listing: seq<Name>)
    requires IsTree(t)
    ensures IsTree(MoveAll(t, job, listing, false).tree)
    decreases |listing|
  {
    if listing != [] {
      var name := listing[0];
      if At(t, job.From(name)) == Some(Dir) {
        MoveOneIsTree(t, job, name);
        RunIsTree(MoveOne(t, job, name).tree, job, listing[1..]);
      } else {
        RunIsTree(t, job, listing[1..]);
      }
    }
  }

  /** The zone of a name is untouched by the others. */
  lemma {:induction false} RunOthers(t: Tree, job: Job, listing: seq<Name>, other: Name, p: Path)
    requires IsTree(t) && other !in listing && job.InZone(other, p)
    ensures At(MoveAll(t, job, listing, false).tree, p) == At(t, p)
    decreases |listing|
  {
    if listing != [] {
      var name := listing[0];
      if At(t, job.From(name)) == Some(Dir) {
        MoveOneIsTree(t, job, name);
        MoveOneOthers(t, job, name, other, p);
        RunOthers(MoveOne(t, job, name).tree, job, listing[1..], other, p);
      } else {
        RunOthers(t, job, listing[1..], other, p);
      }
    }
  }

  /** Two trees agree on a zone. */
  ghost predicate SameZone(t1: Tree, t2: Tree, job: Job, name: Name) {
    forall p :: job.InZone(name, p) ==> At(t1, p) == At(t2, p)
  }

  lemma SameZoneSameTarget(t1: Tree, t2: Tree, job: Job, name: Name)
    requires SameZone(t1, t2, job, name)
    ensures At(t1, job.From(name)) == At(t2, job.From(name))
    ensures job.Target(t1, name) == job.Target(t2, name) && job.Reported(t1, name) == job.Reported(t2, name)
    ensures EntryFor(t1, job, name) == EntryFor(t2, job, name)
  {
    assert job.InZone(name, job.From(name)) && job.InZone(name, job.Dest(name)) && job.InZone(name, job.Aside(name));
    assert At(t1, job.Dest(name)) == At(t2, job.Dest(name));
    assert At(t1, job.Aside(name)) == At(t2, job.Aside(name));
  }

  lemma SameZoneArrived(t1: Tree, t2: Tree, after1: Tree, after2: Tree, job: Job, name: Name)
    requires SameZone(t1, t2, job, name) && SameZone(after1, after2, job, name)
    ensures Arrived(t1, after1, job.From(name), job.Target(t1, name))
        ==> Arrived(t2, after2, job.From(name), job.Target(t2, name))
  {
    SameZoneSameTarget(t1, t2, job, name);
    var src, dst := job.From(name), job.Target(t1, name);
    if Arrived(t1, after1, src, dst) {
      forall q ensures Below(after2, dst, q) == Below(t2, src, q) {
        assert Below(after1, dst, q) == Below(t1, src, q);
        assert job.InZone(name, src + q);
      }
      forall q ensures Below(after2, src, q) == None {
        assert Below(after1, src, q) == None;
        assert job.InZone(name, src + q);
      }
    }
  }

  /** The first name of a listing: the rest of the run leaves its zone alone. */
  lemma FirstSettled(t: Tree, job: Job, listing: seq<Name>)
    requires IsTree(t) && listing != [] && Distinct(listing)
    ensures At(t, job.From(listing[0])) == Some(Dir) && MoveOne(t, job, listing[0]).ok ==>
      SameZone(MoveOne(t, job, listing[0]).tree, MoveAll(t, job, listing, false).tree, job, listing[0])
  {
    var name := listing[0];
    if At(t, job.From(name)) == Some(Dir) && MoveOne(t, job, name).ok {
      MoveOneIsTree(t, job, name);
      forall p | job.InZone(name, p)
        ensures At(MoveAll(t, job, listing, false).tree, p) == At(MoveOne(t, job, name).tree, p)
      {
        RunOthers(MoveOne(t, job, name).tree, job, listing[1..], name, p);
      }
    }
  }

  /** After the first name, the others see the tree they saw before. */
  lemma OthersSeeTheSame(t: Tree, job: Job, listing: seq<Name>, other: Name)
    requires IsTree(t) && listing != [] && At(t, job.From(listing[0])) == Some(Dir) && other != listing[0]
    ensures SameZone(MoveOne(t, job, listing[0]).tree, t, job, other)
  {
    forall p | job.InZone(other, p) ensures At(MoveOne(t, job, listing[0]).tree, p) == At(t, p) {
      MoveOneOthers(t, job, listing[0], other, p);
    }
  }

  /** When the migration succeeds, every shared directory has arrived, whole, at its one target. */
  lemma {:induction false} EveryDirectoryArrives(t: Tree, job: Job, listing: seq<Name>, name: Name)
    requires IsTree(t) && Distinct(listing)
    requires name in listing && At(t, job.From(name)) == Some(Dir) && MoveAll(t, job, listing, false).ok
    ensures Arrived(t, MoveAll(t, job, listing, false).tree, job.From(name), job.Target(t, name))
    decreases |listing|
  {
    var first, after := listing[0], MoveAll(t, job, listing, false).tree;
    if At(t, job.From(first)) != Some(Dir) {
      EveryDirectoryArrives(t, job, listing[1..], name);
    } else {
      var t1 := MoveOne(t, job, first).tree;
      if name == first {
        MoveOneArrives(t, job, name);
        FirstSettled(t, job, listing);
        SameZoneArrived(t, t, t1, after, job, name);
      } else {
        MoveOneIsTree(t, job, first);
        OthersSeeTheSame(t, job, listing, name);
        SameZoneSameTarget(t1, t, job, name);
        EveryDirectoryArrives(t1, job, listing[1..], name);
        SameZoneArrived(t1, t, after, after, job, name);
      }
    }
  }

  // ------------------------------------------------------------------ nothing is lost, nothing is overwritten

  /** Nothing that is in no moved directory ever changes, whether the run succeeds or not. */
  lemma {:induction false} NothingOverwritten(t: Tree, job: Job, listing: seq<Name>, p: Path)
    requires IsTree(t) && p in t
    requires forall n <- listing :: At(t, job.From(n)) == Some(Dir) ==> !(job.From(n) <= p)
    ensures At(MoveAll(t, job, listing, false).tree, p) == At(t, p)
    decreases |listing|
  {
    if listing != [] {
      var name := listing[0];
      if At(t, job.From(name)) == Some(Dir) {
        var t1 := MoveOne(t, job, name).tree;
        MoveOneIsTree(t, job, name);
        MoveOneKeeps(t, job, name, p);
        forall n <- listing[1..] | At(t1, job.From(n)) == Some(Dir) ensures !(job.From(n) <= p) {
          FromFrame(t, job, name, n);
        }
        NothingOverwritten(t1, job, listing[1..], p);
      } else {
        NothingOverwritten(t, job, listing[1..], p);
      }
    }
  }

  /** Moving one directory neither makes nor unmakes another. */
  lemma FromFrame(t: Tree, job: Job, name: Name, other: Name)
    requires IsTree(t) && At(t, job.From(name)) == Some(Dir)
    ensures name != other ==> At(MoveOne(t, job, name).tree, job.From(other)) == At(t, job.From(other))
  {
    if name != other { MoveOneOthers(t, job, name, other, job.From(other)); }
  }

  /** Even a run that fails halfway leaves every shared directory whole: where it was, or at its target. */
  lemma {:induction false} NothingLost(t: Tree, job: Job, listing: seq<Name>, name: Name)
    requires IsTree(t) && Distinct(listing) && name in listing && At(t, job.From(name)) == Some(Dir)
    ensures var after := MoveAll(t, job, listing, false).tree;
      || SameZone(after, t, job, name)
      || Arrived(t, after, job.From(name), job.Target(t, name))
    decreases |listing|
  {
    var first, after := listing[0], MoveAll(t, job, listing, false).tree;
    if At(t, job.From(first)) != Some(Dir) {
      NothingLost(t, job, listing[1..], name);
    } else {
      var one := MoveOne(t, job, first);
      MoveOneIsTree(t, job, first);
      if name != first {
        OthersSeeTheSame(t, job, listing, name);
        if one.ok {
          SameZoneSameTarget(one.tree, t, job, name);
          NothingLost(one.tree, job, listing[1..], name);
          SameZoneArrived(one.tree, t, after, after, job, name);
        }
      } else if one.ok {
        MoveOneArrives(t, job, name);
        FirstSettled(t, job, listing);
        SameZoneArrived(t, t, one.tree, after, job, name);
      } else {
        FailedZone(t, job, name);
      }
    }
  }

  /** A move that fails leaves its own zone as it was. */
  lemma FailedZone(t: Tree, job: Job, name: Name)
    requires IsTree(t) && At(t, job.From(name)) == Some(Dir) && !MoveOne(t, job, name).ok
    ensures SameZone(MoveOne(t, job, name).tree, t, job, name)
  {
    MoveOneByRename(t, job, name);
    var parent := Parent(job.Reported(t, name));
    if MakeDirs(t, parent).Some? { MakeDirsAdds(t, parent); }
    forall p | job.InZone(name, p) ensures At(MoveOne(t, job, name).tree, p) == At(t, p) {
      if job.Scaffold(name, p) { ScaffoldOutside(job, name, name, p); }
    }
  }

  // ------------------------------------------------------------------ when a run succeeds

  /** There is room for a directory: no file is in the way, and a taken conflict place can hold it. */
  ghost predicate Room(t: Tree, job: Job, name: Name) {
    && NoFileTo(t, Parent(job.Reported(t, name)))
    && (job.Reported(t, name) in t ==> t[job.Aside(name)].Dir? && job.Aside(name) + [name] !in t)
  }

  ghost predicate NoFileTo(t: Tree, p: Path) {
    forall q :: q <= p ==> At(t, q) == None || At(t, q) == Some(Dir)
  }

  lemma NoFileToParent(t: Tree, p: Path)
    requires p != [] && p !in t
    ensures NoFileTo(t, p) <==> NoFileTo(t, Parent(p))
  {
    if NoFileTo(t, Parent(p)) {
      forall q | q <= p ensures At(t, q) == None || At(t, q) == Some(Dir) { PrefixOfSnoc(q, p); }
    }
  }

  lemma {:induction false} MakeDirsIff(t: Tree, p: Path)
    requires IsTree(t)
    ensures MakeDirs(t, p).Some? <==> NoFileTo(t, p)
    decreases |p|
  {
    if p in t {
      assert p <= p && At(t, p) == Some(t[p]);
      forall q | q <= p && t[p].Dir? ensures At(t, q) == Some(Dir) { AncestorIsDir(t, q, p); }
    } else if p != [] {
      MakeDirsIff(t, Parent(p));
      NoFileToParent(t, p);
    }
  }

  lemma {:induction false} AncestorIsDir(t: Tree, q: Path, p: Path)
    requires IsTree(t) && At(t, p) == Some(Dir) && q <= p
    ensures At(t, q) == Some(Dir)
    decreases |p|
  {
    if q != p { AncestorIsDir(t, q, Parent(p)); }
  }

  lemma MoveOneOkIff(t: Tree, job: Job, name: Name)
    requires IsTree(t) && At(t, job.From(name)) == Some(Dir)
    ensures MoveOne(t, job, name).ok <==> Room(t, job, name)
  {
    var goal := job.Reported(t, name);
    MakeDirsIff(t, Parent(goal));
    if MakeDirs(t, Parent(goal)).Some? {
      MakeDirsAdds(t, Parent(goal));
      var t1 := MakeDirs(t, Parent(goal)).value;
      assert Base(job.From(name)) == name;
      assert !(goal <= Parent(goal)) && !(goal + [name] <= Parent(goal));
      assert At(t1, goal) == At(t, goal) && At(t1, goal + [name]) == At(t, goal + [name]);
      if goal in t { assert goal == job.Aside(name); }
    }
  }

  lemma NoFileFrame(t: Tree, job: Job, name: Name, other: Name, goal: Path)
    requires IsTree(t) && At(t, job.From(name)) == Some(Dir)
    requires goal != [] && (Parent(goal) == Parent(job.Dest(other)) || Parent(goal) == Parent(job.Aside(other)))
    ensures NoFileTo(MoveOne(t, job, name).tree, Parent(goal)) <==> NoFileTo(t, Parent(goal))
  {
    var t1 := MoveOne(t, job, name).tree;
    forall q | q <= Parent(goal) ensures At(t1, q) == At(t, q) || (At(t, q) == None && At(t1, q) == Some(Dir)) {
      ScaffoldOutside(job, other, name, q);
      MoveOneFrame(t, job, name, q);
    }
  }

  /** Moving one directory takes no room from another. */
  lemma RoomFrame(t: Tree, job: Job, name: Name, other: Name)
    requires IsTree(t) && At(t, job.From(name)) == Some(Dir) && name != other
    ensures Room(MoveOne(t, job, name).tree, job, other) <==> Room(t, job, other)
  {
    var t1, goal := MoveOne(t, job, name).tree, job.Reported(t, other);
    OthersSeeTheSame(t, job, [name], other);
    SameZoneSameTarget(t1, t, job, other);
    NoFileFrame(t, job, name, other, goal);
    assert job.InZone(other, job.Dest(other)) && job.InZone(other, job.Aside(other))
        && job.InZone(other, job.Aside(other) + [other]);
    assert At(t1, job.Dest(other)) == At(t, job.Dest(other)) && At(t1, job.Aside(other)) == At(t, job.Aside(other));
    assert At(t1, job.Aside(other) + [other]) == At(t, job.Aside(other) + [other]);
  }

  /** A run succeeds exactly if there was room for each directory at the start. */
  lemma {:induction false} SucceedsIff(t: Tree, job: Job, listing: seq<Name>)
    requires IsTree(t) && Distinct(listing)
    ensures MoveAll(t, job, listing, false).ok
      <==> forall n <- listing :: At(t, job.From(n)) == Some(Dir) ==> Room(t, job, n)
    decreases |listing|
  {
    if listing != [] {
      var name, rest := listing[0], listing[1..];
      assert listing == [name] + rest;
      if At(t, job.From(name)) != Some(Dir) {
        SucceedsIff(t, job, rest);
      } else {
        var t1 := MoveOne(t, job, name).tree;
        MoveOneOkIff(t, job, name);
        MoveOneIsTree(t, job, name);
        SucceedsIff(t1, job, rest);
        forall n <- rest
          ensures At(t1, job.From(n)) == At(t, job.From(n)) && (Room(t1, job, n) <==> Room(t, job, n))
        {
          FromFrame(t, job, name, n);
          RoomFrame(t, job, name, n);
        }
      }
    }
  }

  // ------------------------------------------------------------------ what the report says

  /** A name repeated `k` times. */
  function Nested(name: Name, k: nat): (p: Path)
    ensures |p| == k
  {
    if k == 0 then [] else [name] + Nested(name, k - 1)
  }

  lemma {:induction false} DeepestPath(paths: set<Path>) returns (deepest: nat)
    ensures forall p <- paths :: |p| <= deepest
  {
    if paths == {} {
      deepest := 0;
    } else {
      var p :| p in paths;
      deepest := DeepestPath(paths - {p});
      forall q <- paths ensures |q| <= if |p| > deepest then |p| else deepest {
        if q != p { assert q in paths - {p}; }
      }
      if |p| > deepest { deepest := |p|; }
    }
  }

  lemma {:induction false} NestsForever(t: Tree, src: Path, after: Tree, place: Path, name: Name, k: nat)
    requires src in t && SameBelow(after, place, t, src) && SameBelow(after, place + [name], t, src)
    ensures src + Nested(name, k) in t.Keys && |src + Nested(name, k)| >= k
  {
    if k == 0 {
      assert src + [] == src;
    } else {
      var q := Nested(name, k - 1);
      NestsForever(t, src, after, place, name, k - 1);
      assert Below(after, place + [name], q) == Below(t, src, q);
      assert Below(after, place, [name] + q) == Below(t, src, [name] + q);
      assert place + [name] + q == place + ([name] + q);
    }
  }

  /** No directory is a copy of one it holds. */
  lemma NotItsOwnChild(t: Tree, src: Path, after: Tree, place: Path, name: Name)
    requires src in t && SameBelow(after, place + [name], t, src)
    ensures !SameBelow(after, place, t, src)
  {
    if SameBelow(after, place, t, src) {
      var deepest := DeepestPath(t.Keys);
      NestsForever(t, src, after, place, name, deepest + 1);
    }
  }

  /** The reported place holds the directory exactly if nothing was there before. */
  lemma ReportIsTrueIff(t: Tree, job: Job, listing: seq<Name>, name: Name)
    requires IsTree(t) && Distinct(listing)
    requires name in listing && At(t, job.From(name)) == Some(Dir) && MoveAll(t, job, listing, false).ok
    ensures SameBelow(MoveAll(t, job, listing, false).tree, job.Reported(t, name), t, job.From(name))
      <==> job.Reported(t, name) !in t
  {
    EveryDirectoryArrives(t, job, listing, name);
    if job.Reported(t, name) in t {
      NotItsOwnChild(t, job.From(name), MoveAll(t, job, listing, false).tree, job.Aside(name), name);
    }
  }

  /** The failing run: directory "a" conflicts, and the place for conflicts is taken too. The run
      succeeds, but what it reports to be at `migration-conflicts/a` is one level deeper. */
  lemma TakenConflictMisreports()
    ensures var t, job := TAKEN_TREE, Threads(map[]);
      && IsTree(t) && MoveAll(t, job, ["a"], false).ok
      && job.Reported(t, "a") == ["migration-conflicts", "a"]
      && !SameBelow(MoveAll(t, job, ["a"], false).tree, ["migration-conflicts", "a"], t, ["threads", "a"])
  {
    var t, job := TAKEN_TREE, Threads(map[]);
    TakenTreeIsTree();
    assert job.From("a") == ["threads", "a"] && job.Dest("a") == ["users", "default", "threads", "a"];
    assert job.Aside("a") == ["migration-conflicts", "a"];
    assert job.Aside("a") + ["a"] == ["migration-conflicts", "a", "a"];
    assert ["migration-conflicts", "a", "a"][0] != ["users", "default", "threads"][0];
    assert Room(t, job, "a");
    SucceedsIff(t, job, ["a"]);
    ReportIsTrueIff(t, job, ["a"], "a");
  }

  const TAKEN_TREE: Tree := map[
    [] := Dir, ["threads"] := Dir, ["threads", "a"] := Dir,
    ["users"] := Dir, ["users", "default"] := Dir, ["users", "default", "threads"] := Dir,
    ["users", "default", "threads", "a"] := Dir,
    ["migration-conflicts"] := Dir, ["migration-conflicts", "a"] := Dir]

  lemma TakenTreeIsTree()
    ensures IsTree(TAKEN_TREE)
  {
    assert Parent(["threads"]) == [] && Parent(["threads", "a"]) == ["threads"];
    assert Parent(["users"]) == [] && Parent(["users", "default"]) == ["users"];
    assert Parent(["users", "default", "threads"]) == ["users", "default"];
    assert Parent(["users", "default", "threads", "a"]) == ["users", "default", "threads"];
    assert Parent(["migration-conflicts"]) == [] && Parent(["migration-conflicts", "a"]) == ["migration-conflicts"];
  }

  lemma {:induction false} DryReportSeesZones(t1: Tree, t2: Tree, job: Job, listing: seq<Name>)
    requires forall n <- listing :: SameZone(t1, t2, job, n)
    ensures MoveAll(t1, job, listing, true).report == MoveAll(t2, job, listing, true).report
    decreases |listing|
  {
    if listing != [] {
      SameZoneSameTarget(t1, t2, job, listing[0]);
      DryReportSeesZones(t1, t2, job, listing[1..]);
    }
  }

  /** A dry run changes nothing, never fails, and reports what a real run that succeeds reports. */
  lemma {:induction false} DryRunForetells(t: Tree, job: Job, listing: seq<Name>)
    requires IsTree(t) && Distinct(listing)
    ensures MoveAll(t, job, listing, true).tree == t && MoveAll(t, job, listing, true).ok
    ensures MoveAll(t, job, listing, false).ok ==>
      MoveAll(t, job, listing, false).report == MoveAll(t, job, listing, true).report
    decreases |listing|
  {
    if listing != [] {
      var name, rest := listing[0], listing[1..];
      DryRunForetells(t, job, rest);
      if At(t, job.From(name)) == Some(Dir) && MoveOne(t, job, name).ok {
        MoveOneIsTree(t, job, name);
        DryRunForetells(MoveOne(t, job, name).tree, job, rest);
        forall n <- rest ensures SameZone(MoveOne(t, job, name).tree, t, job, n) {
          OthersSeeTheSame(t, job, listing, n);
        }
        DryReportSeesZones(MoveOne(t, job, name).tree, t, job, rest);
      }
    }
  }

  function Names(report: seq<Entry>): seq<Name> {
    if report == [] then [] else [report[0].name] + Names(report[1..])
  }

  ghost function DirectoriesIn(t: Tree, job: Job, listing: seq<Name>): set<Name> {
    set n | n in listing && At(t, job.From(n)) == Some(Dir)
  }

  /** The report of a dry run has one entry for each directory, in the order of the listing. */
  lemma {:induction false} ReportListsDirectories(t: Tree, job: Job, listing: seq<Name>, those: set<Name>)
    requires forall n <- listing :: n in those <==> At(t, job.From(n)) == Some(Dir)
    ensures var report := MoveAll(t, job, listing, true).report;
      Names(report) == Keep(listing, those) && forall e <- report :: e == EntryFor(t, job, e.name)
    decreases |listing|
  {
    if listing != [] { ReportListsDirectories(t, job, listing[1..], those); }
  }

  lemma {:induction false} NamedEntry(report: seq<Entry>, name: Name) returns (e: Entry)
    requires name in Names(report)
    ensures e in report && e.name == name
  {
    if report[0].name == name { e := report[0]; } else { e := NamedEntry(report[1..], name); }
  }

  // ------------------------------------------------------------------ the whole migration

  function Swept(t: Tree, job: Job): Tree {
    if exists p <- t :: p != [] && Parent(p) == job.Source() then t else t - {job.Source()}
  }

  function Migrate(t: Tree, job: Job, listing: seq<Name>, dry: bool): Run {
    if job.Source() !in t then Run(t, [], true)
    else if t[job.Source()].File? then Run(t, [], false)
    else
      var r := MoveAll(t, job, listing, dry);
      if r.ok && !dry then r.(tree := Swept(r.tree, job)) else r
  }

  lemma SourceStays(t: Tree, job: Job, listing: seq<Name>)
    requires IsTree(t) && At(t, job.Source()) == Some(Dir)
    ensures At(MoveAll(t, job, listing, false).tree, job.Source()) == Some(Dir)
  {
    NothingOverwritten(t, job, listing, job.Source());
  }

  /** Sweeping takes away nothing but the emptied shared directory, and keeps a tree. */
  lemma SweptKeeps(t: Tree, job: Job)
    requires IsTree(t)
    ensures IsTree(Swept(t, job))
    ensures forall p :: p != job.Source() ==> At(Swept(t, job), p) == At(t, p)
  {
  }

  /** A successful migration takes every shared directory, whole, to its target and nowhere else. */
  lemma MigrationDelivers(t: Tree, job: Job, listing: seq<Name>, name: Name)
    requires IsTree(t) && IsListing(t, job, listing) && At(t, job.From(name)) == Some(Dir)
    requires Migrate(t, job, listing, false).ok
    ensures Arrived(t, Migrate(t, job, listing, false).tree, job.From(name), job.Target(t, name))
  {
    assert At(t, Parent(job.From(name))) == Some(Dir) && Parent(job.From(name)) == job.Source();
    EveryDirectoryArrives(t, job, listing, name);
    RunIsTree(t, job, listing);
    var moved, after := MoveAll(t, job, listing, false).tree, Migrate(t, job, listing, false).tree;
    SweptKeeps(moved, job);
    assert forall q {:trigger Below(after, job.Target(t, name), q)} :: job.Target(t, name) + q != job.Source();
    assert forall q {:trigger Below(after, job.From(name), q)} :: job.From(name) + q != job.Source();
    forall q ensures Below(after, job.Target(t, name), q) == Below(t, job.From(name), q) {
      assert Below(moved, job.Target(t, name), q) == Below(t, job.From(name), q);
    }
    forall q ensures Below(after, job.From(name), q) == None {
      assert Below(moved, job.From(name), q) == None;
    }
  }

  /** Everything else keeps its place and content; only the shared directory itself may go. */
  lemma MigrationKeeps(t: Tree, job: Job, listing: seq<Name>, p: Path)
    requires IsTree(t) && p in t && p != job.Source()
    requires forall n <- listing :: At(t, job.From(n)) == Some(Dir) ==> !(job.From(n) <= p)
    ensures At(Migrate(t, job, listing, false).tree, p) == At(t, p)
  {
    NothingOverwritten(t, job, listing, p);
    RunIsTree(t, job, listing);
    SweptKeeps(MoveAll(t, job, listing, false).tree, job);
  }

  /** After a successful run the shared directory holds the files it held, and no directories. */
  lemma WhatIsLeft(t: Tree, job: Job, listing: seq<Name>, name: Name)
    requires IsTree(t) && IsListing(t, job, listing) && MoveAll(t, job, listing, false).ok
    ensures At(MoveAll(t, job, listing, false).tree, job.From(name))
      == if At(t, job.From(name)) == Some(Dir) then None else At(t, job.From(name))
  {
    var after := MoveAll(t, job, listing, false).tree;
    if At(t, job.From(name)) == Some(Dir) {
      EveryDirectoryArrives(t, job, listing, name);
      assert job.From(name) + [] == job.From(name);
      assert Below(after, job.From(name), []) == None;
    } else if name in listing {
      forall n <- listing | At(t, job.From(n)) == Some(Dir) ensures !(job.From(n) <= job.From(name)) {
        if job.From(n) <= job.From(name) { ZonesApart(job, n, name, job.From(name)); }
      }
      NothingOverwritten(t, job, listing, job.From(name));
    } else {
      RunOthers(t, job, listing, name, job.From(name));
    }
  }

  lemma {:induction false} NothingToMove(t: Tree, job: Job, listing: seq<Name>, dry: bool)
    requires forall n :: At(t, job.From(n)) != Some(Dir)
    ensures MoveAll(t, job, listing, dry) == Run(t, [], true)
    decreases |listing|
  {
    if listing != [] { NothingToMove(t, job, listing[1..], dry); }
  }

  /** Migrating again, for real or dry, changes nothing and reports nothing. */
  lemma SecondRunDoesNothing(t: Tree, job: Job, listing: seq<Name>, again: seq<Name>, dry: bool)
    requires IsTree(t) && IsListing(t, job, listing) && Migrate(t, job, listing, false).ok
    ensures var after := Migrate(t, job, listing, false).tree;
      Migrate(after, job, again, dry) == Run(after, [], true)
  {
    if At(t, job.Source()) == Some(Dir) {
      var moved := MoveAll(t, job, listing, false).tree;
      SourceStays(t, job, listing);
      forall n ensures At(moved, job.From(n)) != Some(Dir) { WhatIsLeft(t, job, listing, n); }
      NothingToMove(moved, job, again, dry);
    }
  }

  /** The whole migration succeeds exactly if there is nothing shared, or a shared directory whose
      directories all have room. One that fails or is dry leaves the shared directory where it is, and a
      dry one changes nothing. */
  lemma MigrationSucceedsIff(t: Tree, job: Job, listing: seq<Name>, dry: bool)
    requires IsTree(t) && Distinct(listing)
    ensures Migrate(t, job, listing, dry).ok <==>
      || job.Source() !in t
      || (t[job.Source()].Dir? && (dry || forall n <- listing :: At(t, job.From(n)) == Some(Dir) ==> Room(t, job, n)))
    ensures dry ==> Migrate(t, job, listing, dry).tree == t
    ensures !Migrate(t, job, listing, dry).ok ==>
      At(Migrate(t, job, listing, dry).tree, job.Source()) == At(t, job.Source())
  {
    SucceedsIff(t, job, listing);
    DryRunForetells(t, job, listing);
    if At(t, job.Source()) == Some(Dir) { SourceStays(t, job, listing); }
  }

  // ------------------------------------------------------------------ the layout, spelled out

  /** The report, of a dry run or of one that succeeds, has the entry of each directory, and lists the
      directories once each in the order of the listing. */
  lemma ReportIsComplete(t: Tree, job: Job, listing: seq<Name>, dry: bool)
    requires IsTree(t) && IsListing(t, job, listing) && (dry || Migrate(t, job, listing, dry).ok)
    requires At(t, job.Source()) == Some(Dir)
    ensures var report := Migrate(t, job, listing, dry).report;
      && Names(report) == Keep(listing, DirectoriesIn(t, job, listing))
      && forall n <- listing :: At(t, job.From(n)) == Some(Dir) ==> EntryFor(t, job, n) in report
  {
    var report, those := Migrate(t, job, listing, dry).report, DirectoriesIn(t, job, listing);
    DryRunForetells(t, job, listing);
    ReportListsDirectories(t, job, listing, those);
    forall n <- listing | At(t, job.From(n)) == Some(Dir) ensures EntryFor(t, job, n) in report {
      KeepMember(listing, those, n);
      var e := NamedEntry(report, n);
    }
  }

  /** Every thread goes to its owner on record, or to the default user if it has none, or aside if
      that user has such a thread already; and the report says so. */
  lemma ThreadsReachTheirOwners(t: Tree, owners: map<Name, Name>, listing: seq<Name>, name: Name, dry: bool)
    requires IsTree(t) && IsListing(t, Threads(owners), listing) && At(t, ["threads", name]) == Some(Dir)
    requires Migrate(t, Threads(owners), listing, false).ok
    ensures var user := if name in owners then owners[name] else "default";
      var home, aside := ["users", user, "threads", name], ["migration-conflicts", name];
      && Arrived(t, Migrate(t, Threads(owners), listing, false).tree, ["threads", name],
          if home !in t then home else if aside !in t then aside else ["migration-conflicts", name, name])
      && Entry(name, user, if home in t then Conflict(aside) else Moved(home))
          in Migrate(t, Threads(owners), listing, dry).report
  {
    var job := Threads(owners);
    assert job.From(name) == ["threads", name] && Parent(["threads", name]) == ["threads"];
    assert job.Dest(name) == ["users", if name in owners then owners[name] else "default", "threads", name];
    assert job.Aside(name) == ["migration-conflicts", name];
    assert job.Aside(name) + [name] == ["migration-conflicts", name, name];
    MigrationDelivers(t, job, listing, name);
    ReportIsComplete(t, job, listing, dry);
  }

  /** Every shared agent goes to the given user, or aside if that user has such an agent already. */
  lemma AgentsReachTheUser(t: Tree, user: Name, listing: seq<Name>, name: Name, dry: bool)
    requires IsTree(t) && IsListing(t, Agents(user), listing) && At(t, ["agents", name]) == Some(Dir)
    requires Migrate(t, Agents(user), listing, false).ok
    ensures var home, aside := ["users", user, "agents", name], ["migration-conflicts", "agents", name];
      && Arrived(t, Migrate(t, Agents(user), listing, false).tree, ["agents", name],
          if home !in t then home else if aside !in t then aside else ["migration-conflicts", "agents", name, name])
      && Entry(name, user, if home in t then Conflict(aside) else Moved(home))
          in Migrate(t, Agents(user), listing, dry).report
  {
    var job := Agents(user);
    assert job.From(name) == ["agents", name] && Parent(["agents", name]) == ["agents"];
    assert job.Dest(name) == ["users", user, "agents", name];
    assert job.Aside(name) == ["migration-conflicts", "agents", name];
    assert job.Aside(name) + [name] == ["migration-conflicts", "agents", name, name];
    MigrationDelivers(t, job, listing, name);
    ReportIsComplete(t, job, listing, dry);
  }

  /** A successful migration takes the shared directory itself away exactly if it held no file. */
  lemma SharedDirectoryGoesIff(t: Tree, job: Job, listing: seq<Name>)
    requires IsTree(t) && IsListing(t, job, listing) && At(t, job.Source()) == Some(Dir)
    requires Migrate(t, job, listing, false).ok
    ensures job.Source() in Migrate(t, job, listing, false).tree
      <==> exists n :: job.From(n) in t && t[job.From(n)].File?
  {
    var moved := MoveAll(t, job, listing, false).tree;
    SourceStays(t, job, listing);
    forall n ensures job.From(n) in moved <==> job.From(n) in t && t[job.From(n)].File? {
      WhatIsLeft(t, job, listing, n);
      assert Parent(job.From(n)) == job.Source();
    }
    if p :| p in moved && p != [] && Parent(p) == job.Source() {
      assert p == job.From(Base(p));
    }
  }

  // ------------------------------------------------------------------ the imperative form

  class FileTree {
    var nodes: Tree

    constructor (t: Tree)
      ensures nodes == t
    {
      nodes := t;
    }

    /** `migrate_thread_dirs` and `migrate_agents`. */
    method MigrateShared(job: Job, listing: seq<Name>, dry: bool) returns (report: seq<Entry>, ok: bool)
      modifies this
      ensures nodes == Migrate(old(nodes), job, listing, dry).tree
      ensures ok == Migrate(old(nodes), job, listing, dry).ok
      ensures ok ==> report == Migrate(old(nodes), job, listing, dry).report
    {
      report := [];
      if job.Source() !in nodes { return [], true; }
      if nodes[job.Source()].File? { return [], false; }
      for i := 0 to |listing|
        invariant var r := MoveAll(old(nodes), job, listing, dry);
          var rest := MoveAll(nodes, job, listing[i..], dry);
          r == Run(rest.tree, report + rest.report, rest.ok)
      {
        assert listing[i..][1..] == listing[i + 1..];
        var name := listing[i];
        if At(nodes, job.From(name)) != Some(Dir) { continue; }
        var entry := EntryFor(nodes, job, name);
        if !dry {
          var moved := MoveOne(nodes, job, name);
          nodes := moved.tree;
          if !moved.ok { return report, false; }
        }
        report := report + [entry];
      }
      ok := true;
      if !dry { nodes := Swept(nodes, job); }
    }
  }
}
