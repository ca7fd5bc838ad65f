/**
 * Copying a directory tree with every link followed, on an explicit work stack. The file system
 * is a graph of real directories, possibly cyclic; each job on the stack carries the real
 * directories on its own branch, and only those stop the descent.
 */
module TreeCopy {
  import opened Options

  type Name = string
  type Real = string     // a fully resolved directory path
  type Content = string
  type Path = seq<Name>

  /** What an entry is once links are followed; `Nothing` for broken links, sockets and the like. */
  datatype Target = Directory(dir: Real) | File(content: Content) | Nothing
  datatype Entry = Entry(name: Name, target: Target)

  /** The readable directories; one that is missing cannot be listed. */
  type FileSystem = map<Real, seq<Entry>>

  datatype Made = MadeDirectory | MadeFile(content: Content)

  function Listing(fs: FileSystem, dir: Real): seq<Entry> {
    if dir in fs then fs[dir] else []
  }

  function Lookup(entries: seq<Entry>, name: Name): Option<Target> {
    if |entries| == 0 then None
    else if entries[0].name == name then Some(entries[0].target)
    else Lookup(entries[1..], name)
  }

  /** No directory lists a name twice. */
  ghost predicate DistinctNames(fs: FileSystem) {
    forall d, i, j :: d in fs && 0 <= i < j < |fs[d]| ==> fs[d][i].name != fs[d][j].name
  }

  // ----- the recursive specification ---------------------------------------------------------

  /** A directory reached along a branch, with the real directories on the way to it. */
  datatype Place = Place(dir: Real, ancestors: set<Real>)

  function Enter(fs: FileSystem, place: Place, name: Name): Option<Place> {
    match Lookup(Listing(fs, place.dir), name)
    case Some(Directory(dir)) =>
      if dir in place.ancestors then None else Some(Place(dir, place.ancestors + {dir}))
    case _ => None
  }

  /** Where a destination path leads, if it leads to a copied directory. */
  function PlaceAt(fs: FileSystem, root: Real, path: Path): Option<Place> {
    if |path| == 0 then Some(Place(root, {root}))
    else
      match PlaceAt(fs, root, path[..|path| - 1])
      case None => None
      case Some(place) => Enter(fs, place, path[|path| - 1])
  }

  /** What is copied to a destination path, if anything. */
  function Copied(fs: FileSystem, root: Real, path: Path): Option<Made> {
    if PlaceAt(fs, root, path).Some? then Some(MadeDirectory)
    else
      match PlaceAt(fs, root, path[..|path| - 1])
      case None => None
      case Some(place) =>
        match Lookup(Listing(fs, place.dir), path[|path| - 1])
        case Some(File(content)) => Some(MadeFile(content))
        case _ => None
  }

  // ----- paths and repeats -------------------------------------------------------------------

  /** What a path names when links are followed and nothing is cut. */
  function Resolve(fs: FileSystem, root: Real, path: Path): Option<Target> {
    if |path| == 0 then Some(Directory(root))
    else
      match Resolve(fs, root, path[..|path| - 1])
      case Some(Directory(dir)) => Lookup(Listing(fs, dir), path[|path| - 1])
      case _ => None
  }

  /** The real directories along a path, its end included. */
  function RealsAlong(fs: FileSystem, root: Real, path: Path): seq<Real> {
    var before := if |path| == 0 then [] else RealsAlong(fs, root, path[..|path| - 1]);
    match Resolve(fs, root, path)
    case Some(Directory(dir)) => before + [dir]
    case _ => before
  }

  predicate NoRepeats(reals: seq<Real>) {
    forall i, j :: 0 <= i < j < |reals| ==> reals[i] != reals[j]
  }

  function MadeFrom(target: Option<Target>): Option<Made> {
    match target
    case Some(Directory(_)) => Some(MadeDirectory)
    case Some(File(content)) => Some(MadeFile(content))
    case _ => None
  }

  lemma AppendNoRepeats(reals: seq<Real>, dir: Real)
    ensures NoRepeats(reals + [dir]) <==> NoRepeats(reals) && dir !in reals
    ensures (set r | r in reals + [dir]) == (set r | r in reals) + {dir}
  {
    var longer := reals + [dir];
    assert forall i :: 0 <= i < |reals| ==> longer[i] == reals[i];
    if NoRepeats(longer) {
      forall i | 0 <= i < |reals| ensures reals[i] != dir {
        assert longer[i] != longer[|reals|];
      }
      forall i, j | 0 <= i < j < |reals| ensures reals[i] != reals[j] {
        assert longer[i] != longer[j];
      }
    }
  }

  /** Places are the directories resolved without a repeat, and know the whole branch. */
  lemma {:induction false} PlaceIsResolved(fs: FileSystem, root: Real, path: Path)
    ensures PlaceAt(fs, root, path).Some?
            <==> (exists dir :: Resolve(fs, root, path) == Some(Directory(dir)))
                 && NoRepeats(RealsAlong(fs, root, path))
    ensures PlaceAt(fs, root, path).Some? ==>
              var place := PlaceAt(fs, root, path).value;
              Resolve(fs, root, path) == Some(Directory(place.dir))
              && place.ancestors == set dir | dir in RealsAlong(fs, root, path)
  {
    if |path| > 0 {
      var parent := path[..|path| - 1];
      PlaceIsResolved(fs, root, parent);
      var before := RealsAlong(fs, root, parent);
      match Resolve(fs, root, path) {
        case Some(Directory(dir)) =>
          AppendNoRepeats(before, dir);
        case _ =>
      }
    }
  }

  /**
   * A path is copied if and only if it names a file or directory and no real directory repeats
   * along it; what is copied is what it names.
   */
  lemma CopiedIffNoRepeat(fs: FileSystem, root: Real, path: Path)
    ensures Copied(fs, root, path)
            == if NoRepeats(RealsAlong(fs, root, path)) then MadeFrom(Resolve(fs, root, path)) else None
  {
    PlaceIsResolved(fs, root, path);
    if |path| > 0 {
      PlaceIsResolved(fs, root, path[..|path| - 1]);
    }
  }

  // ----- how much is left to copy ------------------------------------------------------------

  /** Entries in the unfolding of a directory, its own included. */
  function Size(fs: FileSystem, place: Place): nat
    requires place.dir in place.ancestors
    decreases fs.Keys - place.ancestors, |Listing(fs, place.dir)| + 1
  {
    1 + SizeOfEntries(fs, Listing(fs, place.dir), place.ancestors)
  }

  function SizeOfEntries(fs: FileSystem, entries: seq<Entry>, ancestors: set<Real>): nat
    decreases fs.Keys - ancestors, |entries|
  {
    if |entries| == 0 then 0
    else SizeOfEntry(fs, entries[0], ancestors) + SizeOfEntries(fs, entries[1..], ancestors)
  }

  function SizeOfEntry(fs: FileSystem, entry: Entry, ancestors: set<Real>): nat
    decreases fs.Keys - ancestors, 0
  {
    match entry.target
    case Directory(dir) =>
      if dir in ancestors then 0
      else if dir !in fs then 1
      else
        assert fs.Keys - (ancestors + {dir}) < fs.Keys - ancestors by {
          assert dir in fs.Keys - ancestors;
        }
        Size(fs, Place(dir, ancestors + {dir}))
    case _ => 0
  }

  lemma SizeOfSubdirectory(fs: FileSystem, dir: Real, ancestors: set<Real>, name: Name)
    requires dir !in ancestors
    ensures SizeOfEntry(fs, Entry(name, Directory(dir)), ancestors) == Size(fs, Place(dir, ancestors + {dir}))
  {
  }

  // ----- the work stack ----------------------------------------------------------------------

  datatype Job = Job(dst: Path, place: Place)

  function StackSize(fs: FileSystem, stack: seq<Job>): nat
    requires forall job <- stack :: job.place.dir in job.place.ancestors
  {
    if |stack| == 0 then 0
    else StackSize(fs, stack[..|stack| - 1]) + Size(fs, stack[|stack| - 1].place)
  }

  /** Every job stands for the place its destination path leads to. */
  ghost predicate JobsStand(fs: FileSystem, root: Real, stack: seq<Job>) {
    forall job <- stack :: job.place.dir in job.place.ancestors && PlaceAt(fs, root, job.dst) == Some(job.place)
  }

  ghost predicate OnlyCopied(fs: FileSystem, root: Real, out: map<Path, Made>) {
    forall path <- out :: Copied(fs, root, path) == Some(out[path])
  }

  /** Whatever the directory at a path holds that is copied has been written. */
  ghost predicate ChildrenWritten(fs: FileSystem, root: Real, out: map<Path, Made>, path: Path) {
    forall name :: Copied(fs, root, path + [name]).Some? ==> path + [name] in out
  }

  /** A directory made is finished or still on the stack. */
  ghost predicate Accounted(fs: FileSystem, root: Real, out: map<Path, Made>, stack: seq<Job>) {
    [] in out &&
    forall path <- out :: out[path] == MadeDirectory ==>
                            ChildrenWritten(fs, root, out, path) || exists job <- stack :: job.dst == path
  }

  lemma {:induction false} NothingLeft(fs: FileSystem, root: Real, out: map<Path, Made>, path: Path)
    requires OnlyCopied(fs, root, out) && Accounted(fs, root, out, []) && Copied(fs, root, path).Some?
    ensures path in out
  {
    if |path| > 0 {
      var parent, name := path[..|path| - 1], path[|path| - 1];
      assert path == parent + [name];
      assert PlaceAt(fs, root, parent).Some?;
      NothingLeft(fs, root, out, parent);
      assert ChildrenWritten(fs, root, out, parent);
    }
  }

  lemma {:induction false} LookupAt(entries: seq<Entry>, i: nat)
    requires i < |entries|
    requires forall j, k :: 0 <= j < k < |entries| ==> entries[j].name != entries[k].name
    ensures Lookup(entries, entries[i].name) == Some(entries[i].target)
  {
    if i > 0 {
      assert entries[0].name != entries[i].name;
      LookupAt(entries[1..], i - 1);
    }
  }

  lemma {:induction false} LookupFound(entries: seq<Entry>, name: Name) returns (i: nat)
    requires Lookup(entries, name).Some?
    ensures i < |entries| && entries[i].name == name
  {
    if entries[0].name == name {
      i := 0;
    } else {
      var k := LookupFound(entries[1..], name);
      i := k + 1;
    }
  }

  /** What is copied for one entry of a directory being listed. */
  lemma CopiedEntry(fs: FileSystem, root: Real, dst: Path, place: Place, i: nat)
    requires DistinctNames(fs) && PlaceAt(fs, root, dst) == Some(place) && i < |Listing(fs, place.dir)|
    ensures var entry := Listing(fs, place.dir)[i];
            var path := dst + [entry.name];
            match entry.target
            case Directory(dir) =>
              if dir in place.ancestors then Copied(fs, root, path) == None
              else PlaceAt(fs, root, path) == Some(Place(dir, place.ancestors + {dir}))
            case File(content) => Copied(fs, root, path) == Some(MadeFile(content))
            case Nothing => Copied(fs, root, path) == None
  {
    LookupAt(Listing(fs, place.dir), i);
    var path := dst + [Listing(fs, place.dir)[i].name];
    assert path[..|path| - 1] == dst;
  }

  /** Once every entry of a listing is handled, the directory is finished. */
  lemma ListingHandled(fs: FileSystem, root: Real, dst: Path, place: Place, out: map<Path, Made>)
    requires PlaceAt(fs, root, dst) == Some(place)
    requires forall entry <- Listing(fs, place.dir) ::
               Copied(fs, root, dst + [entry.name]).Some? ==> dst + [entry.name] in out
    ensures ChildrenWritten(fs, root, out, dst)
  {
    forall name | Copied(fs, root, dst + [name]).Some? ensures dst + [name] in out {
      assert (dst + [name])[..|dst|] == dst;
      var i := LookupFound(Listing(fs, place.dir), name);
      assert Listing(fs, place.dir)[i] in Listing(fs, place.dir);
    }
  }

  lemma MoreWritten(fs: FileSystem, root: Real, out: map<Path, Made>, stack: seq<Job>, path: Path, made: Made)
    requires OnlyCopied(fs, root, out) && Accounted(fs, root, out, stack)
    requires Copied(fs, root, path) == Some(made)
    requires made == MadeDirectory ==> exists job <- stack :: job.dst == path
    ensures OnlyCopied(fs, root, out[path := made]) && Accounted(fs, root, out[path := made], stack)
  {
    var more := out[path := made];
    forall p <- more | more[p] == MadeDirectory
      ensures ChildrenWritten(fs, root, more, p) || exists job <- stack :: job.dst == p
    {
      if p != path && ChildrenWritten(fs, root, out, p) {
        assert ChildrenWritten(fs, root, more, p);
      }
    }
  }

  lemma MoreJobs(fs: FileSystem, root: Real, out: map<Path, Made>, stack: seq<Job>, more: seq<Job>)
    requires Accounted(fs, root, out, stack) && forall job <- stack :: job in more
    ensures Accounted(fs, root, out, more)
  {
    forall p <- out | out[p] == MadeDirectory && !ChildrenWritten(fs, root, out, p)
      ensures exists job <- more :: job.dst == p
    {
      var job :| job in stack && job.dst == p;
      assert job in more;
    }
  }

  lemma JobDone(fs: FileSystem, root: Real, out: map<Path, Made>, stack: seq<Job>, job: Job)
    requires Accounted(fs, root, out, stack + [job]) && ChildrenWritten(fs, root, out, job.dst)
    ensures Accounted(fs, root, out, stack)
  {
    forall p <- out | out[p] == MadeDirectory && !ChildrenWritten(fs, root, out, p)
      ensures exists other <- stack :: other.dst == p
    {
      var other :| other in stack + [job] && other.dst == p;
      assert other in stack;
    }
  }

  lemma PushSize(fs: FileSystem, root: Real, stack: seq<Job>, job: Job)
    requires JobsStand(fs, root, stack) && JobsStand(fs, root, [job])
    ensures JobsStand(fs, root, stack + [job])
    ensures StackSize(fs, stack + [job]) == StackSize(fs, stack) + Size(fs, job.place)
  {
    assert job in [job];
    assert (stack + [job])[..|stack|] == stack;
  }

  /** The first entries of a listing are written, those that are copied. */
  ghost predicate WrittenUpTo(fs: FileSystem, root: Real, out: map<Path, Made>, dst: Path, entries: seq<Entry>, i: nat) {
    i <= |entries| &&
    forall k :: 0 <= k < i && Copied(fs, root, dst + [entries[k].name]).Some? ==> dst + [entries[k].name] in out
  }

  lemma WrittenNext(fs: FileSystem, root: Real, out: map<Path, Made>, more: map<Path, Made>, dst: Path, entries: seq<Entry>, i: nat)
    requires WrittenUpTo(fs, root, out, dst, entries, i) && i < |entries| && forall path <- out :: path in more
    requires Copied(fs, root, dst + [entries[i].name]).Some? ==> dst + [entries[i].name] in more
    ensures WrittenUpTo(fs, root, more, dst, entries, i + 1)
  {
  }

  /** So many entries of a job's directory are handled; the rest is still to be copied. */
  ghost predicate Listed(fs: FileSystem, root: Real, out: map<Path, Made>, stack: seq<Job>, job: Job, i: nat) {
    && JobsStand(fs, root, stack) && JobsStand(fs, root, [job])
    && OnlyCopied(fs, root, out) && Accounted(fs, root, out, stack + [job])
    && WrittenUpTo(fs, root, out, job.dst, Listing(fs, job.place.dir), i)
  }

  /** The unfolding left, with the entries from i on. */
  function Left(fs: FileSystem, stack: seq<Job>, job: Job, i: nat): nat
    requires i <= |Listing(fs, job.place.dir)| && forall other <- stack :: other.place.dir in other.place.ancestors
  {
    StackSize(fs, stack) + SizeOfEntries(fs, Listing(fs, job.place.dir)[i..], job.place.ancestors)
  }

  lemma LeftNext(fs: FileSystem, stack: seq<Job>, job: Job, i: nat)
    requires i < |Listing(fs, job.place.dir)| && forall other <- stack :: other.place.dir in other.place.ancestors
    ensures Left(fs, stack, job, i)
         == SizeOfEntry(fs, Listing(fs, job.place.dir)[i], job.place.ancestors) + Left(fs, stack, job, i + 1)
  {
    var entries := Listing(fs, job.place.dir);
    assert entries[i..][0] == entries[i] && entries[i..][1..] == entries[i + 1..];
  }

  lemma NoSize(fs: FileSystem, entry: Entry, ancestors: set<Real>)
    requires entry.target.Directory? ==> entry.target.dir in ancestors
    ensures SizeOfEntry(fs, entry, ancestors) == 0
  {
  }

  lemma ListingBegins(fs: FileSystem, root: Real, out: map<Path, Made>, stack: seq<Job>, job: Job)
    requires JobsStand(fs, root, stack + [job]) && OnlyCopied(fs, root, out) && Accounted(fs, root, out, stack + [job])
    ensures Listed(fs, root, out, stack, job, 0)
    ensures Left(fs, stack, job, 0) < StackSize(fs, stack + [job])
  {
    assert forall other <- stack + [] :: other in stack + [job];
    assert job in stack + [job];
    assert (stack + [job])[..|stack|] == stack;
    assert Listing(fs, job.place.dir)[0..] == Listing(fs, job.place.dir);
  }

  /** An entry that is written now, or is not copied. */
  lemma EntryListed(fs: FileSystem, root: Real, out: map<Path, Made>, more: map<Path, Made>, stack: seq<Job>, job: Job, i: nat)
    requires Listed(fs, root, out, stack, job, i) && i < |Listing(fs, job.place.dir)|
    requires forall path <- out :: path in more
    requires OnlyCopied(fs, root, more) && Accounted(fs, root, more, stack + [job])
    requires var path := job.dst + [Listing(fs, job.place.dir)[i].name]; Copied(fs, root, path).Some? ==> path in more
    ensures Listed(fs, root, more, stack, job, i + 1)
  {
    WrittenNext(fs, root, out, more, job.dst, Listing(fs, job.place.dir), i);
  }

  lemma {:induction false} DirectoryListed(fs: FileSystem, root: Real, out: map<Path, Made>, stack: seq<Job>, job: Job, i: nat, dir: Real)
    requires DistinctNames(fs) && Listed(fs, root, out, stack, job, i) && i < |Listing(fs, job.place.dir)|
    requires Listing(fs, job.place.dir)[i].target == Directory(dir) && dir !in job.place.ancestors
    ensures var path := job.dst + [Listing(fs, job.place.dir)[i].name];
            var pushed := stack + [Job(path, Place(dir, job.place.ancestors + {dir}))];
            && Listed(fs, root, out[path := MadeDirectory], pushed, job, i + 1)
            && Left(fs, pushed, job, i + 1) == Left(fs, stack, job, i)
  {
    var entries := Listing(fs, job.place.dir);
    var path := job.dst + [entries[i].name];
    var push := Job(path, Place(dir, job.place.ancestors + {dir}));
    assert job in [job];
    CopiedEntry(fs, root, job.dst, job.place, i);
    assert JobsStand(fs, root, [push]);
    PushSize(fs, root, stack, push);
    SizeOfSubdirectory(fs, dir, job.place.ancestors, entries[i].name);
    LeftNext(fs, stack, job, i);
    MoreJobs(fs, root, out, stack + [job], stack + [push] + [job]);
    assert push in stack + [push] + [job];
    MoreWritten(fs, root, out, stack + [push] + [job], path, MadeDirectory);
    assert Listed(fs, root, out, stack + [push], job, i);
    EntryListed(fs, root, out, out[path := MadeDirectory], stack + [push], job, i);
  }

  lemma {:induction false} FileListed(fs: FileSystem, root: Real, out: map<Path, Made>, stack: seq<Job>, job: Job, i: nat, content: Content)
    requires DistinctNames(fs) && Listed(fs, root, out, stack, job, i) && i < |Listing(fs, job.place.dir)|
    requires Listing(fs, job.place.dir)[i].target == File(content)
    ensures var path := job.dst + [Listing(fs, job.place.dir)[i].name];
            && Listed(fs, root, out[path := MadeFile(content)], stack, job, i + 1)
            && Left(fs, stack, job, i + 1) == Left(fs, stack, job, i)
  {
    var entry := Listing(fs, job.place.dir)[i];
    var path := job.dst + [entry.name];
    assert job in [job];
    CopiedEntry(fs, root, job.dst, job.place, i);
    LeftNext(fs, stack, job, i);
    NoSize(fs, entry, job.place.ancestors);
    MoreWritten(fs, root, out, stack + [job], path, MadeFile(content));
    EntryListed(fs, root, out, out[path := MadeFile(content)], stack, job, i);
  }

  lemma {:induction false} NothingListed(fs: FileSystem, root: Real, out: map<Path, Made>, stack: seq<Job>, job: Job, i: nat)
    requires DistinctNames(fs) && Listed(fs, root, out, stack, job, i) && i < |Listing(fs, job.place.dir)|
    requires var target := Listing(fs, job.place.dir)[i].target;
             target.Nothing? || (target.Directory? && target.dir in job.place.ancestors)
    ensures Listed(fs, root, out, stack, job, i + 1)
    ensures Left(fs, stack, job, i + 1) == Left(fs, stack, job, i)
  {
    assert job in [job];
    CopiedEntry(fs, root, job.dst, job.place, i);
    LeftNext(fs, stack, job, i);
    NoSize(fs, Listing(fs, job.place.dir)[i], job.place.ancestors);
    EntryListed(fs, root, out, out, stack, job, i);
  }

  lemma {:induction false} ListingEnds(fs: FileSystem, root: Real, out: map<Path, Made>, stack: seq<Job>, job: Job)
    requires Listed(fs, root, out, stack, job, |Listing(fs, job.place.dir)|)
    ensures JobsStand(fs, root, stack) && OnlyCopied(fs, root, out) && Accounted(fs, root, out, stack)
    ensures Left(fs, stack, job, |Listing(fs, job.place.dir)|) == StackSize(fs, stack)
  {
    assert job in [job];
    ListingHandled(fs, root, job.dst, job.place, out);
    JobDone(fs, root, out, stack, job);
  }

  /** The copy: terminates on every file system and writes exactly what is copied. */
  method CopyTree(fs: FileSystem, root: Real) returns (out: map<Path, Made>)
    requires DistinctNames(fs)
    ensures forall path :: path in out <==> Copied(fs, root, path).Some?
    ensures forall path <- out :: Copied(fs, root, path) == Some(out[path])
  {
    out := map[[] := MadeDirectory];
    var stack := [Job([], Place(root, {root}))];
    assert stack[0] in stack;
    while |stack| > 0
      invariant JobsStand(fs, root, stack) && OnlyCopied(fs, root, out) && Accounted(fs, root, out, stack)
      decreases StackSize(fs, stack)
    {
      var job := stack[|stack| - 1];
      ghost var all := stack;
      stack := stack[..|stack| - 1];
      assert all == stack + [job];
      ListingBegins(fs, root, out, stack, job);
      var entries := Listing(fs, job.place.dir);
      for i := 0 to |entries|
        invariant Listed(fs, root, out, stack, job, i) && Left(fs, stack, job, i) < StackSize(fs, all)
      {
        var entryDst := job.dst + [entries[i].name];
        match entries[i].target {
          case Directory(dir) =>
            if dir in job.place.ancestors {
              NothingListed(fs, root, out, stack, job, i);
            } else {
              DirectoryListed(fs, root, out, stack, job, i, dir);
              out := out[entryDst := MadeDirectory];
              stack := stack + [Job(entryDst, Place(dir, job.place.ancestors + {dir}))];
            }
          case File(content) =>
            FileListed(fs, root, out, stack, job, i, content);
            out := out[entryDst := MadeFile(content)];
          case Nothing =>
            NothingListed(fs, root, out, stack, job, i);
        }
      }
      ListingEnds(fs, root, out, stack, job);
    }
    forall path | Copied(fs, root, path).Some? ensures path in out {
      NothingLeft(fs, root, out, path);
    }
  }
}
