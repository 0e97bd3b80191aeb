/** `DatasetCache`: one load after another, and the hot-reload loop. */
module Cache {
  import opened CacheLoads
  import opened Prelude

  /** How the outside world meets one `load`: the mtime at its stat, the version that
      `populate_from_source` would read, and how each operation goes. */
  datatype Schedule = Schedule(
    stat: int,
    atPopulate: int,
    statLuck: Luck,
    readLuck: Luck,
    populateLuck: Luck,
    serialiseLuck: Luck,
    openLuck: Luck,
    dumpLuck: Luck,
    replaceLuck: Luck,
    removeLuck: Luck)

  function SourceAt<P>(c: Schedule, at: Phase<P>): int {
    if at.Idle? then c.stat else c.atPopulate
  }

  function LuckAt<P>(c: Schedule, at: Phase<P>): Luck {
    match at
    case Idle(_) => c.statLuck
    case Statted(_) => c.readLuck
    case Hit(_, _) => c.populateLuck
    case Missed(_) => c.populateLuck
    case Populated(_) => c.serialiseLuck
    case Serialised(_) => c.openLuck
    case Opened(_, _) => c.dumpLuck
    case Dumped => c.replaceLuck
    case CleaningUp => c.removeLuck
  }

  function Remaining<P>(at: Phase<P>): nat {
    match at
    case Idle(_) => 8
    case Statted(_) => 7
    case Hit(_, _) => 6
    case Missed(_) => 6
    case Populated(_) => 5
    case Serialised(_) => 4
    case Opened(_, _) => 3
    case Dumped => 2
    case CleaningUp => 1
  }

  /** The operations of one load from `at` to its end, with no other load between them; the
      flag says that it returned instead of raising. */
  function Alone<D, P>(spec: Spec<D, P>, s: State<D, P>, at: Phase<P>, c: Schedule): (State<D, P>, bool)
    decreases Remaining(at)
  {
    var (t, next) := Operation(spec, s, SourceAt(c, at), at, LuckAt(c, at));
    if next.Idle? then (t, next.returned) else Alone(spec, t, next, c)
  }

  /** `load` */
  function Loaded<D, P>(spec: Spec<D, P>, s: State<D, P>, c: Schedule): (State<D, P>, bool) {
    Alone(spec, s, Idle(true), c)
  }

  /** The source only moves forward: through this load, having been at `from` before it. */
  predicate Forward(from: int, c: Schedule) {
    from <= c.stat <= c.atPopulate
  }

  // ---------------------------------------------------------------- one load

  /** A load on its way: files in order, the mtime it saw, and past its populate the dataset. */
  ghost predicate OnItsWay<D, P>(spec: Spec<D, P>, s: State<D, P>, at: Phase<P>, c: Schedule, now: int) {
    && FilesFresh(spec, s, now) && PhaseOk(spec, s, now, at)
    && now <= SourceAt(c, at) && c.stat <= c.atPopulate
    && match at
       case Statted(m) => m == c.stat
       case Hit(m, _) => m == c.stat
       case Missed(m) => m == c.stat
       case Populated(m) => m == c.stat
       case Idle(_) => true
       case _ => Holds(spec, s, c.stat, c.atPopulate)
  }

  lemma OnItsWayNext<D(!new), P(!new)>(spec: Spec<D, P>, s: State<D, P>, at: Phase<P>, c: Schedule, now: int)
    requires Lawful(spec) && OnItsWay(spec, s, at, c, now)
    ensures var (t, next) := Operation(spec, s, SourceAt(c, at), at, LuckAt(c, at));
      && (!next.Idle? ==> OnItsWay(spec, t, next, c, SourceAt(c, at)))
      && FilesFresh(spec, t, c.atPopulate)
      && (t.memory == s.memory || Holds(spec, t, c.stat, c.atPopulate))
      && (next == Idle(true) ==> Holds(spec, t, c.stat, c.atPopulate))
  {
    var source := SourceAt(c, at);
    FilesLater(spec, s, now, source);
    PhaseLater(spec, s, now, source, at);
    OperationOk(spec, s, source, at, LuckAt(c, at));
    var (t, next) := Operation(spec, s, source, at, LuckAt(c, at));
    FilesLater(spec, t, source, c.atPopulate);
    hide FilesFresh;
    if at.Hit? {
      var v :| EntryFrom(spec, Entry(at.mtime, at.payload), v, source);
      assert spec.restore(at.payload) == spec.build(v);
    }
  }

  /** A load that returns leaves a version no older than its stat and no newer than the source
      at its populate; one that raises leaves the dataset alone or does the same. The files
      stay fresh either way. */
  lemma {:induction false} LoadIsFresh<D(!new), P(!new)>(spec: Spec<D, P>, s: State<D, P>, at: Phase<P>, c: Schedule, now: int)
    requires Lawful(spec) && OnItsWay(spec, s, at, c, now)
    ensures var (t, ok) := Alone(spec, s, at, c);
      && FilesFresh(spec, t, c.atPopulate)
      && (ok ==> Holds(spec, t, c.stat, c.atPopulate))
      && (t.memory == s.memory || Holds(spec, t, c.stat, c.atPopulate))
    decreases Remaining(at)
  {
    OnItsWayNext(spec, s, at, c, now);
    var (t, next) := Operation(spec, s, SourceAt(c, at), at, LuckAt(c, at));
    hide Operation, OnItsWay, FilesFresh;
    if !next.Idle? {
      assert Remaining(next) < Remaining(at) by {
        PhaseMovesOn(spec, s, at, c);
      }
      LoadIsFresh(spec, t, next, c, SourceAt(c, at));
    }
  }

  lemma PhaseMovesOn<D, P>(spec: Spec<D, P>, s: State<D, P>, at: Phase<P>, c: Schedule)
    ensures var next := Operation(spec, s, SourceAt(c, at), at, LuckAt(c, at)).1;
      next.Idle? || Remaining(next) < Remaining(at)
  {
  }

  /** The two names are in use for different files. */
  predicate NamesApart<D, P>(s: State<D, P>) {
    && (s.tmp.Some? ==> s.tmp.value < |s.files|)
    && (s.disk.Some? ==> s.disk.value < |s.files|)
    && (s.tmp.Some? && s.disk.Some? ==> s.tmp.value != s.disk.value)
  }

  /** `_write_cache` from the opening on, as the only writer: the cache file becomes the whole
      new entry exactly when opening, writing and renaming all work, which then reads back
      under its mtime; in every other case it is what it was before. The temporary file is gone
      when the load returns, unless removing it failed. */
  lemma WriteIsAllOrNothing<D(!new), P(!new)>(spec: Spec<D, P>, s: State<D, P>, e: Entry<P>, c: Schedule)
    requires NamesApart(s) && !c.dumpLuck.Mixes?
    ensures var (t, ok) := Alone(spec, s, Serialised(e), c);
      var worked := c.openLuck.Works? && c.dumpLuck.Works? && c.replaceLuck.Works?;
      && NamesApart(t) && t.memory == s.memory
      && CacheFile(t) == (if worked then Some(Whole(e)) else CacheFile(s))
      && (worked ==> AfterRead(CacheFile(t), e.sourceMtime, Works) == Hit(e.sourceMtime, e.payload))
      && (ok && (worked || c.removeLuck.Works?) ==> t.tmp == None)
  {
    var (s1, p1) := Operation(spec, s, c.atPopulate, Serialised(e), c.openLuck);
    if p1.Opened? {
      var (s2, p2) := Operation(spec, s1, c.atPopulate, p1, c.dumpLuck);
      assert NamesApart(s2) && CacheFile(s2) == CacheFile(s) && Contents(s2, s2.tmp).Some?;
      assert c.dumpLuck.Works? ==> Contents(s2, s2.tmp) == Some(Whole(e));
      assert Alone(spec, s1, p1, c) == if p2.Idle? then (s2, p2.returned) else Alone(spec, s2, p2, c);
      if p2.Dumped? {
        RenameIsAllOrNothing(spec, s2, c);
      }
      hide Operation, NamesApart, Contents;
    }
  }

  lemma RenameIsAllOrNothing<D, P>(spec: Spec<D, P>, s: State<D, P>, c: Schedule)
    requires NamesApart(s) && s.tmp.Some?
    ensures var (t, ok) := Alone(spec, s, Dumped, c);
      && NamesApart(t) && t.memory == s.memory
      && CacheFile(t) == (if c.replaceLuck.Works? then Contents(s, s.tmp) else CacheFile(s))
      && (ok && (c.replaceLuck.Works? || c.removeLuck.Works?) ==> t.tmp == None)
  {
    var (s1, p1) := Operation(spec, s, c.atPopulate, Dumped, c.replaceLuck);
    assert Alone(spec, s, Dumped, c) == if p1.Idle? then (s1, p1.returned) else Alone(spec, s1, p1, c);
  }

  // ---------------------------------------------------------------- when a load returns

  /** The load sees the mtime and then reads a whole entry filed under it. */
  predicate FindsEntry<D, P>(s: State<D, P>, c: Schedule) {
    && c.readLuck.Works? && CacheFile(s).Some? && CacheFile(s).value.Whole?
    && CacheFile(s).value.entry.sourceMtime == c.stat
  }

  /** It gets past its populate: nothing raised, other than OSError or ValueError at the read. */
  predicate Populates<D, P>(s: State<D, P>, c: Schedule) {
    c.statLuck.Works? && !(CacheFile(s).Some? && c.readLuck.Raises?) && c.populateLuck.Works?
  }

  /** The new file gets its name. */
  predicate Renames(c: Schedule) {
    c.openLuck.Works? && (c.dumpLuck.Works? || c.dumpLuck.Mixes?) && c.replaceLuck.Works?
  }

  /** Nothing but OSError is raised by those operations of `_write_cache` that are reached. */
  predicate WriteReturns(c: Schedule) {
    && !c.openLuck.Raises?
    && (c.openLuck.Works? ==> !c.dumpLuck.Raises?)
    && (c.openLuck.Works? && !c.dumpLuck.OsError? ==> !c.replaceLuck.Raises?)
    && (!Renames(c) ==> !c.removeLuck.Raises?)
  }

  predicate Returns<D, P>(s: State<D, P>, c: Schedule) {
    Populates(s, c) && (FindsEntry(s, c) || (c.serialiseLuck.Works? && WriteReturns(c)))
  }

  lemma WriteReturnsIff<D, P>(spec: Spec<D, P>, s: State<D, P>, e: Entry<P>, c: Schedule)
    ensures Alone(spec, s, Serialised(e), c).1 <==> WriteReturns(c)
    ensures Alone(spec, s, Serialised(e), c).0.memory == s.memory
  {
    var (s1, p1) := Operation(spec, s, c.atPopulate, Serialised(e), c.openLuck);
    if p1.Opened? {
      var (s2, p2) := Operation(spec, s1, c.atPopulate, p1, c.dumpLuck);
      assert s2.tmp.Some? && s2.memory == s.memory;
      assert Alone(spec, s1, p1, c) == if p2.Idle? then (s2, p2.returned) else Alone(spec, s2, p2, c);
      RenameReturnsIff(spec, s2, c);
      hide Contents, Written;
    }
  }

  lemma RenameReturnsIff<D, P>(spec: Spec<D, P>, s: State<D, P>, c: Schedule)
    ensures s.tmp.Some? ==>
      (Alone(spec, s, Dumped, c).1 <==> !c.replaceLuck.Raises? && (c.replaceLuck.Works? || !c.removeLuck.Raises?))
    ensures Alone(spec, s, Dumped, c).0.memory == s.memory
    ensures Alone(spec, s, CleaningUp, c).1 <==> !c.removeLuck.Raises?
  {
    var (s1, p1) := Operation(spec, s, c.atPopulate, Dumped, c.replaceLuck);
    assert Alone(spec, s, Dumped, c) == if p1.Idle? then (s1, p1.returned) else Alone(spec, s1, p1, c);
  }

  /** A load up to its populate, and what is left of it then. */
  lemma UpToPopulate<D, P>(spec: Spec<D, P>, s: State<D, P>, c: Schedule)
    ensures Loaded(spec, s, c) ==
      if !Populates(s, c) then (s, false)
      else if FindsEntry(s, c) then (s.(memory := Some(spec.restore(CacheFile(s).value.entry.payload))), true)
      else
        var t := s.(memory := Some(spec.build(c.atPopulate)));
        if c.serialiseLuck.Works?
        then Alone(spec, t, Serialised(Entry(c.stat, spec.serialize(spec.build(c.atPopulate)))), c)
        else (t, false)
  {
    var read := AfterRead(CacheFile(s), c.stat, c.readLuck);
    assert c.statLuck.Works? ==> Loaded(spec, s, c) == Alone(spec, s, Statted(c.stat), c);
    assert Alone(spec, s, Statted(c.stat), c) == if read.Idle? then (s, read.returned) else Alone(spec, s, read, c);
    if read.Missed? && c.populateLuck.Works? {
      var t := s.(memory := Some(spec.build(c.atPopulate)));
      assert Alone(spec, s, read, c) == Alone(spec, t, Populated(c.stat), c);
    }
    hide Opening, Contents;
  }

  /** A load returns instead of raising if and only if its stat, its populate and, unless it
      hits, its serialise work, and nothing but OSError is raised by any other operation it
      reaches. */
  lemma LoadReturnsIff<D, P>(spec: Spec<D, P>, s: State<D, P>, c: Schedule)
    ensures Loaded(spec, s, c).1 <==>
      && c.statLuck.Works? && !(CacheFile(s).Some? && c.readLuck.Raises?) && c.populateLuck.Works?
      && (FindsEntry(s, c) ||
          (c.serialiseLuck.Works?
           && !c.openLuck.Raises?
           && (c.openLuck.Works? ==> !c.dumpLuck.Raises?)
           && (c.openLuck.Works? && !c.dumpLuck.OsError? ==> !c.replaceLuck.Raises?)
           && (!Renames(c) ==> !c.removeLuck.Raises?)))
  {
    UpToPopulate(spec, s, c);
    WriteReturnsIff(spec, s.(memory := Some(spec.build(c.atPopulate))),
                    Entry(c.stat, spec.serialize(spec.build(c.atPopulate))), c);
    hide Loaded, Alone, Renames, FindsEntry;
  }

  /** What it leaves: the dataset restored, rebuilt or untouched; and, as the only writer, the
      cache file rewritten exactly when it missed and every later operation worked. */
  lemma LoadLeaves<D(!new), P(!new)>(spec: Spec<D, P>, s: State<D, P>, c: Schedule)
    ensures var t := Loaded(spec, s, c).0;
      && t.memory == (if !Populates(s, c) then s.memory
                      else if FindsEntry(s, c) then Some(spec.restore(CacheFile(s).value.entry.payload))
                      else Some(spec.build(c.atPopulate)))
      && (NamesApart(s) && !c.dumpLuck.Mixes? ==>
            CacheFile(t) == if Populates(s, c) && !FindsEntry(s, c) && c.serialiseLuck.Works?
                               && c.openLuck.Works? && c.dumpLuck.Works? && c.replaceLuck.Works?
                            then Some(Whole(Entry(c.stat, spec.serialize(spec.build(c.atPopulate)))))
                            else CacheFile(s))
  {
    UpToPopulate(spec, s, c);
    var t := s.(memory := Some(spec.build(c.atPopulate)));
    var e := Entry(c.stat, spec.serialize(spec.build(c.atPopulate)));
    WriteReturnsIff(spec, t, e, c);
    if NamesApart(s) && !c.dumpLuck.Mixes? {
      WriteIsAllOrNothing(spec, t, e, c);
    }
    hide Loaded, Alone, Populates, FindsEntry, AfterRead;
  }

  /** So an OSError at the read, the open, the dump, the rename or the removal never makes a
      load raise: it returns, with the dataset populated. */
  lemma OsErrorsAreSwallowed<D(!new), P(!new)>(spec: Spec<D, P>, s: State<D, P>, c: Schedule)
    requires c.statLuck.Works? && c.populateLuck.Works? && c.serialiseLuck.Works?
    requires Raises !in {c.readLuck, c.openLuck, c.dumpLuck, c.replaceLuck, c.removeLuck}
    ensures Returns(s, c)
    ensures Loaded(spec, s, c).1
    ensures Loaded(spec, s, c).0.memory == (if FindsEntry(s, c) then Some(spec.restore(CacheFile(s).value.entry.payload))
                                            else Some(spec.build(c.atPopulate)))
  {
    LoadReturnsIff(spec, s, c);
    LoadLeaves(spec, s, c);
    hide Loaded, FindsEntry, CacheFile;
  }

  /** Other failures of the write are not swallowed. For one: a payload that is no JSON, met by
      the dump of a load over no cache file. The dataset is populated, and the load raises. */
  lemma UnwritablePayloadRaises<D(!new), P(!new)>(spec: Spec<D, P>, s: State<D, P>, mtime: int)
    requires CacheFile(s).None?
    ensures var c := Schedule(mtime, mtime, Works, Works, Works, Works, Works, Raises, Works, Works);
      !Loaded(spec, s, c).1 && Loaded(spec, s, c).0.memory == Some(spec.build(mtime))
  {
    var c := Schedule(mtime, mtime, Works, Works, Works, Works, Works, Raises, Works, Works);
    LoadReturnsIff(spec, s, c);
    LoadLeaves(spec, s, c);
    hide Loaded, CacheFile;
  }

  // ---------------------------------------------------------------- watch

  /** One turn of the watch loop: the mtime it reads, None for OSError, and its load if it
      gets to one. */
  datatype Poll = Poll(mtime: Option<int>, load: Schedule)

  datatype Turn = Unchanged | Unreadable | Reloaded | ReloadFailed

  datatype Watching<D, P> = Watching(cache: State<D, P>, lastMtime: int)

  function Turned<D, P>(spec: Spec<D, P>, w: Watching<D, P>, p: Poll): (Watching<D, P>, Turn) {
    if p.mtime.None? then (w, Unreadable)
    else if p.mtime.value <= w.lastMtime then (w, Unchanged)
    else
      var (cache, ok) := Loaded(spec, w.cache, p.load);
      if ok then (Watching(cache, p.mtime.value), Reloaded) else (Watching(cache, w.lastMtime), ReloadFailed)
  }

  function Watched<D, P>(spec: Spec<D, P>, w: Watching<D, P>, polls: seq<Poll>): Watching<D, P> {
    if polls == [] then w else Turned(spec, Watched(spec, w, polls[..|polls| - 1]), polls[|polls| - 1]).0
  }

  lemma WatchedStart<D, P>(spec: Spec<D, P>, w: Watching<D, P>)
    ensures Watched(spec, w, []) == w
  {
  }

  lemma WatchedNext<D, P>(spec: Spec<D, P>, w: Watching<D, P>, polls: seq<Poll>, i: nat)
    requires i < |polls|
    ensures Watched(spec, w, polls[..i + 1]) == Turned(spec, Watched(spec, w, polls[..i]), polls[i]).0
  {
    assert polls[..i + 1][..i] == polls[..i];
    hide Turned;
  }

  /** What `load` makes of the outcome of `_read_cache`. */
  function Compared<P>(raised: bool, cached: Option<Entry<P>>, m: int): Phase<P> {
    if raised then Idle(false)
    else if cached.Some? && cached.value.sourceMtime == m then Hit(m, cached.value.payload)
    else Missed(m)
  }

  class DatasetCache<D, P> {
    const spec: Spec<D, P>
    var files: seq<File<P>>
    var tmp: Option<nat>
    var disk: Option<nat>
    var memory: Option<D>
    var reloading: bool

    ghost function View(): State<D, P>
      reads this
    {
      State(files, tmp, disk, memory)
    }

    /** Over whatever files there are. */
    constructor (spec: Spec<D, P>, files: seq<File<P>>, tmp: Option<nat>, disk: Option<nat>, memory: Option<D>)
      ensures this.spec == spec && View() == State(files, tmp, disk, memory) && !reloading
    {
      this.spec := spec;
      this.files, this.tmp, this.disk, this.memory, reloading := files, tmp, disk, memory, false;
    }

    /** `_read_cache`: whatever mtime the result is then compared with, the outcome is a hit on
        the entry on disk, a miss, or an exception. */
    method ReadCache(c: Schedule) returns (raised: bool, cached: Option<Entry<P>>)
      ensures forall m :: AfterRead(CacheFile(View()), m, c.readLuck) == Compared(raised, cached, m)
    {
      if disk.None? || disk.value >= |files| {
        return false, None;
      }
      match c.readLuck
      case Raises => return true, None;
      case Works =>
        match files[disk.value] {
          case Whole(entry) => return false, Some(entry);
          case Torn => return false, None;
        }
      case _ => return false, None;
    }

    /** `open(tmp_path, "w")` */
    method OpenTmp() returns (n: nat)
      modifies this`files, this`tmp
      ensures forall e :: (View(), Opened(e, n)) == Opening(old(View()), e, Works)
    {
      if tmp.Some? && tmp.value < |files| {
        n := tmp.value;
        files := files[n := Torn];
      } else {
        n := |files|;
        files := files + [Torn];
        tmp := Some(n);
      }
    }

    /** `_write_cache`; serialising is outside its `try`. */
    method WriteCache(sourceMtime: int, c: Schedule) returns (ok: bool)
      requires memory.Some?
      modifies this`files, this`tmp, this`disk
      ensures (View(), ok) == Alone(spec, old(View()), Populated(sourceMtime), c)
      ensures ok <==> c.serialiseLuck.Works? && WriteReturns(c)
    {
      ghost var start := View();
      WriteReturnsIff(spec, start, Entry(sourceMtime, spec.serialize(memory.value)), c);
      if !c.serialiseLuck.Works? {
        return false;
      }
      var data := Entry(sourceMtime, spec.serialize(memory.value));
      assert Alone(spec, start, Populated(sourceMtime), c) == Alone(spec, start, Serialised(data), c);
      if c.openLuck.Raises? {
        return false;
      }
      if c.openLuck.Works? {
        var n := OpenTmp();
        assert Alone(spec, start, Serialised(data), c) == Alone(spec, View(), Opened(data, n), c);
        ghost var atOpen := View();
        if n < |files| {
          files := files[n := if c.dumpLuck.Works? then Whole(data) else Torn];
        }
        if c.dumpLuck.Raises? {
          return false;
        }
        if !c.dumpLuck.OsError? {
          assert Alone(spec, atOpen, Opened(data, n), c) == Alone(spec, View(), Dumped, c);
          if c.replaceLuck.Raises? {
            return false;
          }
          if c.replaceLuck.Works? && tmp.Some? {
            disk := tmp;
            tmp := None;
            return true;
          }
        }
      }
      assert Alone(spec, start, Serialised(data), c) == Alone(spec, View(), CleaningUp, c);
      if c.removeLuck.Raises? {
        return false;
      }
      if c.removeLuck.Works? {
        tmp := None;
      }
      return true;
    }

    method Load(c: Schedule) returns (ok: bool)
      modifies this`files, this`tmp, this`disk, this`memory
      ensures (View(), ok) == Loaded(spec, old(View()), c)
      ensures ok <==> Returns(old(View()), c)
    {
      ghost var start := View();
      LoadReturnsIff(spec, start, c);
      if !c.statLuck.Works? {
        return false;
      }
      var sourceMtime := c.stat;
      assert Loaded(spec, start, c) == Alone(spec, start, Statted(sourceMtime), c);
      var raised, cached := ReadCache(c);
      assert AfterRead(CacheFile(start), sourceMtime, c.readLuck) == Compared(raised, cached, sourceMtime);
      if raised {
        return false;
      }
      if cached.Some? && cached.value.sourceMtime == sourceMtime {
        assert Loaded(spec, start, c) == Alone(spec, start, Hit(sourceMtime, cached.value.payload), c);
        if !c.populateLuck.Works? {
          return false;
        }
        memory := Some(spec.restore(cached.value.payload));
        return true;
      }
      assert Loaded(spec, start, c) == Alone(spec, start, Missed(sourceMtime), c);
      if !c.populateLuck.Works? {
        return false;
      }
      memory := Some(spec.build(c.atPopulate));
      assert Loaded(spec, start, c) == Alone(spec, View(), Populated(sourceMtime), c);
      ok := WriteCache(sourceMtime, c);
    }

    /** `watch` over a finite stretch of its endless loop. */
    method Watch(start: Option<int>, polls: seq<Poll>) returns (lastMtime: Option<int>, turns: seq<Turn>)
      requires !reloading
      modifies this
      ensures !reloading
      ensures start.None? ==> lastMtime.None? && turns == [] && View() == old(View())
      ensures start.Some? ==>
                && lastMtime.Some? && |turns| == |polls|
                && Watching(View(), lastMtime.value) == Watched(spec, Watching(old(View()), start.value), polls)
                && forall k :: 0 <= k < |polls|
                     ==> turns[k] == Turned(spec, Watched(spec, Watching(old(View()), start.value), polls[..k]), polls[k]).1
    {
      hide Loaded, Watched;
      turns := [];
      if start.None? {
        return None, [];
      }
      var last := start.value;
      ghost var first := Watching(View(), last);
      WatchedStart(spec, first);
      for i := 0 to |polls|
        invariant !reloading
        invariant |turns| == i
        invariant Watching(View(), last) == Watched(spec, first, polls[..i])
        invariant forall k :: 0 <= k < i ==> turns[k] == Turned(spec, Watched(spec, first, polls[..k]), polls[k]).1
      {
        WatchedNext(spec, first, polls, i);
        if polls[i].mtime.None? {
          turns := turns + [Unreadable];
          continue;
        }
        var current := polls[i].mtime.value;
        if current <= last {
          turns := turns + [Unchanged];
          continue;
        }
        reloading := true;
        var ok := Load(polls[i].load);
        if ok {
          last := current;
        }
        turns := turns + [if ok then Reloaded else ReloadFailed];
        reloading := false;
      }
      assert polls[..|polls|] == polls;
      lastMtime := Some(last);
    }
  }

  /** The source only moves forward from turn to turn; `from` is where it was before. */
  predicate PollsForward(from: int, polls: seq<Poll>) {
    polls == [] ||
    (PollsForward(from, polls[..|polls| - 1]) && PollForward(Reach(from, polls[..|polls| - 1]), polls[|polls| - 1]))
  }

  predicate PollForward(from: int, p: Poll) {
    && (p.mtime.Some? ==> from <= p.mtime.value)
    && Forward(if p.mtime.Some? then p.mtime.value else from, p.load)
  }

  /** Where the source is after the polls. */
  function Reach(from: int, polls: seq<Poll>): int {
    if polls == [] then from else polls[|polls| - 1].load.atPopulate
  }

  /** Every loop head: the dataset is at least as new as `last_mtime`. */
  lemma {:induction false} WatchInvariant<D(!new), P(!new)>(spec: Spec<D, P>, s: State<D, P>, start: int, polls: seq<Poll>)
    requires Lawful(spec) && FilesFresh(spec, s, start) && s.memory == Some(spec.build(start))
    requires PollsForward(start, polls)
    ensures var w := Watched(spec, Watching(s, start), polls);
      && FilesFresh(spec, w.cache, Reach(start, polls))
      && start <= w.lastMtime <= Reach(start, polls)
      && Holds(spec, w.cache, w.lastMtime, Reach(start, polls))
  {
    if polls == [] {
      assert Holds(spec, s, start, start);
    } else {
      WatchInvariant(spec, s, start, polls[..|polls| - 1]);
      TurnInvariant(spec, Watched(spec, Watching(s, start), polls[..|polls| - 1]),
                    Reach(start, polls[..|polls| - 1]), polls[|polls| - 1]);
    }
  }

  lemma TurnInvariant<D(!new), P(!new)>(spec: Spec<D, P>, w: Watching<D, P>, from: int, p: Poll)
    requires Lawful(spec) && FilesFresh(spec, w.cache, from) && PollForward(from, p)
    requires w.lastMtime <= from && Holds(spec, w.cache, w.lastMtime, from)
    ensures var t := Turned(spec, w, p).0;
      && FilesFresh(spec, t.cache, p.load.atPopulate)
      && w.lastMtime <= t.lastMtime <= p.load.atPopulate
      && Holds(spec, t.cache, t.lastMtime, p.load.atPopulate)
  {
    FilesLater(spec, w.cache, from, p.load.atPopulate);
    if p.mtime.Some? && p.mtime.value > w.lastMtime {
      LoadIsFresh(spec, w.cache, Idle(true), p.load, from);
    }
    hide Alone, FilesFresh;
  }

  /** What kind of turn it is, before it is taken. */
  lemma TurnKind<D, P>(spec: Spec<D, P>, w: Watching<D, P>, p: Poll)
    ensures Turned(spec, w, p).1 ==
      (if p.mtime.None? then Unreadable
       else if p.mtime.value <= w.lastMtime then Unchanged
       else if Returns(w.cache, p.load) then Reloaded
       else ReloadFailed)
  {
    LoadReturnsIff(spec, w.cache, p.load);
    hide Loaded, FindsEntry, CacheFile;
  }

  /** Whenever a turn reads the mtime, nothing but OSErrors come in the way of the load it
      makes, and there is no write while it lasts, the dataset is what rebuilding from the
      source would give, whatever failed or was rewritten in earlier turns. */
  lemma TurnCatchesUp<D(!new), P(!new)>(spec: Spec<D, P>, s: State<D, P>, start: int, polls: seq<Poll>)
    requires Lawful(spec) && FilesFresh(spec, s, start) && s.memory == Some(spec.build(start))
    requires polls != [] && PollsForward(start, polls)
    requires var p, w := polls[|polls| - 1], Watched(spec, Watching(s, start), polls[..|polls| - 1]);
      p.mtime == Some(p.load.atPopulate) && (w.lastMtime < p.load.atPopulate ==> Returns(w.cache, p.load))
    ensures var p, w := polls[|polls| - 1], Watched(spec, Watching(s, start), polls[..|polls| - 1]);
      && Turned(spec, w, p).1 == (if w.lastMtime < p.load.atPopulate then Reloaded else Unchanged)
      && Watched(spec, Watching(s, start), polls).cache.memory == Some(spec.build(p.load.atPopulate))
  {
    var front := polls[..|polls| - 1];
    var w := Watched(spec, Watching(s, start), front);
    WatchInvariant(spec, s, start, front);
    TurnKind(spec, w, polls[|polls| - 1]);
    hide FilesFresh, Holds, Turned, PollForward, Returns;
    CatchesUp(spec, w, Reach(start, front), polls[|polls| - 1]);
  }

  /** In particular whatever OSErrors there are at the read and in the write. */
  lemma TurnCatchesUpDespiteOsErrors<D(!new), P(!new)>(spec: Spec<D, P>, s: State<D, P>, start: int, polls: seq<Poll>)
    requires Lawful(spec) && FilesFresh(spec, s, start) && s.memory == Some(spec.build(start))
    requires polls != [] && PollsForward(start, polls)
    requires var p, c := polls[|polls| - 1], polls[|polls| - 1].load;
      && p.mtime == Some(c.atPopulate)
      && c.statLuck.Works? && c.populateLuck.Works? && c.serialiseLuck.Works?
      && Raises !in {c.readLuck, c.openLuck, c.dumpLuck, c.replaceLuck, c.removeLuck}
    ensures Watched(spec, Watching(s, start), polls).cache.memory == Some(spec.build(polls[|polls| - 1].load.atPopulate))
    ensures Watched(spec, Watching(s, start), polls).lastMtime >= polls[|polls| - 1].load.atPopulate
  {
    var p, w := polls[|polls| - 1], Watched(spec, Watching(s, start), polls[..|polls| - 1]);
    OsErrorsAreSwallowed(spec, w.cache, p.load);
    TurnCatchesUp(spec, s, start, polls);
    hide FilesFresh, Loaded, Returns, PollsForward;
  }

  lemma CatchesUp<D(!new), P(!new)>(spec: Spec<D, P>, w: Watching<D, P>, from: int, p: Poll)
    requires Lawful(spec) && FilesFresh(spec, w.cache, from) && PollForward(from, p)
    requires w.lastMtime <= from && Holds(spec, w.cache, w.lastMtime, from)
    requires p.mtime == Some(p.load.atPopulate) && Turned(spec, w, p).1 != ReloadFailed
    ensures Turned(spec, w, p).0.cache.memory == Some(spec.build(p.load.atPopulate))
  {
    if p.mtime.value > w.lastMtime {
      LoadIsFresh(spec, w.cache, Idle(true), p.load, from);
    }
    hide Alone, FilesFresh;
  }

  function TurnOf<D, P>(spec: Spec<D, P>, w: Watching<D, P>, polls: seq<Poll>, k: nat): Turn
    requires k < |polls|
  {
    Turned(spec, Watched(spec, w, polls[..k]), polls[k]).1
  }

  /** No turn from `i` to `k` reloads. */
  ghost predicate NoReload<D(!new), P(!new)>(spec: Spec<D, P>, w: Watching<D, P>, polls: seq<Poll>, i: int, k: nat)
    requires k <= |polls|
  {
    forall j: nat :: i <= j < k ==> TurnOf(spec, w, polls, j) != Reloaded
  }

  /** `m` is the mtime of the last turn before `k` that reloaded, or the one the watch started
      from if there is none. */
  ghost predicate LastReload<D(!new), P(!new)>(spec: Spec<D, P>, w: Watching<D, P>, polls: seq<Poll>, k: nat, m: int)
    requires k <= |polls|
  {
    || (m == w.lastMtime && NoReload(spec, w, polls, 0, k))
    || exists i: nat :: i < k && TurnOf(spec, w, polls, i) == Reloaded && polls[i].mtime == Some(m)
                        && NoReload(spec, w, polls, i + 1, k)
  }

  lemma {:induction false} LastMtimeIsLastReload<D(!new), P(!new)>(spec: Spec<D, P>, w: Watching<D, P>, polls: seq<Poll>, k: nat)
    requires k <= |polls|
    ensures LastReload(spec, w, polls, k, Watched(spec, w, polls[..k]).lastMtime)
    decreases k
  {
    if k == 0 {
      assert polls[..0] == [];
    } else {
      LastMtimeIsLastReload(spec, w, polls, k - 1);
      WatchedNext(spec, w, polls, k - 1);
      TurnMoves(spec, Watched(spec, w, polls[..k - 1]), polls[k - 1]);
      hide Turned, Watched, LastReload;
      LastReloadNext(spec, w, polls, k - 1, Watched(spec, w, polls[..k - 1]).lastMtime);
    }
  }

  lemma TurnMoves<D, P>(spec: Spec<D, P>, w: Watching<D, P>, p: Poll)
    ensures var (v, turn) := Turned(spec, w, p);
      if turn == Reloaded then p.mtime == Some(v.lastMtime) else v.lastMtime == w.lastMtime
  {
    hide Loaded;
  }

  lemma LastReloadNext<D(!new), P(!new)>(spec: Spec<D, P>, w: Watching<D, P>, polls: seq<Poll>, k: nat, m: int)
    requires k < |polls| && LastReload(spec, w, polls, k, m)
    ensures TurnOf(spec, w, polls, k) != Reloaded ==> LastReload(spec, w, polls, k + 1, m)
    ensures TurnOf(spec, w, polls, k) == Reloaded ==>
      forall n :: polls[k].mtime == Some(n) ==> LastReload(spec, w, polls, k + 1, n)
  {
    hide TurnOf;
    if TurnOf(spec, w, polls, k) == Reloaded {
      assert NoReload(spec, w, polls, k + 1, k + 1);
    } else if m == w.lastMtime && NoReload(spec, w, polls, 0, k) {
      assert NoReload(spec, w, polls, 0, k + 1);
    } else {
      var i: nat :| i < k && TurnOf(spec, w, polls, i) == Reloaded && polls[i].mtime == Some(m)
                    && NoReload(spec, w, polls, i + 1, k);
      assert NoReload(spec, w, polls, i + 1, k + 1);
    }
  }

  /** A turn loads if and only if it reads an mtime above that of the last turn that reloaded. */
  lemma ReloadsExactly<D(!new), P(!new)>(spec: Spec<D, P>, w: Watching<D, P>, polls: seq<Poll>, k: nat, m: int)
    requires k < |polls| && LastReload(spec, w, polls, k, m)
    ensures TurnOf(spec, w, polls, k) in {Reloaded, ReloadFailed} <==> polls[k].mtime.Some? && m < polls[k].mtime.value
    ensures TurnOf(spec, w, polls, k) == Unreadable <==> polls[k].mtime.None?
  {
    var n := Watched(spec, w, polls[..k]).lastMtime;
    LastMtimeIsLastReload(spec, w, polls, k);
    LastReloadIsOne(spec, w, polls, k, m, n);
    hide Loaded, LastReload, Watched;
  }

  lemma LastReloadIsOne<D(!new), P(!new)>(spec: Spec<D, P>, w: Watching<D, P>, polls: seq<Poll>, k: nat, m: int, n: int)
    requires k <= |polls| && LastReload(spec, w, polls, k, m) && LastReload(spec, w, polls, k, n)
    ensures m == n
  {
    hide TurnOf;
  }

  lemma PollsForwardPrefix(from: int, polls: seq<Poll>, k: nat)
    requires PollsForward(from, polls) && k < |polls|
    ensures PollForward(Reach(from, polls[..k]), polls[k])
    decreases |polls|
  {
    if k + 1 < |polls| {
      assert polls[..|polls| - 1][..k] == polls[..k];
      PollsForwardPrefix(from, polls[..|polls| - 1], k);
    }
  }

  /** Between a failed load and the next one that succeeds, `last_mtime` stays where it was
      and the source stays ahead of it. */
  lemma {:induction false} StaysBehind<D, P>(spec: Spec<D, P>, w: Watching<D, P>, polls: seq<Poll>, k: nat, j: nat)
    requires k < j <= |polls| && PollsForward(w.lastMtime, polls)
    requires TurnOf(spec, w, polls, k) == ReloadFailed
    requires forall i :: k < i < j ==> TurnOf(spec, w, polls, i) != Reloaded
    ensures Watched(spec, w, polls[..j]).lastMtime == Watched(spec, w, polls[..k]).lastMtime
    ensures Reach(w.lastMtime, polls[..j]) > Watched(spec, w, polls[..k]).lastMtime
    decreases j
  {
    hide Loaded;
    WatchedNext(spec, w, polls, j - 1);
    PollsForwardPrefix(w.lastMtime, polls, j - 1);
    if j > k + 1 {
      StaysBehind(spec, w, polls, k, j - 1);
      assert TurnOf(spec, w, polls, j - 1) != Reloaded;
    }
  }

  /** A failed load is retried: until one succeeds, every later turn that can read the mtime
      loads again, even if the source has not changed since the failure. */
  lemma FailedLoadIsRetried<D, P>(spec: Spec<D, P>, w: Watching<D, P>, polls: seq<Poll>, k: nat, j: nat)
    requires k < j < |polls| && PollsForward(w.lastMtime, polls)
    requires TurnOf(spec, w, polls, k) == ReloadFailed
    requires forall i :: k < i < j ==> TurnOf(spec, w, polls, i) != Reloaded
    requires polls[j].mtime.Some?
    ensures TurnOf(spec, w, polls, j) in {Reloaded, ReloadFailed}
  {
    StaysBehind(spec, w, polls, k, j);
    PollsForwardPrefix(w.lastMtime, polls, j);
  }
}
