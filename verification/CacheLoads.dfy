/** The file operations of `DatasetCache.load`, by any number of calls at once, between writes
    of the source. Writes of the source strictly raise its mtime, so a version of the source is
    named by its mtime. */
module CacheLoads {
  import opened Prelude

  /** What a DatasetSpec does with versions, its own data and cached payloads. */
  datatype Spec<!D, !P> = Spec(build: int -> D, serialize: D -> P, restore: P -> D)

  /** Populating from a serialised payload equals populating from the source it came from. */
  ghost predicate Lawful<D(!new), P(!new)>(spec: Spec<D, P>) {
    forall m :: spec.restore(spec.serialize(spec.build(m))) == spec.build(m)
  }

  datatype Entry<P> = Entry(sourceMtime: int, payload: P)

  /** The contents of a file; `Torn` is any text that `json.load` rejects. */
  datatype File<P> = Whole(entry: Entry<P>) | Torn

  /** `disk` and `tmp` are the two file names: None, or a place in `files`. A file keeps its
      place when it is renamed, also for those who have it open. */
  datatype State<D, P> = State(files: seq<File<P>>, tmp: Option<nat>, disk: Option<nat>, memory: Option<D>)

  function Contents<D, P>(s: State<D, P>, name: Option<nat>): Option<File<P>> {
    if name.Some? && name.value < |s.files| then Some(s.files[name.value]) else None
  }

  function CacheFile<D, P>(s: State<D, P>): Option<File<P>> {
    Contents(s, s.disk)
  }

  function Written<D, P>(s: State<D, P>, n: nat, f: File<P>): State<D, P> {
    if n < |s.files| then s.(files := s.files[n := f]) else s
  }

  /** Where one `load` stands between two of its operations. */
  datatype Phase<P> =
    | Idle(returned: bool)
    | Statted(mtime: int)
    | Hit(mtime: int, payload: P)
    | Missed(mtime: int)
    | Populated(mtime: int)
    | Serialised(entry: Entry<P>)
    | Opened(entry: Entry<P>, file: nat)
    | Dumped
    | CleaningUp

  /** How an operation goes: it works, it raises OSError (or the ValueError of a bad text), it
      raises something else, or what it writes is mixed up with another writer of the file. */
  datatype Luck = Works | OsError | Raises | Mixes

  /** The next operation of a load that stands at `at`, while the source is at `source`. A
      populate that fails leaves the dataset as it was. */
  function Operation<D, P>(spec: Spec<D, P>, s: State<D, P>, source: int, at: Phase<P>, luck: Luck): (State<D, P>, Phase<P>) {
    match at
    case Idle(_) => (s, if luck.Works? then Statted(source) else Idle(false))
    case Statted(m) => (s, AfterRead(CacheFile(s), m, luck))
    case Hit(_, payload) =>
      if luck.Works? then (s.(memory := Some(spec.restore(payload))), Idle(true)) else (s, Idle(false))
    case Missed(m) =>
      if luck.Works? then (s.(memory := Some(spec.build(source))), Populated(m)) else (s, Idle(false))
    case Populated(m) =>
      (s, if luck.Works? && s.memory.Some? then Serialised(Entry(m, spec.serialize(s.memory.value))) else Idle(false))
    case Serialised(e) => Opening(s, e, luck)
    case Opened(e, n) =>
      (match luck
       case Works => (Written(s, n, Whole(e)), Dumped)
       case Mixes => (Written(s, n, Torn), Dumped)
       case OsError => (Written(s, n, Torn), CleaningUp)
       case Raises => (Written(s, n, Torn), Idle(false)))
    case Dumped =>
      if luck.Raises? then (s, Idle(false))
      else if luck.Works? && s.tmp.Some? then (s.(disk := s.tmp, tmp := None), Idle(true))
      else (s, CleaningUp)
    case CleaningUp => (if luck.Works? then s.(tmp := None) else s, Idle(!luck.Raises?))
  }

  /** `_read_cache` and the comparison of the mtimes. */
  function AfterRead<P>(file: Option<File<P>>, m: int, luck: Luck): Phase<P> {
    if luck.Raises? && file.Some? then Idle(false)
    else if luck.Works? && file.Some? && file.value.Whole? && file.value.entry.sourceMtime == m
    then Hit(m, file.value.entry.payload)
    else Missed(m)
  }

  /** `open(tmp_path, "w")` */
  function Opening<D, P>(s: State<D, P>, e: Entry<P>, luck: Luck): (State<D, P>, Phase<P>) {
    if luck.Raises? then (s, Idle(false))
    else if !luck.Works? then (s, CleaningUp)
    else if s.tmp.Some? && s.tmp.value < |s.files| then (Written(s, s.tmp.value, Torn), Opened(e, s.tmp.value))
    else (s.(files := s.files + [Torn], tmp := Some(|s.files|)), Opened(e, |s.files|))
  }

  // ---------------------------------------------------------------- interleaved runs

  datatype World<D, P> = World(source: int, state: State<D, P>, loads: seq<Phase<P>>)

  datatype Event = SourceWrite(mtime: int) | Op(k: nat, luck: Luck)

  predicate Enabled<D, P>(w: World<D, P>, e: Event) {
    match e
    case SourceWrite(m) => w.source < m
    case Op(k, _) => k < |w.loads|
  }

  function Step<D, P>(spec: Spec<D, P>, w: World<D, P>, e: Event): World<D, P>
    requires Enabled(w, e)
  {
    match e
    case SourceWrite(m) => w.(source := m)
    case Op(k, luck) =>
      var (s, at) := Operation(spec, w.state, w.source, w.loads[k], luck);
      w.(state := s, loads := w.loads[k := at])
  }

  predicate ValidRun<D, P>(spec: Spec<D, P>, w: World<D, P>, events: seq<Event>)
    decreases |events|
  {
    events == [] || (Enabled(w, events[0]) && ValidRun(spec, Step(spec, w, events[0]), events[1..]))
  }

  function Run<D, P>(spec: Spec<D, P>, w: World<D, P>, events: seq<Event>): World<D, P>
    requires ValidRun(spec, w, events)
    decreases |events|
  {
    if events == [] then w else Run(spec, Step(spec, w, events[0]), events[1..])
  }

  /** No hit on an older mtime is restored while a load stands between its populate and its
      serialise. */
  predicate Harmless<D, P>(w: World<D, P>, e: Event)
    requires Enabled(w, e)
  {
    e.Op? && e.luck.Works? && w.loads[e.k].Hit? ==>
      forall j :: 0 <= j < |w.loads| && w.loads[j].Populated? ==> w.loads[j].mtime <= w.loads[e.k].mtime
  }

  predicate HarmlessRun<D, P>(spec: Spec<D, P>, w: World<D, P>, events: seq<Event>)
    requires ValidRun(spec, w, events)
    decreases |events|
  {
    events == [] || (Harmless(w, events[0]) && HarmlessRun(spec, Step(spec, w, events[0]), events[1..]))
  }

  // ---------------------------------------------------------------- invariant

  /** The payload was serialised from a version `v` that existed by `now` and is not older than
      the mtime it is filed under. */
  ghost predicate EntryFrom<D, P>(spec: Spec<D, P>, e: Entry<P>, v: int, now: int) {
    e.sourceMtime <= v <= now && e.payload == spec.serialize(spec.build(v))
  }

  ghost predicate Fresh<D, P>(spec: Spec<D, P>, e: Entry<P>, now: int) {
    exists v :: EntryFrom(spec, e, v, now)
  }

  /** The dataset holds a version between `low` and `high`. */
  ghost predicate Holds<D, P>(spec: Spec<D, P>, s: State<D, P>, low: int, high: int) {
    exists v :: low <= v <= high && s.memory == Some(spec.build(v))
  }

  ghost predicate FilesFresh<D, P>(spec: Spec<D, P>, s: State<D, P>, now: int) {
    forall n :: 0 <= n < |s.files| && s.files[n].Whole? ==> Fresh(spec, s.files[n].entry, now)
  }

  ghost predicate PhaseOk<D, P>(spec: Spec<D, P>, s: State<D, P>, now: int, at: Phase<P>) {
    match at
    case Statted(m) => m <= now
    case Missed(m) => m <= now
    case Hit(m, payload) => Fresh(spec, Entry(m, payload), now)
    case Populated(m) => Holds(spec, s, m, now)
    case Serialised(e) => Fresh(spec, e, now)
    case Opened(e, _) => Fresh(spec, e, now)
    case _ => true
  }

  ghost predicate Inv<D, P>(spec: Spec<D, P>, w: World<D, P>) {
    && FilesFresh(spec, w.state, w.source)
    && forall k :: 0 <= k < |w.loads| ==> PhaseOk(spec, w.state, w.source, w.loads[k])
  }

  lemma FreshLater<D, P>(spec: Spec<D, P>, e: Entry<P>, now: int, later: int)
    requires Fresh(spec, e, now) && now <= later
    ensures Fresh(spec, e, later)
  {
    var v :| EntryFrom(spec, e, v, now);
    assert EntryFrom(spec, e, v, later);
  }

  lemma PhaseLater<D, P>(spec: Spec<D, P>, s: State<D, P>, now: int, later: int, at: Phase<P>)
    requires PhaseOk(spec, s, now, at) && now <= later
    ensures PhaseOk(spec, s, later, at)
  {
    match at
    case Hit(m, payload) => FreshLater(spec, Entry(m, payload), now, later);
    case Serialised(e) => FreshLater(spec, e, now, later);
    case Opened(e, _) => FreshLater(spec, e, now, later);
    case _ =>
  }

  lemma FilesLater<D, P>(spec: Spec<D, P>, s: State<D, P>, now: int, later: int)
    requires FilesFresh(spec, s, now) && now <= later
    ensures FilesFresh(spec, s, later)
  {
    forall n | 0 <= n < |s.files| && s.files[n].Whole? ensures Fresh(spec, s.files[n].entry, later) {
      FreshLater(spec, s.files[n].entry, now, later);
    }
  }

  /** An operation keeps the files fresh, and leaves its own load in order. */
  lemma OperationOk<D(!new), P(!new)>(spec: Spec<D, P>, s: State<D, P>, now: int, at: Phase<P>, luck: Luck)
    requires Lawful(spec) && FilesFresh(spec, s, now) && PhaseOk(spec, s, now, at)
    ensures var (t, next) := Operation(spec, s, now, at, luck);
      && FilesFresh(spec, t, now) && PhaseOk(spec, t, now, next)
  {
    if at.Populated? && luck.Works? {
      var v :| at.mtime <= v <= now && s.memory == Some(spec.build(v));
      assert EntryFrom(spec, Entry(at.mtime, spec.serialize(s.memory.value)), v, now);
    }
    if at.Missed? && luck.Works? {
      assert Holds(spec, Operation(spec, s, now, at, luck).0, at.mtime, now);
    }
  }

  /** It leaves every other load in order too, unless it restores an older version under one
      that has populated and not yet serialised. */
  lemma OthersOk<D(!new), P(!new)>(spec: Spec<D, P>, s: State<D, P>, now: int, at: Phase<P>, luck: Luck, other: Phase<P>)
    requires Lawful(spec) && PhaseOk(spec, s, now, at) && PhaseOk(spec, s, now, other)
    requires luck.Works? && at.Hit? && other.Populated? ==> other.mtime <= at.mtime
    ensures PhaseOk(spec, Operation(spec, s, now, at, luck).0, now, other)
  {
    if other.Populated? && luck.Works? && at.Hit? {
      var v :| EntryFrom(spec, Entry(at.mtime, at.payload), v, now);
      assert spec.restore(at.payload) == spec.build(v);
    }
  }

  lemma StepInv<D(!new), P(!new)>(spec: Spec<D, P>, w: World<D, P>, e: Event)
    requires Lawful(spec) && Inv(spec, w) && Enabled(w, e) && Harmless(w, e)
    ensures Inv(spec, Step(spec, w, e))
  {
    match e
    case SourceWrite(m) =>
      FilesLater(spec, w.state, w.source, m);
      forall k | 0 <= k < |w.loads| ensures PhaseOk(spec, w.state, m, w.loads[k]) {
        PhaseLater(spec, w.state, w.source, m, w.loads[k]);
      }
    case Op(k, luck) =>
      OperationOk(spec, w.state, w.source, w.loads[k], luck);
      forall j | 0 <= j < |w.loads| && j != k {
        OthersOk(spec, w.state, w.source, w.loads[k], luck, w.loads[j]);
      }
      hide Operation, PhaseOk, FilesFresh;
  }

  /** Any number of loads, interleaved in any way with each other and with source writes,
      whatever fails: if no older hit is restored between another load's populate and its
      serialise, every whole file holds a payload serialised from a version no older than the
      mtime it is filed under, and so does everything a load is about to file or restore. */
  lemma {:induction false} InterleavedLoadsKeepFilesFresh<D(!new), P(!new)>(spec: Spec<D, P>, w: World<D, P>, events: seq<Event>)
    requires Lawful(spec) && Inv(spec, w) && ValidRun(spec, w, events) && HarmlessRun(spec, w, events)
    ensures Inv(spec, Run(spec, w, events))
    decreases |events|
  {
    if events != [] {
      StepInv(spec, w, events[0]);
      InterleavedLoadsKeepFilesFresh(spec, Step(spec, w, events[0]), events[1..]);
    }
  }

  /** The other direction, at the step that would file it: what a populated load serialises is
      fresh if and only if the dataset still holds a version no older than its stat. */
  lemma SerialisesFreshIff<D(!new), P(!new)>(spec: Spec<D, P>, w: World<D, P>, k: nat, u: int)
    requires Lawful(spec) && k < |w.loads| && w.loads[k].Populated?
    requires w.state.memory == Some(spec.build(u))
    ensures var next := Step(spec, w, Op(k, Works)).loads[k];
      && next.Serialised? && next.entry.sourceMtime == w.loads[k].mtime
      && (Fresh(spec, next.entry, w.source) <==> Holds(spec, w.state, w.loads[k].mtime, w.source))
  {
    var m := w.loads[k].mtime;
    var e := Entry(m, spec.serialize(spec.build(u)));
    if Fresh(spec, e, w.source) {
      var v :| EntryFrom(spec, e, v, w.source);
      assert spec.build(v) == spec.restore(e.payload) == spec.build(u);
    }
    if Holds(spec, w.state, m, w.source) {
      var v :| m <= v <= w.source && w.state.memory == Some(spec.build(v));
      assert EntryFrom(spec, e, v, w.source);
    }
  }

  /** Which restores do the damage: exactly those of a version whose data no version since the
      populated load's stat has. */
  lemma RestoreHarmsIff<D(!new), P(!new)>(spec: Spec<D, P>, w: World<D, P>, k: nat, j: nat, v: int)
    requires Lawful(spec) && k < |w.loads| && w.loads[k].Hit? && j < |w.loads| && w.loads[j].Populated?
    requires EntryFrom(spec, Entry(w.loads[k].mtime, w.loads[k].payload), v, w.source)
    ensures PhaseOk(spec, Step(spec, w, Op(k, Works)).state, w.source, w.loads[j])
      <==> exists x :: w.loads[j].mtime <= x <= w.source && spec.build(x) == spec.build(v)
  {
    assert spec.restore(w.loads[k].payload) == spec.build(v);
  }

  // ---------------------------------------------------------------- exact hits

  /** A load that reads the cache file now, having seen `m`, hits the payload of version `m` or
      does not hit. */
  ghost predicate ReadsExactly<D, P>(spec: Spec<D, P>, s: State<D, P>, m: int) {
    var file := CacheFile(s);
    file.Some? && file.value.Whole? && file.value.entry.sourceMtime == m ==>
      file.value.entry.payload == spec.serialize(spec.build(m))
  }

  ghost predicate ExactPhase<D, P>(spec: Spec<D, P>, s: State<D, P>, at: Phase<P>) {
    match at
    case Statted(m) => ReadsExactly(spec, s, m)
    case Hit(m, payload) => payload == spec.serialize(spec.build(m))
    case _ => true
  }

  ghost predicate Exact<D, P>(spec: Spec<D, P>, w: World<D, P>) {
    forall k :: 0 <= k < |w.loads| ==> ExactPhase(spec, w.state, w.loads[k])
  }

  /** The whole entry that a step makes the contents of the cache file: by renaming, or by
      writing on into a file that another load has renamed already. */
  function Publishes<D, P>(w: World<D, P>, e: Event): Option<Entry<P>>
    requires Enabled(w, e)
  {
    if !e.Op? || !e.luck.Works? then None
    else
      var at := w.loads[e.k];
      if at.Opened? && w.state.disk == Some(at.file) && at.file < |w.state.files| then Some(at.entry)
      else if at.Dumped? && Contents(w.state, w.state.tmp).Some? && Contents(w.state, w.state.tmp).value.Whole?
      then Some(Contents(w.state, w.state.tmp).value.entry)
      else None
  }

  /** It is filed under the very mtime that another load has just seen, and is of another
      version. */
  ghost predicate Misleads<D, P>(spec: Spec<D, P>, w: World<D, P>, e: Event)
    requires Enabled(w, e)
  {
    Publishes(w, e).Some? &&
      exists j :: 0 <= j < |w.loads| && j != e.k && MisledBy(spec, w.loads[j], Publishes(w, e).value)
  }

  predicate MisledBy<D(==), P(==)>(spec: Spec<D, P>, at: Phase<P>, entry: Entry<P>) {
    at.Statted? && entry.sourceMtime == at.mtime && entry.payload != spec.serialize(spec.build(at.mtime))
  }

  lemma OperationExact<D(!new), P(!new)>(spec: Spec<D, P>, s: State<D, P>, now: int, at: Phase<P>, luck: Luck)
    requires FilesFresh(spec, s, now) && ExactPhase(spec, s, at)
    ensures var (t, next) := Operation(spec, s, now, at, luck); ExactPhase(spec, t, next)
  {
    if at.Idle? && CacheFile(s).Some? && CacheFile(s).value.Whole? && CacheFile(s).value.entry.sourceMtime == now {
      var v :| EntryFrom(spec, CacheFile(s).value.entry, v, now);
      assert v == now;
    }
  }

  /** What an operation leaves in the cache file: what it publishes, or what was there, or
      nothing that can be hit. */
  lemma CacheFileAfter<D, P>(spec: Spec<D, P>, w: World<D, P>, e: Event)
    requires Enabled(w, e) && e.Op?
    ensures var file, published := CacheFile(Step(spec, w, e).state), Publishes(w, e);
      if published.Some? then file == Some(Whole(published.value))
      else file == CacheFile(w.state) || file.None? || file.value.Torn?
  {
  }

  /** At the step: the loads stay exact if and only if the step does not mislead one. */
  lemma StaysExactIff<D(!new), P(!new)>(spec: Spec<D, P>, w: World<D, P>, e: Event)
    requires Inv(spec, w) && Exact(spec, w) && Enabled(w, e)
    ensures Exact(spec, Step(spec, w, e)) <==> !Misleads(spec, w, e)
  {
    if e.Op? {
      OperationExact(spec, w.state, w.source, w.loads[e.k], e.luck);
      CacheFileAfter(spec, w, e);
      var v := Step(spec, w, e);
      assert ExactPhase(spec, v.state, v.loads[e.k]);
      assert forall j :: 0 <= j < |w.loads| && j != e.k ==> v.loads[j] == w.loads[j];
      hide Operation, Inv, Publishes;
      forall j | 0 <= j < |w.loads| && j != e.k
        ensures ExactPhase(spec, v.state, v.loads[j])
          <==> !(Publishes(w, e).Some? && MisledBy(spec, w.loads[j], Publishes(w, e).value))
      {
        assert ExactPhase(spec, w.state, w.loads[j]);
      }
      hide Step, ExactPhase, MisledBy;
    }
  }

  /** And at the read: a load that hits holds exactly the version it saw if and only if it
      stood exact. */
  lemma HitsExactlyIff<D, P>(spec: Spec<D, P>, w: World<D, P>, k: nat)
    requires k < |w.loads| && w.loads[k].Statted? && Step(spec, w, Op(k, Works)).loads[k].Hit?
    ensures var hit := Step(spec, w, Op(k, Works)).loads[k];
      hit.mtime == w.loads[k].mtime
      && (hit.payload == spec.serialize(spec.build(hit.mtime)) <==> ExactPhase(spec, w.state, w.loads[k]))
  {
  }

  ghost predicate NeverMisleads<D, P>(spec: Spec<D, P>, w: World<D, P>, events: seq<Event>)
    requires ValidRun(spec, w, events)
    decreases |events|
  {
    events == [] || (!Misleads(spec, w, events[0]) && NeverMisleads(spec, Step(spec, w, events[0]), events[1..]))
  }

  lemma {:induction false} RunExact<D(!new), P(!new)>(spec: Spec<D, P>, w: World<D, P>, events: seq<Event>)
    requires Lawful(spec) && Inv(spec, w) && Exact(spec, w)
    requires ValidRun(spec, w, events) && HarmlessRun(spec, w, events) && NeverMisleads(spec, w, events)
    ensures Exact(spec, Run(spec, w, events))
    decreases |events|
  {
    if events != [] {
      StepInv(spec, w, events[0]);
      StaysExactIff(spec, w, events[0]);
      RunExact(spec, Step(spec, w, events[0]), events[1..]);
    }
  }

  /** After such a run, if no entry of another version was published under the mtime that
      another load had just seen, every hit populates what rebuilding from the very version it
      saw would. */
  lemma InterleavedHitsAreExact<D(!new), P(!new)>(spec: Spec<D, P>, w: World<D, P>, events: seq<Event>, k: nat)
    requires Lawful(spec) && Inv(spec, w) && Exact(spec, w)
    requires ValidRun(spec, w, events) && HarmlessRun(spec, w, events) && NeverMisleads(spec, w, events)
    requires k < |Run(spec, w, events).loads| && Run(spec, w, events).loads[k].Hit?
    ensures var v := Run(spec, w, events);
      Step(spec, v, Op(k, Works)).state.memory == Some(spec.build(v.loads[k].mtime))
  {
    RunExact(spec, w, events);
  }

  // ---------------------------------------------------------------- loads that follow one another

  /** One load at a time never meets either condition. */
  lemma {:induction false} OneLoadIsHarmless<D, P>(spec: Spec<D, P>, w: World<D, P>, events: seq<Event>)
    requires |w.loads| == 1 && ValidRun(spec, w, events)
    ensures HarmlessRun(spec, w, events) && NeverMisleads(spec, w, events) && |Run(spec, w, events).loads| == 1
    decreases |events|
  {
    if events != [] {
      OneLoadIsHarmless(spec, Step(spec, w, events[0]), events[1..]);
    }
  }

  /** Loads that follow one another, with source writes between and within them and any
      failures: the cache file is never older than the mtime it is filed under. */
  lemma CacheIsNeverAhead<D(!new), P(!new)>(spec: Spec<D, P>, w: World<D, P>, events: seq<Event>)
    requires Lawful(spec) && |w.loads| == 1 && Inv(spec, w) && ValidRun(spec, w, events)
    ensures var v := Run(spec, w, events);
      var cache := Contents(v.state, v.state.disk);
      cache.Some? && cache.value.Whole? ==> Fresh(spec, cache.value.entry, v.source)
  {
    OneLoadIsHarmless(spec, w, events);
    InterleavedLoadsKeepFilesFresh(spec, w, events);
  }

  /** And a hit populates exactly what rebuilding from the observed version would. */
  lemma HitAgreesWithSource<D(!new), P(!new)>(spec: Spec<D, P>, w: World<D, P>, events: seq<Event>)
    requires Lawful(spec) && |w.loads| == 1 && w.loads[0].Idle? && Inv(spec, w) && ValidRun(spec, w, events)
    ensures var v := Run(spec, w, events);
      |v.loads| == 1 && (v.loads[0].Hit? ==>
        Step(spec, v, Op(0, Works)).state.memory == Some(spec.build(v.loads[0].mtime)))
  {
    OneLoadIsHarmless(spec, w, events);
    if Run(spec, w, events).loads[0].Hit? {
      InterleavedHitsAreExact(spec, w, events, 0);
    }
  }

  // ---------------------------------------------------------------- the condition is needed

  /** Two loads. One has hit the entry of version 1 when the source moves on; the other builds
      version 2; the first restores version 1; the second serialises what it finds. */
  function OverlappingRun(): seq<Event> {
    [Op(0, Works), Op(0, Works), SourceWrite(2), Op(1, Works), Op(1, Works), Op(1, Works), Op(0, Works),
     Op(1, Works), Op(1, Works), Op(1, Works), Op(1, Works)]
  }

  function OverlapStart<D, P>(spec: Spec<D, P>): World<D, P> {
    World(1, State([Whole(Entry(1, spec.serialize(spec.build(1))))], None, Some(0), Some(spec.build(1))),
          [Idle(true), Idle(true)])
  }

  function OverlapEnd<D, P>(spec: Spec<D, P>): World<D, P> {
    var first := Entry(1, spec.serialize(spec.build(1)));
    World(2, State([Whole(first), Whole(Entry(2, first.payload))], None, Some(1), Some(spec.build(1))),
          [Idle(true), Idle(true)])
  }

  /** Stepping from world to world is a run. */
  lemma {:induction false} Follows<D, P>(spec: Spec<D, P>, worlds: seq<World<D, P>>, events: seq<Event>)
    requires |worlds| == |events| + 1
    requires forall i :: 0 <= i < |events| ==> Enabled(worlds[i], events[i]) && worlds[i + 1] == Step(spec, worlds[i], events[i])
    ensures ValidRun(spec, worlds[0], events) && Run(spec, worlds[0], events) == worlds[|events|]
    ensures (forall i :: 0 <= i < |events| ==> Harmless(worlds[i], events[i])) ==> HarmlessRun(spec, worlds[0], events)
    decreases |events|
  {
    hide Step, Enabled, Harmless;
    if events != [] {
      forall i | 0 <= i < |events[1..]|
        ensures Enabled(worlds[1..][i], events[1..][i])
        ensures worlds[1..][i + 1] == Step(spec, worlds[1..][i], events[1..][i])
      {
        assert worlds[1..][i] == worlds[i + 1] && events[1..][i] == events[i + 1];
        assert worlds[1..][i + 1] == worlds[i + 2];
      }
      Follows(spec, worlds[1..], events[1..]);
    }
  }

  /** The worlds of that run. */
  function OverlappingWorlds<D, P>(spec: Spec<D, P>): seq<World<D, P>> {
    var old1 := Entry(1, spec.serialize(spec.build(1)));
    var bad2 := Entry(2, old1.payload);
    var one, two := Some(spec.build(1)), Some(spec.build(2));
    var files := [Whole(old1)];
    var start := State(files, None, Some(0), one);
    var hit := Hit(1, old1.payload);
    [ World(1, start, [Idle(true), Idle(true)]),
      World(1, start, [Statted(1), Idle(true)]),
      World(1, start, [hit, Idle(true)]),
      World(2, start, [hit, Idle(true)]),
      World(2, start, [hit, Statted(2)]),
      World(2, start, [hit, Missed(2)]),
      World(2, State(files, None, Some(0), two), [hit, Populated(2)]),
      World(2, start, [Idle(true), Populated(2)]),
      World(2, start, [Idle(true), Serialised(bad2)]),
      World(2, State(files + [Torn], Some(1), Some(0), one), [Idle(true), Opened(bad2, 1)]),
      World(2, State(files + [Whole(bad2)], Some(1), Some(0), one), [Idle(true), Dumped]),
      OverlapEnd(spec) ]
  }

  lemma OverlapStepsOut<D(!new), P(!new)>(spec: Spec<D, P>, i: nat)
    requires Lawful(spec) && i < |OverlappingRun()|
    ensures |OverlappingWorlds(spec)| == 12 && |OverlappingRun()| == 11
    ensures var ws, es := OverlappingWorlds(spec), OverlappingRun();
      Enabled(ws[i], es[i]) && ws[i + 1] == Step(spec, ws[i], es[i])
  {
  }

  /** Overlapping loads can file version 1 under mtime 2, and later loads then restore version
      1: a run from a world in order that ends out of order. */
  lemma OverlapFilesStaleVersion<D(!new), P(!new)>(spec: Spec<D, P>)
    requires Lawful(spec) && spec.build(1) != spec.build(2)
    ensures Inv(spec, OverlapStart(spec))
    ensures ValidRun(spec, OverlapStart(spec), OverlappingRun())
    ensures Run(spec, OverlapStart(spec), OverlappingRun()) == OverlapEnd(spec)
    ensures !Inv(spec, OverlapEnd(spec)) && !HarmlessRun(spec, OverlapStart(spec), OverlappingRun())
    ensures var (s1, p1) := Operation(spec, OverlapEnd(spec).state, 2, Idle(true), Works);
      var (s2, p2) := Operation(spec, s1, 2, p1, Works);
      p2.Hit? && Operation(spec, s2, 2, p2, Works).0.memory == Some(spec.build(1))
  {
    OverlapRuns(spec);
    OverlapIsOutOfOrder(spec);
    EndRestoresOldVersion(spec);
    hide Operation, OverlapEnd, OverlapStart, OverlappingRun, Step, Enabled, Harmless;
    if HarmlessRun(spec, OverlapStart(spec), OverlappingRun()) {
      InterleavedLoadsKeepFilesFresh(spec, OverlapStart(spec), OverlappingRun());
    }
  }

  lemma EndRestoresOldVersion<D(!new), P(!new)>(spec: Spec<D, P>)
    requires Lawful(spec)
    ensures var (s1, p1) := Operation(spec, OverlapEnd(spec).state, 2, Idle(true), Works);
      var (s2, p2) := Operation(spec, s1, 2, p1, Works);
      p2.Hit? && Operation(spec, s2, 2, p2, Works).0.memory == Some(spec.build(1))
  {
  }

  lemma OverlapRuns<D(!new), P(!new)>(spec: Spec<D, P>)
    requires Lawful(spec)
    ensures ValidRun(spec, OverlapStart(spec), OverlappingRun())
    ensures Run(spec, OverlapStart(spec), OverlappingRun()) == OverlapEnd(spec)
  {
    var worlds, events := OverlappingWorlds(spec), OverlappingRun();
    assert |events| == 11 && |worlds| == 12 && worlds[0] == OverlapStart(spec) && worlds[11] == OverlapEnd(spec);
    hide OverlappingWorlds, OverlappingRun, Step, Enabled, OverlapStart, OverlapEnd;
    forall i | 0 <= i < |events| ensures Enabled(worlds[i], events[i]) && worlds[i + 1] == Step(spec, worlds[i], events[i]) {
      OverlapStepsOut(spec, i);
    }
    Follows(spec, worlds, events);
  }

  lemma OverlapIsOutOfOrder<D(!new), P(!new)>(spec: Spec<D, P>)
    requires Lawful(spec) && spec.build(1) != spec.build(2)
    ensures Inv(spec, OverlapStart(spec)) && !Inv(spec, OverlapEnd(spec))
  {
    assert EntryFrom(spec, Entry(1, spec.serialize(spec.build(1))), 1, 1);
    assert OverlapEnd(spec).state.files[1] == Whole(Entry(2, spec.serialize(spec.build(1))));
  }

  // ---------------------------------------------------------------- an inexact hit

  /** Two loads race on a cold cache. Both see mtime 1; the source moves on; one builds version
      2 and files it under the mtime it saw; the other hits that and restores version 2. */
  function RacingRun(): seq<Event> {
    [Op(0, Works), Op(1, Works), SourceWrite(2), Op(1, Works), Op(1, Works), Op(1, Works), Op(1, Works),
     Op(1, Works), Op(1, Works), Op(0, Works), Op(0, Works)]
  }

  function RacingWorlds<D, P>(spec: Spec<D, P>): seq<World<D, P>> {
    var one, two := Some(spec.build(1)), Some(spec.build(2));
    var entry := Entry(1, spec.serialize(spec.build(2)));
    var cold := State([], None, None, one);
    var filed := State([Whole(entry)], None, Some(0), two);
    [ World(1, cold, [Idle(true), Idle(true)]),
      World(1, cold, [Statted(1), Idle(true)]),
      World(1, cold, [Statted(1), Statted(1)]),
      World(2, cold, [Statted(1), Statted(1)]),
      World(2, cold, [Statted(1), Missed(1)]),
      World(2, cold.(memory := two), [Statted(1), Populated(1)]),
      World(2, cold.(memory := two), [Statted(1), Serialised(entry)]),
      World(2, State([Torn], Some(0), None, two), [Statted(1), Opened(entry, 0)]),
      World(2, State([Whole(entry)], Some(0), None, two), [Statted(1), Dumped]),
      World(2, filed, [Statted(1), Idle(true)]),
      World(2, filed, [Hit(1, entry.payload), Idle(true)]),
      World(2, filed, [Idle(true), Idle(true)]) ]
  }

  lemma RaceStepsOut<D(!new), P(!new)>(spec: Spec<D, P>, i: nat)
    requires Lawful(spec) && i < |RacingRun()|
    ensures |RacingWorlds(spec)| == 12 && |RacingRun()| == 11
    ensures var ws, es := RacingWorlds(spec), RacingRun();
      Enabled(ws[i], es[i]) && ws[i + 1] == Step(spec, ws[i], es[i]) && Harmless(ws[i], es[i])
  {
  }

  /** No step of that run is harmful, and it starts in order and exact; yet a load that saw
      version 1 hits, and populates version 2. */
  lemma RacingHitIsInexact<D(!new), P(!new)>(spec: Spec<D, P>)
    requires Lawful(spec) && spec.build(1) != spec.build(2)
    ensures var worlds, events := RacingWorlds(spec), RacingRun();
      && |worlds| == 12 && Inv(spec, worlds[0]) && Exact(spec, worlds[0])
      && ValidRun(spec, worlds[0], events) && HarmlessRun(spec, worlds[0], events)
      && Run(spec, worlds[0], events) == worlds[11]
      && worlds[10].loads[0] == Hit(1, spec.serialize(spec.build(2)))
      && worlds[11].state.memory == Some(spec.build(2)) != Some(spec.build(1))
  {
    var worlds, events := RacingWorlds(spec), RacingRun();
    assert |events| == 11 && |worlds| == 12;
    assert worlds[10].loads[0] == Hit(1, spec.serialize(spec.build(2))) && worlds[11].state.memory == Some(spec.build(2));
    assert Inv(spec, worlds[0]) && Exact(spec, worlds[0]);
    hide RacingWorlds, RacingRun, Step, Enabled, Harmless, Inv, Exact;
    forall i | 0 <= i < |events|
      ensures Enabled(worlds[i], events[i]) && worlds[i + 1] == Step(spec, worlds[i], events[i])
      ensures Harmless(worlds[i], events[i])
    {
      RaceStepsOut(spec, i);
    }
    Follows(spec, worlds, events);
  }
}
