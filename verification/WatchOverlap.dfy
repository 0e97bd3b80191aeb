/** The watch loop while other threads call `load()` as well. */
module WatchOverlap {
  import opened CacheLoads
  import opened Prelude

  /** Load 0 is the watch loop's own. `target` is the mtime that made it reload, while it does. */
  datatype Watcher<D, P> = Watcher(world: World<D, P>, last: int, target: Option<int>)

  datatype WatchEvent =
    | Elsewhere(e: Event)
    | PollSource
    | ReloadOp(luck: Luck)

  predicate CanHappen<D, P>(w: Watcher<D, P>, e: WatchEvent) {
    && w.world.loads != []
    && match e
       case Elsewhere(event) => Enabled(w.world, event) && (event.Op? ==> event.k != 0)
       case PollSource => w.target.None?
       case ReloadOp(_) => w.target.Some?
  }

  /** A poll that sees a newer mtime starts a reload; a reload that returns moves `last_mtime`. */
  function Next<D, P>(spec: Spec<D, P>, w: Watcher<D, P>, e: WatchEvent): Watcher<D, P>
    requires CanHappen(w, e)
  {
    match e
    case Elsewhere(event) => w.(world := Step(spec, w.world, event))
    case PollSource => if w.world.source <= w.last then w else w.(target := Some(w.world.source))
    case ReloadOp(luck) =>
      var world := Step(spec, w.world, Op(0, luck));
      match world.loads[0]
      case Idle(returned) => Watcher(world, if returned then w.target.value else w.last, None)
      case _ => w.(world := world)
  }

  /** The watch loop's load has populated. */
  predicate PastPopulate<P>(at: Phase<P>) {
    at.Populated? || at.Serialised? || at.Opened? || at.Dumped? || at.CleaningUp?
  }

  /** The mtime below which the dataset must not fall. */
  function Bar<D, P>(w: Watcher<D, P>): int
    requires w.world.loads != []
  {
    if w.target.Some? && PastPopulate(w.world.loads[0]) then w.target.value else w.last
  }

  /** No hit on an mtime below the bar is restored, nor under a load that has populated. */
  predicate RestoreOk<D, P>(w: Watcher<D, P>, e: Event)
    requires w.world.loads != [] && Enabled(w.world, e)
  {
    && Harmless(w.world, e)
    && (e.Op? && e.luck.Works? && w.world.loads[e.k].Hit? ==> Bar(w) <= w.world.loads[e.k].mtime)
  }

  predicate KeepsUp<D, P>(w: Watcher<D, P>, e: WatchEvent)
    requires CanHappen(w, e)
  {
    match e
    case Elsewhere(event) => RestoreOk(w, event)
    case PollSource => true
    case ReloadOp(luck) => RestoreOk(w, Op(0, luck))
  }

  // ---------------------------------------------------------------- invariant

  ghost predicate Current<D, P>(spec: Spec<D, P>, w: Watcher<D, P>) {
    && Inv(spec, w.world) && w.world.loads != []
    && Holds(spec, w.world.state, Bar(w), w.world.source)
    && (w.target.None? ==> w.world.loads[0].Idle?)
    && (w.target.Some? ==>
          && w.last < w.target.value <= w.world.source
          && match w.world.loads[0]
             case Statted(m) => w.target.value <= m
             case Hit(m, _) => w.target.value <= m
             case Missed(m) => w.target.value <= m
             case _ => true)
  }

  /** What one operation does to the dataset. */
  lemma MemoryAfter<D(!new), P(!new)>(spec: Spec<D, P>, w: World<D, P>, e: Event, bar: int)
    requires Lawful(spec) && Inv(spec, w) && Enabled(w, e) && e.Op?
    requires Holds(spec, w.state, bar, w.source) && bar <= w.source
    requires e.luck.Works? && w.loads[e.k].Hit? ==> bar <= w.loads[e.k].mtime
    ensures Holds(spec, Step(spec, w, e).state, bar, w.source)
  {
    var at := w.loads[e.k];
    assert PhaseOk(spec, w.state, w.source, at);
    if at.Hit? && e.luck.Works? {
      var v :| EntryFrom(spec, Entry(at.mtime, at.payload), v, w.source);
      assert spec.restore(at.payload) == spec.build(v);
    }
  }

  lemma HoldsLater<D, P>(spec: Spec<D, P>, s: State<D, P>, low: int, now: int, later: int)
    requires Holds(spec, s, low, now) && now <= later
    ensures Holds(spec, s, low, later)
  {
  }

  lemma ElsewhereKeepsUp<D(!new), P(!new)>(spec: Spec<D, P>, w: Watcher<D, P>, e: WatchEvent)
    requires Lawful(spec) && Current(spec, w) && CanHappen(w, e) && KeepsUp(w, e) && e.Elsewhere?
    ensures Current(spec, Next(spec, w, e))
  {
    assert Harmless(w.world, e.e);
    StepInv(spec, w.world, e.e);
    if e.e.Op? {
      MemoryAfter(spec, w.world, e.e, Bar(w));
    } else {
      HoldsLater(spec, w.world.state, Bar(w), w.world.source, e.e.mtime);
    }
    hide Inv, Operation, Holds, Harmless;
  }

  /** What its own operation makes of the dataset and the mtime: a populate reaches the target. */
  lemma OwnOperation<D(!new), P(!new)>(spec: Spec<D, P>, w: Watcher<D, P>, luck: Luck)
    requires Lawful(spec) && Current(spec, w) && w.target.Some? && KeepsUp(w, ReloadOp(luck))
    ensures var (s, next) := Operation(spec, w.world.state, w.world.source, w.world.loads[0], luck);
      && (PastPopulate(next) || next == Idle(true) ==> Holds(spec, s, w.target.value, w.world.source))
      && Holds(spec, s, w.last, w.world.source)
      && match next
         case Statted(m) => w.target.value <= m
         case Hit(m, _) => w.target.value <= m
         case Missed(m) => w.target.value <= m
         case _ => true
  {
    var at := w.world.loads[0];
    assert PhaseOk(spec, w.world.state, w.world.source, at);
    if at.Hit? && luck.Works? {
      var v :| EntryFrom(spec, Entry(at.mtime, at.payload), v, w.world.source);
      assert spec.restore(at.payload) == spec.build(v);
    }
    hide Inv, FilesFresh;
  }

  lemma ReloadKeepsUp<D(!new), P(!new)>(spec: Spec<D, P>, w: Watcher<D, P>, luck: Luck)
    requires Lawful(spec) && Current(spec, w) && w.target.Some? && KeepsUp(w, ReloadOp(luck))
    ensures Current(spec, Next(spec, w, ReloadOp(luck)))
  {
    StepInv(spec, w.world, Op(0, luck));
    OwnOperation(spec, w, luck);
    hide Inv, Operation, Holds, KeepsUp;
  }

  ghost predicate ValidWatch<D, P>(spec: Spec<D, P>, w: Watcher<D, P>, events: seq<WatchEvent>)
    decreases |events|
  {
    events == [] || (CanHappen(w, events[0]) && KeepsUp(w, events[0]) && ValidWatch(spec, Next(spec, w, events[0]), events[1..]))
  }

  function WatchRun<D, P>(spec: Spec<D, P>, w: Watcher<D, P>, events: seq<WatchEvent>): Watcher<D, P>
    requires ValidWatch(spec, w, events)
    decreases |events|
  {
    if events == [] then w else WatchRun(spec, Next(spec, w, events[0]), events[1..])
  }

  /** Any number of other loads, interleaved operation by operation with the watch loop and with
      source writes, whatever fails: if no hit on an mtime below the bar is restored, the dataset
      is at least as new as `last_mtime` all the time, and as the mtime being reloaded from the
      moment its load has populated. */
  lemma {:induction false} WatchKeepsUp<D(!new), P(!new)>(spec: Spec<D, P>, w: Watcher<D, P>, events: seq<WatchEvent>)
    requires Lawful(spec) && Current(spec, w) && ValidWatch(spec, w, events)
    ensures var v := WatchRun(spec, w, events);
      Current(spec, v) && Holds(spec, v.world.state, v.last, v.world.source)
    decreases |events|
  {
    if events == [] {
      var u :| Bar(w) <= u <= w.world.source && w.world.state.memory == Some(spec.build(u));
      assert w.last <= Bar(w) <= u;
    } else {
      match events[0] {
        case Elsewhere(_) => ElsewhereKeepsUp(spec, w, events[0]);
        case PollSource =>
        case ReloadOp(luck) => ReloadKeepsUp(spec, w, luck);
      }
      WatchKeepsUp(spec, Next(spec, w, events[0]), events[1..]);
    }
  }

  /** A restore leaves the dataset at the bar if and only if some version since the bar has the
      data it restores. */
  lemma RestoreKeepsUpIff<D(!new), P(!new)>(spec: Spec<D, P>, w: Watcher<D, P>, k: nat, v: int)
    requires Lawful(spec) && w.world.loads != [] && k < |w.world.loads| && w.world.loads[k].Hit?
    requires EntryFrom(spec, Entry(w.world.loads[k].mtime, w.world.loads[k].payload), v, w.world.source)
    ensures Holds(spec, Step(spec, w.world, Op(k, Works)).state, Bar(w), w.world.source)
      <==> exists x :: Bar(w) <= x <= w.world.source && spec.build(x) == spec.build(v)
  {
    assert spec.restore(w.world.loads[k].payload) == spec.build(v);
  }
}
