/**
 * The whole path of a meter record: the delivery protocol, with each handler attempt split into its separate
 * store writes, next to operators replaying quarantined records and rebuilds writing the same cache. Any write
 * may take effect without its caller learning of it, and anything may happen between two writes.
 */
module EndToEnd {
  import opened Common
  import opened Domain
  import opened Telemetry
  import opened History
  import opened Projection
  import opened MeterHandler
  import D = Delivery
  import W = Worker

  /** How far the attempt a worker is running has come. */
  datatype Progress = Decoded(r: MeterReading) | Stored(r: MeterReading) | Acked(r: MeterReading)

  /** What never changes: the meter topic, what each record on it decodes to (if anything), and the policy. */
  datatype Setup = Setup(lim: W.Limits, topic: string, log: D.Record -> Option<MeterReading>, policy: CachePolicy)

  datatype State = State(
    d: D.State, tables: Tables, latest: Latest, progress: map<nat, Progress>,
    replaying: set<MeterReading>,        // stored by an operator's replay, not yet projected
    restoring: set<MeterProjection>,     // read by a rebuild, not yet written
    cacheLost: bool)

  datatype Action =
    | Deliver(a: D.Action)
    | Decode(id: nat)                              // decoding, key check and admission all passed
    | Store(id: nat, lost: bool)                   // the history transaction; its reply may be lost
    | Publish(id: nat, lost: bool)                 // the compare-and-set; its reply may be lost
    | Absorb(id: nat)                              // Redis failed and the policy does without
    | ReplayStore(rec: D.Record)
    | ReplayPublish(r: MeterReading)
    | RebuildRead(k: ReadingKey, assets: seq<StorageAsset>)   // the row; its assets are read by later statements
    | RebuildWrite(p: MeterProjection)
    | LoseCache

  const INIT := State(D.INIT, EMPTY, map[], map[], {}, {}, false)

  predicate Running(c: Setup, e: State, id: nat) {
    id in e.d.workers && e.d.workers[id].phase.Handling? && e.d.workers[id].tp.topic == c.topic
  }

  ghost predicate Enabled(c: Setup, e: State, a: Action) {
    match a
    case Deliver(d) =>
      && D.Enabled(c.lim, e.d, d)
      && (d.Work? && d.st.HandlerOk? && Running(c, e, d.id) ==> d.id in e.progress && e.progress[d.id].Acked?)
    case Decode(id) => Running(c, e, id) && id !in e.progress && c.log(D.At(e.d.workers[id])).Some?
    case Store(id, _) => Running(c, e, id) && id in e.progress && e.progress[id].Decoded?
    case Publish(id, _) => Running(c, e, id) && id in e.progress && e.progress[id].Stored?
    case Absorb(id) => Running(c, e, id) && id in e.progress && e.progress[id].Stored? && c.policy == AsyncRepair
    case ReplayStore(rec) => rec.0.topic == c.topic && D.Quarantined(e.d.rows, rec) && c.log(rec).Some?
    case ReplayPublish(r) => r in e.replaying
    case RebuildRead(k, _) => k in e.tables.readings
    case RebuildWrite(p) => p in e.restoring
    case LoseCache => true
  }

  /** An attempt's progress ends with the attempt. */
  function ProgressAfter(e: State, d: D.Action): map<nat, Progress> {
    if d.Work? && (d.st.HandlerOk? || d.st.HandlerRetry? || d.st.HandlerFail? || d.st.HandlerInterrupted?
                   || d.st.NoHandler?
                   || d.st.BeginRecord? || d.st.Panic?)
    then e.progress - {d.id} else e.progress
  }

  ghost function Apply(c: Setup, e: State, a: Action): State
    requires Enabled(c, e, a)
  {
    match a
    case Deliver(d) => e.(d := D.Apply(c.lim, e.d, d), progress := ProgressAfter(e, d))
    case Decode(id) => e.(progress := e.progress[id := Decoded(c.log(D.At(e.d.workers[id])).value)])
    case Store(id, lost) =>
      var r := e.progress[id].r;
      var (t, outcome) := Insert(e.tables, r);
      var stored := outcome in {Inserted, Replay} && !lost;
      e.(tables := t, progress := if stored then e.progress[id := Stored(r)] else e.progress)
    case Publish(id, lost) =>
      var r := e.progress[id].r;
      e.(latest := SetIfNewer(e.latest, Project(r)).0,
         progress := if lost then e.progress else e.progress[id := Acked(r)])
    case Absorb(id) => e.(progress := e.progress[id := Acked(e.progress[id].r)])
    case ReplayStore(rec) =>
      var (t, outcome) := Insert(e.tables, c.log(rec).value);
      e.(tables := t,
         replaying := if outcome in {Inserted, Replay} then e.replaying + {c.log(rec).value} else e.replaying)
    case ReplayPublish(r) => e.(latest := SetIfNewer(e.latest, Project(r)).0)
    case RebuildRead(k, assets) => e.(restoring := e.restoring + {Project(LoadReading(e.tables, k)).(assets := assets)})
    case RebuildWrite(p) => e.(latest := SetIfNewer(e.latest, p).0)
    case LoseCache => e.(latest := map[], cacheLost := true)
  }

  /** A handler goes on only from an answered write; the write itself takes effect either way. */
  lemma AnswersCount(c: Setup, e: State, id: nat, lost: bool)
    ensures Enabled(c, e, Store(id, lost)) ==>
              var e' := Apply(c, e, Store(id, lost));
              && e'.tables == Insert(e.tables, e.progress[id].r).0
              && (e'.progress[id].Stored? <==> !lost && Insert(e.tables, e.progress[id].r).1 in {Inserted, Replay})
    ensures Enabled(c, e, Publish(id, lost)) ==>
              var e' := Apply(c, e, Publish(id, lost));
              && e'.latest == SetIfNewer(e.latest, Project(e.progress[id].r)).0
              && (e'.progress[id].Acked? <==> !lost)
  {}

  // ---------------------------------------------------------------------------------------
  // What holds in every reachable state

  /** The identity, millisecond, seq and power values of p stand in a stored row. */
  ghost predicate BackedBy(t: Tables, p: MeterProjection, k: ReadingKey) {
    && k in t.readings && UnixMilli(k.time) == p.ms && k.seqNo == p.seqNo && k.meterId == p.meterId
    && var row := t.readings[k];
       && row.gridId == p.gridId && row.houseId == p.houseId && row.deviceClass == p.deviceClass
       && row.solarKw == p.solarKw && row.consumptionKw == p.consumptionKw && row.netKw == p.netKw
  }

  ghost predicate Backed(t: Tables, p: MeterProjection) {
    exists k :: BackedBy(t, p, k)
  }

  lemma BackedStays(t: Tables, t': Tables, p: MeterProjection)
    requires Extends(t, t') && Backed(t, p)
    ensures Backed(t', p)
  {
    var k :| BackedBy(t, p, k);
    assert BackedBy(t', p, k);
  }

  lemma DurableIsBacked(t: Tables, r: MeterReading)
    requires InHistory(t, r)
    ensures Backed(t, Project(r))
  {
    TruncationKeepsMillis(r.eventTime);
    assert BackedBy(t, Project(r), KeyOf(r));
  }

  lemma LoadedIsBacked(t: Tables, k: ReadingKey, assets: seq<StorageAsset>)
    requires k in t.readings
    ensures Backed(t, Project(LoadReading(t, k)).(assets := assets))
  {
    assert BackedBy(t, Project(LoadReading(t, k)).(assets := assets), k);
  }

  /** What an acknowledged reading is promised. */
  ghost predicate Kept(c: Setup, e: State, r: MeterReading) {
    InHistory(e.tables, r) && (c.policy == Required && !e.cacheLost ==> HoldsAtLeast(e.latest, Project(r)))
  }

  ghost predicate AttemptOk(c: Setup, e: State, id: nat)
    requires id in e.progress
  {
    var g := e.progress[id];
    Running(c, e, id) ==>
      && c.log(D.At(e.d.workers[id])) == Some(g.r)
      && (g.Stored? ==> InHistory(e.tables, g.r))
      && (g.Acked? ==> Kept(c, e, g.r))
  }

  ghost predicate RecordKept(c: Setup, e: State, rec: D.Record) {
    rec.0.topic == c.topic ==> c.log(rec).Some? && Kept(c, e, c.log(rec).value)
  }

  ghost predicate AttemptsOk(c: Setup, e: State) {
    forall id <- e.progress :: AttemptOk(c, e, id)
  }

  ghost predicate SucceededKept(c: Setup, e: State) {
    forall rec <- e.d.succeeded :: RecordKept(c, e, rec)
  }

  /** Redis is never ahead of history. */
  ghost predicate NeverAhead(t: Tables, m: Latest) {
    forall k <- m :: m[k].Entry? && Backed(t, m[k].p)
  }

  ghost predicate OthersOk(e: State) {
    && (forall r <- e.replaying :: InHistory(e.tables, r))
    && (forall p <- e.restoring :: Backed(e.tables, p))
  }

  ghost predicate Inv(c: Setup, e: State) {
    && D.Inv(c.lim, e.d) && Keyed(e.tables) && AttemptsOk(c, e)
    && SucceededKept(c, e) && NeverAhead(e.tables, e.latest) && OthersOk(e)
  }

  /** History only grew, and the cache only moved forward (or was lost). */
  ghost predicate Grew(e: State, e': State) {
    && Extends(e.tables, e'.tables)
    && (e.cacheLost ==> e'.cacheLost)
    && (e'.cacheLost || NeverBack(e.latest, e'.latest))
  }

  lemma SucceededStay(c: Setup, e: State, e': State)
    requires Grew(e, e') && SucceededKept(c, e) && e'.d.succeeded == e.d.succeeded
    ensures SucceededKept(c, e')
  {}

  lemma AttemptStays(c: Setup, e: State, e': State, id: nat)
    requires Grew(e, e') && id in e.progress && AttemptOk(c, e, id) && id in e'.progress
             && e'.progress[id] == e.progress[id]
    requires Running(c, e', id) ==> Running(c, e, id) && D.At(e'.d.workers[id]) == D.At(e.d.workers[id])
    ensures AttemptOk(c, e', id)
  {}

  lemma OthersStay(e: State, e': State)
    requires Grew(e, e') && OthersOk(e) && e'.replaying == e.replaying && e'.restoring == e.restoring
    ensures OthersOk(e')
  {
    forall r <- e'.replaying ensures InHistory(e'.tables, r) { InHistoryStable(e.tables, e'.tables, r); }
    forall p <- e'.restoring ensures Backed(e'.tables, p) { BackedStays(e.tables, e'.tables, p); }
  }

  lemma AheadStays(t: Tables, t': Tables, m: Latest)
    requires Extends(t, t') && NeverAhead(t, m)
    ensures NeverAhead(t', m)
  {
    forall k <- m ensures m[k].Entry? && Backed(t', m[k].p) { BackedStays(t, t', m[k].p); }
  }

  lemma SetKeepsAhead(t: Tables, m: Latest, p: MeterProjection)
    requires NeverAhead(t, m) && Backed(t, p)
    ensures NeverAhead(t, SetIfNewer(m, p).0)
  {
  }

  // ---------------------------------------------------------------------------------------
  // Every action keeps it

  /** A delivery step on another worker, or one that does not end the attempt, leaves an attempt where it is. */
  lemma AttemptUndisturbed(c: Setup, e: State, d: D.Action, id: nat)
    requires D.Enabled(c.lim, e.d, d) && id in ProgressAfter(e, d)
    requires Running(c, e.(d := D.Apply(c.lim, e.d, d)), id)
    ensures Running(c, e, id) && D.At(D.Apply(c.lim, e.d, d).workers[id]) == D.At(e.d.workers[id])
  {
  }

  /** Only a handler's success adds to the records that succeeded, and then just the one it was handling. */
  lemma SuccessIsHandled(c: Setup, e: State, d: D.Action, rec: D.Record)
    requires Enabled(c, e, Deliver(d)) && rec in D.Apply(c.lim, e.d, d).succeeded && rec !in e.d.succeeded
    requires rec.0.topic == c.topic
    ensures d.Work? && Running(c, e, d.id) && d.id in e.progress && e.progress[d.id].Acked?
            && rec == D.At(e.d.workers[d.id])
  {
  }

  lemma DeliverKeeps(c: Setup, e: State, d: D.Action)
    requires Inv(c, e) && Enabled(c, e, Deliver(d))
    ensures Inv(c, Apply(c, e, Deliver(d))) && Grew(e, Apply(c, e, Deliver(d)))
  {
    var e' := Apply(c, e, Deliver(d));
    D.ActionKeeps(c.lim, e.d, d);
    D.ActionAdvances(c.lim, e.d, d);
    forall id <- e'.progress ensures AttemptOk(c, e', id) {
      assert AttemptOk(c, e, id);
      if Running(c, e', id) { AttemptUndisturbed(c, e, d, id); AttemptStays(c, e, e', id); }
    }
    forall rec <- e'.d.succeeded ensures RecordKept(c, e', rec) {
      if rec in e.d.succeeded {
        assert RecordKept(c, e, rec);
      } else if rec.0.topic == c.topic {
        SuccessIsHandled(c, e, d, rec);
        assert AttemptOk(c, e, d.id);
      }
    }
    OthersStay(e, e');
  }

  /** An action of the stores: the delivery state stands still, and at most one attempt moves on. */
  lemma StoresKeep(c: Setup, e: State, e': State, moved: Option<nat>)
    requires Inv(c, e) && Grew(e, e') && e'.d == e.d
    requires forall id <- e'.progress :: Some(id) != moved ==> id in e.progress && e'.progress[id] == e.progress[id]
    requires moved.Some? && moved.value in e'.progress ==> AttemptOk(c, e', moved.value)
    ensures AttemptsOk(c, e') && SucceededKept(c, e')
  {
    forall id <- e'.progress ensures AttemptOk(c, e', id) {
      if Some(id) != moved {
        assert AttemptOk(c, e, id);
        AttemptStays(c, e, e', id);
      }
    }
    SucceededStay(c, e, e');
  }

  lemma StoreKeeps(c: Setup, e: State, id: nat, lost: bool)
    requires Inv(c, e) && Enabled(c, e, Store(id, lost))
    ensures Inv(c, Apply(c, e, Store(id, lost))) && Grew(e, Apply(c, e, Store(id, lost)))
  {
    var e' := Apply(c, e, Store(id, lost));
    var r := e.progress[id].r;
    assert AttemptOk(c, e, id);
    InsertExtends(e.tables, r);
    if Insert(e.tables, r).1 in {Inserted, Replay} { AcceptedInHistory(e.tables, r); }
    StoresKeep(c, e, e', Some(id));
    AheadStays(e.tables, e'.tables, e.latest);
    OthersStay(e, e');
  }

  lemma PublishKeeps(c: Setup, e: State, id: nat, lost: bool)
    requires Inv(c, e) && Enabled(c, e, Publish(id, lost))
    ensures Inv(c, Apply(c, e, Publish(id, lost))) && Grew(e, Apply(c, e, Publish(id, lost)))
  {
    var e' := Apply(c, e, Publish(id, lost));
    var r := e.progress[id].r;
    assert AttemptOk(c, e, id);
    SetHolds(e.latest, Project(r), Project(r));
    StoresKeep(c, e, e', Some(id));
    DurableIsBacked(e.tables, r);
    SetKeepsAhead(e.tables, e.latest, Project(r));
    OthersStay(e, e');
  }

  lemma AttemptKeeps(c: Setup, e: State, a: Action)
    requires Inv(c, e) && Enabled(c, e, a) && (a.Decode? || a.Absorb?)
    ensures Inv(c, Apply(c, e, a)) && Grew(e, Apply(c, e, a))
  {
    var e' := Apply(c, e, a);
    if a.Absorb? { assert AttemptOk(c, e, a.id); }
    StoresKeep(c, e, e', Some(a.id));
    OthersStay(e, e');
  }

  lemma ReplayStoreKeeps(c: Setup, e: State, rec: D.Record)
    requires Inv(c, e) && Enabled(c, e, ReplayStore(rec))
    ensures Inv(c, Apply(c, e, ReplayStore(rec))) && Grew(e, Apply(c, e, ReplayStore(rec)))
  {
    var e' := Apply(c, e, ReplayStore(rec));
    var r := c.log(rec).value;
    InsertExtends(e.tables, r);
    if Insert(e.tables, r).1 in {Inserted, Replay} { AcceptedInHistory(e.tables, r); }
    StoresKeep(c, e, e', None);
    AheadStays(e.tables, e'.tables, e.latest);
    OthersStay(e, e'.(replaying := e.replaying));
  }

  /** Whoever writes a backed projection, through the compare-and-set, keeps everything. */
  lemma WriteKeeps(c: Setup, e: State, p: MeterProjection)
    requires Inv(c, e) && Backed(e.tables, p)
    ensures var e' := e.(latest := SetIfNewer(e.latest, p).0); Inv(c, e') && Grew(e, e')
  {
    var e' := e.(latest := SetIfNewer(e.latest, p).0);
    SetHolds(e.latest, p, p);
    StoresKeep(c, e, e', None);
    SetKeepsAhead(e.tables, e.latest, p);
    OthersStay(e, e');
  }

  lemma RebuildReadKeeps(c: Setup, e: State, k: ReadingKey, assets: seq<StorageAsset>)
    requires Inv(c, e) && Enabled(c, e, RebuildRead(k, assets))
    ensures Inv(c, Apply(c, e, RebuildRead(k, assets))) && Grew(e, Apply(c, e, RebuildRead(k, assets)))
  {
    var e' := Apply(c, e, RebuildRead(k, assets));
    LoadedIsBacked(e.tables, k, assets);
    StoresKeep(c, e, e', None);
  }

  lemma LoseCacheKeeps(c: Setup, e: State)
    requires Inv(c, e)
    ensures Inv(c, Apply(c, e, LoseCache)) && Grew(e, Apply(c, e, LoseCache))
  {}

  lemma ActionKeeps(c: Setup, e: State, a: Action)
    requires Inv(c, e) && Enabled(c, e, a)
    ensures Inv(c, Apply(c, e, a)) && Grew(e, Apply(c, e, a))
  {
    match a {
      case Deliver(d) => DeliverKeeps(c, e, d);
      case Decode(_) => AttemptKeeps(c, e, a);
      case Store(id, lost) => StoreKeeps(c, e, id, lost);
      case Publish(id, lost) => PublishKeeps(c, e, id, lost);
      case Absorb(_) => AttemptKeeps(c, e, a);
      case ReplayStore(rec) => ReplayStoreKeeps(c, e, rec);
      case ReplayPublish(r) => DurableIsBacked(e.tables, r); WriteKeeps(c, e, Project(r));
      case RebuildRead(k, assets) => RebuildReadKeeps(c, e, k, assets);
      case RebuildWrite(p) => WriteKeeps(c, e, p);
      case LoseCache => LoseCacheKeeps(c, e);
    }
  }

  // ---------------------------------------------------------------------------------------
  // Whole runs

  ghost predicate ValidRun(c: Setup, e: State, acts: seq<Action>)
    decreases |acts|
  {
    acts == [] || (Enabled(c, e, acts[0]) && ValidRun(c, Apply(c, e, acts[0]), acts[1..]))
  }

  ghost function Run(c: Setup, e: State, acts: seq<Action>): State
    requires ValidRun(c, e, acts)
    decreases |acts|
  {
    if acts == [] then e else Run(c, Apply(c, e, acts[0]), acts[1..])
  }

  lemma {:induction false} RunKeeps(c: Setup, e: State, acts: seq<Action>)
    requires Inv(c, e) && ValidRun(c, e, acts)
    ensures Inv(c, Run(c, e, acts))
    decreases |acts|
  {
    if acts != [] {
      ActionKeeps(c, e, acts[0]);
      RunKeeps(c, Apply(c, e, acts[0]), acts[1..]);
    }
  }

  lemma {:induction false} CacheSurvives(c: Setup, e: State, acts: seq<Action>)
    requires ValidRun(c, e, acts) && LoseCache !in acts
    ensures Run(c, e, acts).cacheLost == e.cacheLost
    decreases |acts|
  {
    if acts != [] {
      assert acts[0] in acts;
      CacheSurvives(c, Apply(c, e, acts[0]), acts[1..]);
    }
  }

  lemma InitOk(c: Setup)
    ensures Inv(c, INIT)
  {}

  /** In any state that keeps the invariant a committed meter record is quarantined or kept. */
  lemma CommittedInState(c: Setup, e: State, rec: D.Record)
    requires Inv(c, e) && rec.0.topic == c.topic && rec.1 < D.Committed(e.d, rec.0)
    ensures D.Quarantined(e.d.rows, rec) || (c.log(rec).Some? && Kept(c, e, c.log(rec).value))
  {
    assert D.Covered(e.d, rec.0, e.d.committed[rec.0]);
    assert D.Done(e.d, (rec.0, rec.1));
    if rec in e.d.succeeded { assert RecordKept(c, e, rec); }
  }

  /**
   * Every committed meter record has a failure row at its coordinates, or its exact reading stands in history
   * and, when the policy requires the cache and Redis kept its data, the house's latest entry is at
   * least as new. Under the other policy only the Redis half is given up.
   */
  lemma CommittedIsKept(c: Setup, acts: seq<Action>, rec: D.Record)
    requires ValidRun(c, INIT, acts) && rec.0.topic == c.topic
    requires rec.1 < D.Committed(Run(c, INIT, acts).d, rec.0)
    ensures var e := Run(c, INIT, acts);
            || D.Quarantined(e.d.rows, rec)
            || (c.log(rec).Some? && InHistory(e.tables, c.log(rec).value)
                && (c.policy == Required && LoseCache !in acts ==> HoldsAtLeast(e.latest, Project(c.log(rec).value))))
  {
    InitOk(c);
    RunKeeps(c, INIT, acts);
    if LoseCache !in acts { CacheSurvives(c, INIT, acts); }
    CommittedInState(c, Run(c, INIT, acts), rec);
  }

  /**
   * The same in the true order: a committed record within 2^53 and without a failure row is not newer than its
   * house's entry.
   */
  lemma CommittedIsCurrent(c: Setup, acts: seq<Action>, rec: D.Record)
    requires ValidRun(c, INIT, acts) && rec.0.topic == c.topic && c.policy == Required && LoseCache !in acts
    requires rec.1 < D.Committed(Run(c, INIT, acts).d, rec.0) && !D.Quarantined(Run(c, INIT, acts).d.rows, rec)
    ensures c.log(rec).Some?
    ensures var p, m := Project(c.log(rec).value), Run(c, INIT, acts).latest;
            0 <= p.ms <= LuaNumber.EXACT && 0 <= p.seqNo <= LuaNumber.EXACT ==>
              Key(p) in m && m[Key(p)].Entry? && !Newer(p, m[Key(p)].p)
  {
    CommittedIsKept(c, acts, rec);
    var p, m := Project(c.log(rec).value), Run(c, INIT, acts).latest;
    if 0 <= p.ms <= LuaNumber.EXACT && 0 <= p.seqNo <= LuaNumber.EXACT { AtLeastTrue(m[Key(p)].p, p); }
  }

  /** In every reachable state each cached entry's identity, time, seq and powers come from a durable row. */
  lemma CacheNeverAhead(c: Setup, acts: seq<Action>, key: string)
    requires ValidRun(c, INIT, acts) && key in Run(c, INIT, acts).latest
    ensures Run(c, INIT, acts).latest[key].Entry? && Backed(Run(c, INIT, acts).tables, Run(c, INIT, acts).latest[key].p)
  {
    InitOk(c);
    RunKeeps(c, INIT, acts);
  }

  // ---------------------------------------------------------------------------------------
  // What "required" does not promise

  ghost predicate Reachable(c: Setup, e: State) {
    exists acts :: ValidRun(c, INIT, acts) && LoseCache !in acts && Run(c, INIT, acts) == e
  }

  lemma {:induction false} RunAppend(c: Setup, e: State, acts: seq<Action>, a: Action)
    requires ValidRun(c, e, acts) && Enabled(c, Run(c, e, acts), a)
    ensures ValidRun(c, e, acts + [a]) && Run(c, e, acts + [a]) == Apply(c, Run(c, e, acts), a)
    decreases |acts|
  {
    if acts == [] {
      assert acts + [a] == [a] && [a][1..] == [];
      assert ValidRun(c, Apply(c, e, a), []);
    } else {
      RunAppend(c, Apply(c, e, acts[0]), acts[1..], a);
      assert (acts + [a])[1..] == acts[1..] + [a];
    }
  }

  lemma ReachNext(c: Setup, e: State, a: Action)
    requires Reachable(c, e) && Enabled(c, e, a) && a != LoseCache
    ensures Reachable(c, Apply(c, e, a))
  {
    var acts :| ValidRun(c, INIT, acts) && LoseCache !in acts && Run(c, INIT, acts) == e;
    RunAppend(c, INIT, acts, a);
    assert LoseCache !in acts + [a];
  }

  /** Worker 0 of process 0, with the cache still empty. */
  ghost predicate Scene(c: Setup, e: State, w: W.Worker, slots: int) {
    && Reachable(c, e) && 0 in e.d.workers && e.d.workers[0] == w && w.proc == 0 && 0 !in e.d.dead
    && D.Slots(e.d, 0) == slots && e.latest == map[]
  }

  lemma WorkerStep(c: Setup, e: State, w: W.Worker, slots: int, st: W.Step) returns (e': State)
    requires Scene(c, e, w, slots) && W.Enabled(c.lim, w, st) && !st.HandlerOk?
    requires st.AcquireSlot? ==> slots < c.lim.slots
    ensures Scene(c, e', W.Apply(c.lim, w, st), slots + D.SlotChange(w, st))
    ensures e'.tables == e.tables && e'.progress == ProgressAfter(e, D.Work(0, st))
    ensures e'.d.rows == e.d.rows + D.RowsOf(w, st) && e.d.requests <= e'.d.requests
    ensures st.SendCommit? ==> D.At(w) in e'.d.requests
  {
    var a := Deliver(D.Work(0, st));
    ReachNext(c, e, a);
    e' := Apply(c, e, a);
  }

  lemma SceneOpens(c: Setup, tp: W.TopicPartition) returns (e: State)
    ensures Scene(c, e, W.Fresh(tp, 0, 0), 0) && e.progress == map[] && e.tables == EMPTY
  {
    assert ValidRun(c, INIT, []) && Run(c, INIT, []) == INIT;
    var a := Deliver(D.Assign(0, 0, tp));
    ReachNext(c, INIT, a);
    e := Apply(c, INIT, a);
  }

  lemma RecordArrives(c: Setup, tp: W.TopicPartition) returns (e: State, w: W.Worker)
    requires c.lim.slots > 0 && c.lim.queueDepth > 0
    ensures Scene(c, e, w, 0) && w.tp == tp && w.phase == W.AwaitSlot(0, 1) && !W.Stopped(w) && !w.sig.retryCancelled
            && !w.sig.abandoned
    ensures e.progress == map[] && e.tables == EMPTY
  {
    e := SceneOpens(c, tp);
    w := W.Fresh(tp, 0, 0);
    e := WorkerStep(c, e, w, 0, W.Offer(1));
    w := W.Apply(c.lim, w, W.Offer(1));
    e := WorkerStep(c, e, w, 0, W.Accept);
    w := W.Apply(c.lim, w, W.Accept);
    e := WorkerStep(c, e, w, 0, W.TakeBatch);
    w := W.Apply(c.lim, w, W.TakeBatch);
  }

  lemma RecordStored(c: Setup, tp: W.TopicPartition, r: MeterReading) returns (e: State, w: W.Worker)
    requires c.lim.slots > 0 && c.lim.queueDepth > 0 && tp.topic == c.topic && c.log((tp, 0)) == Some(r)
             && DistinctIds(r.assets)
    ensures Scene(c, e, w, 1) && w.tp == tp && w.phase == W.Handling(0, 0, 1, 1)
    ensures !W.Stopped(w) && !w.sig.retryCancelled && !w.sig.abandoned
    ensures InHistory(e.tables, r)
  {
    e, w := RecordArrives(c, tp);
    e := WorkerStep(c, e, w, 0, W.AcquireSlot);
    w := W.Apply(c.lim, w, W.AcquireSlot);
    e := WorkerStep(c, e, w, 1, W.BeginRecord);
    w := W.Apply(c.lim, w, W.BeginRecord);
    ReachNext(c, e, Decode(0));
    e := Apply(c, e, Decode(0));
    AddAssetsExact(EMPTY.assets, r, r.assets);
    AcceptedInHistory(EMPTY, r);
    ReachNext(c, e, Store(0, false));
    e := Apply(c, e, Store(0, false));
  }

  lemma RecordQuarantined(c: Setup, tp: W.TopicPartition, r: MeterReading) returns (e: State, w: W.Worker)
    requires c.lim.slots > 0 && c.lim.queueDepth > 0 && tp.topic == c.topic && c.log((tp, 0)) == Some(r)
             && DistinctIds(r.assets)
    ensures Scene(c, e, w, 1) && w.tp == tp && w.phase == W.InBatch(0, 1, 1) && !w.sig.abandoned
    ensures InHistory(e.tables, r) && D.Coordinates((tp, 0), D.F.RedisWrite) in e.d.rows
  {
    e, w := RecordStored(c, tp, r);
    e := WorkerStep(c, e, w, 1, W.HandlerFail(D.F.RedisWrite));
    w := W.Apply(c.lim, w, W.HandlerFail(D.F.RedisWrite));
    e := WorkerStep(c, e, w, 1, W.RecordOk);
    w := W.Apply(c.lim, w, W.RecordOk);
  }

  lemma CommitRequested(c: Setup, e0: State, w0: W.Worker) returns (e: State)
    requires Scene(c, e0, w0, 1) && w0.phase == W.InBatch(0, 1, 1) && !w0.sig.abandoned
    ensures Reachable(c, e) && e.latest == map[] && (w0.tp, 1) in e.d.requests && e.tables == e0.tables
            && e0.d.rows <= e.d.rows
  {
    e := WorkerStep(c, e0, w0, 1, W.EndBatch);
    e := WorkerStep(c, e, W.Apply(c.lim, w0, W.EndBatch), 1, W.SendCommit);
  }

  /**
   * A record can be acknowledged under "required" with Redis never having seen it: once its retries are spent it
   * is quarantined at the Redis stage and committed like any other failure. By CommittedIsKept this can
   * only happen to records with a failure row.
   */
  lemma RequiredCommitsWithoutCache(c: Setup, tp: W.TopicPartition, r: MeterReading) returns (e: State)
    requires c.policy == Required && c.lim.slots > 0 && c.lim.queueDepth > 0
    requires tp.topic == c.topic && c.log((tp, 0)) == Some(r) && DistinctIds(r.assets)
    ensures Reachable(c, e) && D.Committed(e.d, tp) == 1 && InHistory(e.tables, r)
    ensures !HoldsAtLeast(e.latest, Project(r)) && D.Coordinates((tp, 0), D.F.RedisWrite) in e.d.rows
  {
    var w;
    e, w := RecordQuarantined(c, tp, r);
    e := CommitRequested(c, e, w);
    var a := Deliver(D.BrokerCommit(tp, 1));
    ReachNext(c, e, a);
    e := Apply(c, e, a);
  }
}
