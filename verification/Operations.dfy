/**
 * The failure table beside the running service: workers quarantine records into it while operators replay or
 * discard its rows. A replay runs the meter handler, which always requires the cache, on the stored payload; only
 * when every step of it has been acknowledged may the row be marked replayed.
 */
module Operations {
  import opened Common
  import opened Domain
  import opened Telemetry
  import opened History
  import opened Projection
  import opened MeterHandler
  import opened E = EndToEnd
  import F = Failures

  /** The service, what each record's payload is, and what a payload decodes to. */
  datatype Plant = Plant(c: E.Setup, payload: F.Source -> string, decode: string -> Option<MeterReading>)

  function SourceOf(rec: D.Record): F.Source {
    F.Source(rec.0.topic, rec.0.partition, rec.1)
  }

  function RecordOf(source: F.Source): D.Record {
    (W.TopicPartition(source.topic, source.partition), source.offset)
  }

  /** Workers and operators decode the same payloads. */
  ghost predicate Consistent(pl: Plant) {
    forall rec: D.Record :: pl.c.log(rec) == pl.decode(pl.payload(SourceOf(rec)))
  }

  /** `replays` is how far the handler has come in each operator's session. */
  datatype World = World(e: E.State, f: F.State, replays: map<nat, Progress>)

  datatype Move =
    | Serve(a: E.Action, reason: string, attempts: int)
    | Operate(op: F.Action)
    | HandleDecode(x: nat)
    | HandleStore(x: nat, lost: bool)
    | HandlePublish(x: nat, lost: bool)

  const START := World(E.INIT, F.INIT, map[])

  /** The failure row a step of the service writes, if any. */
  function RowWritten(e: E.State, a: E.Action): Option<F.Coordinates> {
    if a.Deliver? && a.a.Work? && a.a.id in e.d.workers && D.RowsOf(e.d.workers[a.a.id], a.a.st) != {}
       && e.d.workers[a.a.id].phase.Recording?
    then Some(D.Coordinates(D.At(e.d.workers[a.a.id]), e.d.workers[a.a.id].phase.stage))
    else None
  }

  function FailureAt(pl: Plant, at: F.Coordinates, reason: string, attempts: int): F.Failure {
    F.Failure(at, pl.payload(at.source), reason, attempts)
  }

  /** A session on a meter record whose callback has not returned yet. */
  predicate Replaying(pl: Plant, s: World, x: nat) {
    x in s.f.sessions && s.f.sessions[x].verdict.None? && s.f.sessions[x].read.at.source.topic == pl.c.topic
  }

  function ReplayRecord(s: World, x: nat): D.Record
    requires x in s.f.sessions
  {
    RecordOf(s.f.sessions[x].read.at.source)
  }

  ghost predicate Enabled(pl: Plant, s: World, m: Move) {
    match m
    case Serve(a, reason, attempts) =>
      && !a.ReplayStore? && !a.ReplayPublish? && E.Enabled(pl.c, s.e, a)
      && var row := RowWritten(s.e, a);
         row.Some? ==> F.Enabled(s.f, F.Record(FailureAt(pl, row.value, reason, attempts)), pl.payload)
    case Operate(a) =>
      && !a.Record? && F.Enabled(s.f, a, pl.payload)
      && (a.Handle? && a.verdict == F.Accepted && Replaying(pl, s, a.session) ==>
          a.session in s.replays && s.replays[a.session].Acked?)
    case HandleDecode(x) => Replaying(pl, s, x) && x !in s.replays && pl.decode(s.f.sessions[x].read.payload).Some?
    case HandleStore(x, _) =>
      Replaying(pl, s, x) && x in s.replays && s.replays[x].Decoded?
        && E.Enabled(pl.c, s.e, E.ReplayStore(ReplayRecord(s, x)))
    case HandlePublish(x, _) =>
      Replaying(pl, s, x) && x in s.replays && s.replays[x].Stored?
        && E.Enabled(pl.c, s.e, E.ReplayPublish(s.replays[x].r))
  }

  ghost function Apply(pl: Plant, s: World, m: Move): World
    requires Enabled(pl, s, m)
  {
    match m
    case Serve(a, reason, attempts) =>
      var row := RowWritten(s.e, a);
      s.(e := E.Apply(pl.c, s.e, a),
         f := if row.Some? then F.Apply(s.f, F.Record(FailureAt(pl, row.value, reason, attempts)), pl.payload) else s.f)
    case Operate(a) =>
      s.(f := F.Apply(s.f, a, pl.payload), replays := if a.Handle? then s.replays else s.replays - {a.session})
    case HandleDecode(x) => s.(replays := s.replays[x := Decoded(pl.decode(s.f.sessions[x].read.payload).value)])
    case HandleStore(x, lost) =>
      var r := s.replays[x].r;
      var e' := E.Apply(pl.c, s.e, E.ReplayStore(ReplayRecord(s, x)));
      var stored := Insert(s.e.tables, r).1 in {Inserted, Replay} && !lost;
      s.(e := e', replays := if stored then s.replays[x := Stored(r)] else s.replays)
    case HandlePublish(x, lost) =>
      var r := s.replays[x].r;
      s.(e := E.Apply(pl.c, s.e, E.ReplayPublish(r)), replays := if lost then s.replays else s.replays[x := Acked(r)])
  }

  // ---------------------------------------------------------------------------------------
  // What holds throughout

  /** Durable and, unless Redis lost its data, projected: what a replay guarantees under either policy. */
  ghost predicate Restored(e: E.State, r: MeterReading) {
    InHistory(e.tables, r) && (!e.cacheLost ==> HoldsAtLeast(e.latest, Project(r)))
  }

  ghost predicate ReplayOk(pl: Plant, s: World, x: nat)
    requires x in s.replays
  {
    var g := s.replays[x];
    Replaying(pl, s, x) ==>
      && pl.decode(s.f.sessions[x].read.payload) == Some(g.r)
      && (g.Stored? ==> InHistory(s.e.tables, g.r) && g.r in s.e.replaying)
      && (g.Acked? ==> Restored(s.e, g.r))
  }

  ghost predicate ReplaysOk(pl: Plant, s: World) {
    forall x <- s.replays :: ReplayOk(pl, s, x)
  }

  ghost predicate PayloadRestored(pl: Plant, e: E.State, source: F.Source, payload: string) {
    source.topic == pl.c.topic ==> pl.decode(payload).Some? && Restored(e, pl.decode(payload).value)
  }

  ghost predicate AcceptedRestored(pl: Plant, s: World) {
    forall a <- s.f.accepted :: PayloadRestored(pl, s.e, a.0, a.1)
  }

  ghost predicate Stands(rows: F.Rows, at: F.Coordinates) {
    exists id :: F.RowFor(rows, at, id)
  }

  /** The rows the workers count on are the rows of the table. */
  ghost predicate Linked(s: World) {
    && (forall at <- s.e.d.rows :: Stands(s.f.rows, at))
    && (forall id <- s.f.rows :: s.f.rows[id].at in s.e.d.rows)
  }

  ghost predicate Inv(pl: Plant, s: World) {
    && E.Inv(pl.c, s.e) && F.Inv(s.f, pl.payload) && Linked(s)
    && ReplaysOk(pl, s) && AcceptedRestored(pl, s)
  }

  lemma RestoredStays(e: E.State, e': E.State, r: MeterReading)
    requires Grew(e, e') && Restored(e, r)
    ensures Restored(e', r)
  {
    InHistoryStable(e.tables, e'.tables, r);
  }

  /** Readings an operator stored stay on the books. */
  lemma ReplayingStays(c: E.Setup, e: E.State, a: E.Action)
    requires E.Enabled(c, e, a)
    ensures e.replaying <= E.Apply(c, e, a).replaying
    ensures a.ReplayStore? && Insert(e.tables, c.log(a.rec).value).1 in {Inserted, Replay} ==>
              c.log(a.rec).value in E.Apply(c, e, a).replaying
  {}

  lemma AcceptedStay(pl: Plant, s: World, s': World)
    requires AcceptedRestored(pl, s) && Grew(s.e, s'.e) && s'.f.accepted == s.f.accepted
    ensures AcceptedRestored(pl, s')
  {
    forall a <- s'.f.accepted ensures PayloadRestored(pl, s'.e, a.0, a.1) {
      assert PayloadRestored(pl, s.e, a.0, a.1);
      if a.0.topic == pl.c.topic { RestoredStays(s.e, s'.e, pl.decode(a.1).value); }
    }
  }

  lemma ReplayStays(pl: Plant, s: World, s': World, x: nat)
    requires x in s.replays && ReplayOk(pl, s, x) && x in s'.replays && s'.replays[x] == s.replays[x]
    requires Grew(s.e, s'.e) && s.e.replaying <= s'.e.replaying
    requires Replaying(pl, s', x) ==> x in s.f.sessions && s'.f.sessions[x] == s.f.sessions[x]
    ensures ReplayOk(pl, s', x)
  {
    var g := s.replays[x];
    if Replaying(pl, s', x) && g.Stored? { InHistoryStable(s.e.tables, s'.e.tables, g.r); }
    if Replaying(pl, s', x) && g.Acked? { RestoredStays(s.e, s'.e, g.r); }
  }

  lemma RowsOfService(pl: Plant, s: World, a: E.Action)
    requires E.Enabled(pl.c, s.e, a)
    ensures var row := RowWritten(s.e, a);
            E.Apply(pl.c, s.e, a).d.rows == s.e.d.rows + if row.Some? then {row.value} else {}
  {}

  lemma UpsertStands(f: F.State, x: F.Failure)
    ensures Stands(F.Upsert(f, x).rows, x.at)
    ensures forall id <- F.Upsert(f, x).rows ::
              F.Upsert(f, x).rows[id].at == x.at || (id in f.rows && F.Upsert(f, x).rows[id].at == f.rows[id].at)
    ensures F.Upsert(f, x).sessions == f.sessions && F.Upsert(f, x).accepted == f.accepted
  {
    var g := F.Upsert(f, x);
    if exists id :: F.RowFor(f.rows, x.at, id) {
      var id :| F.RowFor(f.rows, x.at, id)
        && g == f.(rows := f.rows[id := F.Updated(f.rows[id], x)], nextId := f.nextId + 1);
      assert F.RowFor(g.rows, x.at, id);
    } else {
      assert F.RowFor(g.rows, x.at, f.nextId);
    }
  }

  lemma StandsStay(f: F.State, f': F.State, at: F.Coordinates)
    requires F.Kept(f, f') && Stands(f.rows, at)
    ensures Stands(f'.rows, at)
  {
    var id :| F.RowFor(f.rows, at, id);
    assert F.RowFor(f'.rows, at, id);
  }

  lemma ServeKeepsLink(pl: Plant, s: World, a: E.Action, reason: string, attempts: int)
    requires F.Inv(s.f, pl.payload) && Linked(s) && Enabled(pl, s, Serve(a, reason, attempts))
    ensures var s' := Apply(pl, s, Serve(a, reason, attempts));
            Linked(s') && F.Inv(s'.f, pl.payload) && s'.f.sessions == s.f.sessions && s'.f.accepted == s.f.accepted
  {
    var s' := Apply(pl, s, Serve(a, reason, attempts));
    var row := RowWritten(s.e, a);
    RowsOfService(pl, s, a);
    if row.Some? {
      var x := FailureAt(pl, row.value, reason, attempts);
      F.RecordKeeps(s.f, x, pl.payload);
      UpsertStands(s.f, x);
      forall at <- s'.e.d.rows ensures Stands(s'.f.rows, at) {
        if at in s.e.d.rows { StandsStay(s.f, s'.f, at); }
      }
    }
  }

  lemma ServeKeeps(pl: Plant, s: World, a: E.Action, reason: string, attempts: int)
    requires Inv(pl, s) && Enabled(pl, s, Serve(a, reason, attempts))
    ensures Inv(pl, Apply(pl, s, Serve(a, reason, attempts)))
  {
    var s' := Apply(pl, s, Serve(a, reason, attempts));
    E.ActionKeeps(pl.c, s.e, a);
    ReplayingStays(pl.c, s.e, a);
    ServeKeepsLink(pl, s, a, reason, attempts);
    forall x <- s'.replays ensures ReplayOk(pl, s', x) {
      assert ReplayOk(pl, s, x);
      ReplayStays(pl, s, s', x);
    }
    AcceptedStay(pl, s, s');
  }

  lemma OperateKeepsLink(pl: Plant, s: World, a: F.Action)
    requires F.Inv(s.f, pl.payload) && Linked(s) && Enabled(pl, s, Operate(a))
    ensures var s' := Apply(pl, s, Operate(a)); Linked(s') && F.Inv(s'.f, pl.payload)
  {
    var s' := Apply(pl, s, Operate(a));
    F.StepKeeps(s.f, a, pl.payload);
    forall at <- s'.e.d.rows ensures Stands(s'.f.rows, at) { StandsStay(s.f, s'.f, at); }
    forall id <- s'.f.rows ensures id in s.f.rows && s'.f.rows[id].at == s.f.rows[id].at { }
  }

  lemma OperateKeeps(pl: Plant, s: World, a: F.Action)
    requires Inv(pl, s) && Enabled(pl, s, Operate(a))
    ensures Inv(pl, Apply(pl, s, Operate(a)))
  {
    var s' := Apply(pl, s, Operate(a));
    OperateKeepsLink(pl, s, a);
    forall x <- s'.replays ensures ReplayOk(pl, s', x) {
      assert ReplayOk(pl, s, x);
      ReplayStays(pl, s, s', x);
    }
    OperateAccepts(pl, s, a);
  }

  /** A handler's acceptance is only ever recorded for a payload whose reading is restored. */
  lemma OperateAccepts(pl: Plant, s: World, a: F.Action)
    requires ReplaysOk(pl, s) && AcceptedRestored(pl, s) && Enabled(pl, s, Operate(a))
    ensures AcceptedRestored(pl, Apply(pl, s, Operate(a)))
  {
    var s' := Apply(pl, s, Operate(a));
    forall q <- s'.f.accepted ensures PayloadRestored(pl, s'.e, q.0, q.1) {
      if q in s.f.accepted {
        assert PayloadRestored(pl, s.e, q.0, q.1);
      } else if q.0.topic == pl.c.topic {
        assert a.Handle? && Replaying(pl, s, a.session) && ReplayOk(pl, s, a.session);
      }
    }
  }

  lemma SessionRecord(pl: Plant, s: World, x: nat)
    requires Consistent(pl) && Inv(pl, s) && Replaying(pl, s, x)
    ensures var read := s.f.sessions[x].read; pl.c.log(RecordOf(read.at.source)) == pl.decode(read.payload)
  {
    assert F.SessionOk(s.f, x);
    var row := s.f.sessions[x].row;
    assert F.RowOk(s.f, row, pl.payload);
    assert SourceOf(RecordOf(s.f.sessions[x].read.at.source)) == s.f.sessions[x].read.at.source;
  }

  /** A step of a replay: the table stands still, history and cache grow, and at most this session moves on. */
  lemma ReplayKeeps(pl: Plant, s: World, s': World, x: nat)
    requires Inv(pl, s) && E.Inv(pl.c, s'.e) && Grew(s.e, s'.e) && s.e.replaying <= s'.e.replaying
    requires s'.f == s.f && s'.e.d == s.e.d && (x in s'.replays ==> ReplayOk(pl, s', x))
    requires forall y <- s'.replays :: y != x ==> y in s.replays && s'.replays[y] == s.replays[y]
    ensures Inv(pl, s')
  {
    forall y <- s'.replays ensures ReplayOk(pl, s', y) {
      if y != x {
        assert ReplayOk(pl, s, y);
        ReplayStays(pl, s, s', y);
      }
    }
    AcceptedStay(pl, s, s');
  }

  lemma ReplayStoreKeeps(pl: Plant, s: World, x: nat, lost: bool)
    requires Consistent(pl) && Inv(pl, s) && Enabled(pl, s, HandleStore(x, lost))
    ensures Inv(pl, Apply(pl, s, HandleStore(x, lost)))
  {
    var s' := Apply(pl, s, HandleStore(x, lost));
    var r, a := s.replays[x].r, E.ReplayStore(ReplayRecord(s, x));
    assert ReplayOk(pl, s, x);
    SessionRecord(pl, s, x);
    assert pl.c.log(a.rec) == Some(r);
    E.ActionKeeps(pl.c, s.e, a);
    ReplayingStays(pl.c, s.e, a);
    if Insert(s.e.tables, r).1 in {Inserted, Replay} { AcceptedInHistory(s.e.tables, r); }
    ReplayKeeps(pl, s, s', x);
  }

  lemma ReplayPublishKeeps(pl: Plant, s: World, x: nat, lost: bool)
    requires Inv(pl, s) && Enabled(pl, s, HandlePublish(x, lost))
    ensures Inv(pl, Apply(pl, s, HandlePublish(x, lost)))
  {
    var s' := Apply(pl, s, HandlePublish(x, lost));
    var r := s.replays[x].r;
    assert ReplayOk(pl, s, x);
    E.ActionKeeps(pl.c, s.e, E.ReplayPublish(r));
    ReplayingStays(pl.c, s.e, E.ReplayPublish(r));
    SetHolds(s.e.latest, Project(r), Project(r));
    ReplayKeeps(pl, s, s', x);
  }

  lemma MoveKeeps(pl: Plant, s: World, m: Move)
    requires Consistent(pl) && Inv(pl, s) && Enabled(pl, s, m)
    ensures Inv(pl, Apply(pl, s, m))
  {
    match m {
      case Serve(a, reason, attempts) => ServeKeeps(pl, s, a, reason, attempts);
      case Operate(a) => OperateKeeps(pl, s, a);
      case HandleDecode(x) => ReplayKeeps(pl, s, Apply(pl, s, m), x);
      case HandleStore(x, lost) => ReplayStoreKeeps(pl, s, x, lost);
      case HandlePublish(x, lost) => ReplayPublishKeeps(pl, s, x, lost);
    }
  }

  // ---------------------------------------------------------------------------------------
  // Whole runs

  ghost predicate ValidRun(pl: Plant, s: World, moves: seq<Move>)
    decreases |moves|
  {
    moves == [] || (Enabled(pl, s, moves[0]) && ValidRun(pl, Apply(pl, s, moves[0]), moves[1..]))
  }

  ghost function Run(pl: Plant, s: World, moves: seq<Move>): World
    requires ValidRun(pl, s, moves)
    decreases |moves|
  {
    if moves == [] then s else Run(pl, Apply(pl, s, moves[0]), moves[1..])
  }

  lemma {:induction false} RunKeeps(pl: Plant, s: World, moves: seq<Move>)
    requires Consistent(pl) && Inv(pl, s) && ValidRun(pl, s, moves)
    ensures Inv(pl, Run(pl, s, moves))
    decreases |moves|
  {
    if moves != [] {
      MoveKeeps(pl, s, moves[0]);
      RunKeeps(pl, Apply(pl, s, moves[0]), moves[1..]);
    }
  }

  lemma StartOk(pl: Plant)
    ensures Inv(pl, START)
  {
    E.InitOk(pl.c);
  }

  /** A failure row of this record that says honestly how it stands. */
  ghost predicate Accounted(pl: Plant, s: World, rec: D.Record, id: nat) {
    && id in s.f.rows && s.f.rows[id].at.source == SourceOf(rec)
    && (s.f.rows[id].resolution == F.Replayed ==> pl.c.log(rec).Some? && Restored(s.e, pl.c.log(rec).value))
  }

  lemma QuarantinedAccounted(pl: Plant, s: World, rec: D.Record)
    requires Consistent(pl) && Inv(pl, s) && rec.0.topic == pl.c.topic && D.Quarantined(s.e.d.rows, rec)
    ensures exists id :: Accounted(pl, s, rec, id)
  {
    var stage :| D.Coordinates(rec, stage) in s.e.d.rows;
    assert Stands(s.f.rows, D.Coordinates(rec, stage));
    var id :| F.RowFor(s.f.rows, D.Coordinates(rec, stage), id);
    assert F.RowOk(s.f, id, pl.payload);
    var row := s.f.rows[id];
    if row.resolution == F.Replayed {
      assert (row.at.source, row.payload) in s.f.accepted;
      assert PayloadRestored(pl, s.e, row.at.source, row.payload);
    }
    assert Accounted(pl, s, rec, id);
  }

  /**
   * In every run of the service with its operators: a committed meter record is kept as the policy says, or a failure
   * row stands for it that is unresolved, discarded, or marked replayed with the exact reading in history and, unless
   * Redis lost its data, an entry at least as new in the cache.
   */
  lemma CommittedIsAccounted(pl: Plant, moves: seq<Move>, rec: D.Record)
    requires Consistent(pl) && ValidRun(pl, START, moves) && rec.0.topic == pl.c.topic
    requires rec.1 < D.Committed(Run(pl, START, moves).e.d, rec.0)
    ensures var s := Run(pl, START, moves);
            || (pl.c.log(rec).Some? && E.Kept(pl.c, s.e, pl.c.log(rec).value))
            || exists id :: Accounted(pl, s, rec, id)
  {
    StartOk(pl);
    RunKeeps(pl, START, moves);
    var s := Run(pl, START, moves);
    CommittedInState(pl.c, s.e, rec);
    if D.Quarantined(s.e.d.rows, rec) { QuarantinedAccounted(pl, s, rec); }
  }

  /**
   * In every run a row of a meter record that says replayed tells the truth: its payload's reading is durable and
   * projected.
   */
  lemma ReplayedIsRestored(pl: Plant, moves: seq<Move>, id: nat)
    requires Consistent(pl) && ValidRun(pl, START, moves)
    requires var s := Run(pl, START, moves);
             id in s.f.rows && s.f.rows[id].resolution == F.Replayed && s.f.rows[id].at.source.topic == pl.c.topic
    ensures var s := Run(pl, START, moves);
            var r := pl.decode(s.f.rows[id].payload);
            r.Some? && Restored(s.e, r.value) && s.f.rows[id].payload == pl.payload(s.f.rows[id].at.source)
  {
    StartOk(pl);
    RunKeeps(pl, START, moves);
    var s := Run(pl, START, moves);
    assert F.RowOk(s.f, id, pl.payload);
    assert PayloadRestored(pl, s.e, s.f.rows[id].at.source, s.f.rows[id].payload);
  }
}
