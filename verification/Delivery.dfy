/**
 * At-least-once delivery: any number of consumer processes, each with its partition workers and slot
 * limiter, against one broker. Processes crash, partitions move between them at any moment, commits are
 * lost, delayed, repeated or applied after the sender is gone, and workers that were given up on keep running.
 */
module Delivery {
  import F = Failures
  import opened W = Worker

  type Record = (TopicPartition, nat)

  /**
   * The broker's committed positions and the commit requests it may still apply; the workers, including those
   * no consumer knows any more; the slots taken in each process; what has happened to records so far; and the
   * processes that reported a fatal error or died.
   */
  datatype State = State(
    committed: map<TopicPartition, nat>, requests: set<Record>,
    workers: map<nat, Worker>, slots: map<nat, int>,
    succeeded: set<Record>, rows: set<F.Coordinates>,
    fatal: set<nat>, dead: set<nat>)

  datatype Action =
    | Assign(id: nat, proc: nat, tp: TopicPartition)   // a new worker starts at the committed position
    | Work(id: nat, st: Step)
    | Crash(proc: nat)
    | BrokerCommit(tp: TopicPartition, at: nat)        // the broker applies a request it was sent

  const INIT := State(map[], {}, map[], map[], {}, {}, {}, {})

  function Committed(s: State, tp: TopicPartition): nat {
    if tp in s.committed then s.committed[tp] else 0
  }

  function Slots(s: State, proc: nat): int {
    if proc in s.slots then s.slots[proc] else 0
  }

  ghost predicate OwnedBy(s: State, id: nat, proc: nat, tp: TopicPartition) {
    id in s.workers && s.workers[id].inbox.owned && s.workers[id].proc == proc && s.workers[id].tp == tp
  }

  ghost predicate Enabled(lim: Limits, s: State, a: Action) {
    match a
    case Assign(id, proc, tp) => id !in s.workers && proc !in s.dead && forall i :: !OwnedBy(s, i, proc, tp)
    case Work(id, st) =>
      && id in s.workers && s.workers[id].proc !in s.dead && W.Enabled(lim, s.workers[id], st)
      && (st.AcquireSlot? ==> Slots(s, s.workers[id].proc) < lim.slots)
    case Crash(_) => true
    case BrokerCommit(tp, at) => (tp, at) in s.requests
  }

  /** A slot is taken in one place and given back when processBatch returns or unwinds. */
  function SlotChange(w: Worker, st: Step): int {
    if st.AcquireSlot? then 1
    else if st.SkipCommit? || st.CommitReturned? || (st.Panic? && Holding(w)) then -1
    else 0
  }

  predicate Reports(w: Worker, st: Step) {
    || st.Panic?
    || (st.SkipCommit? && w.phase.Committing? && w.phase.fatal)
    || (st.CommitReturned? && w.phase.CommitSent? && w.phase.fatal)
  }

  function At(w: Worker): Record {
    (w.tp, Cur(w.phase))
  }

  function Coordinates(r: Record, stage: F.Stage): F.Coordinates {
    F.Coordinates(F.Source(r.0.topic, r.0.partition, r.1), stage)
  }

  /** The failure row a step leaves behind; a write whose reply was lost may still have landed. */
  function RowsOf(w: Worker, st: Step): set<F.Coordinates> {
    if w.phase.Recording? && (st.RecordOk? || st == RecordErr(true)) then {Coordinates(At(w), w.phase.stage)} else {}
  }

  /** A row is left by an answered write, and by an unanswered one exactly when it landed, at the record handled. */
  lemma RowsExact(w: Worker, st: Step, at: F.Coordinates)
    ensures at in RowsOf(w, st) <==>
            && w.phase.Recording? && (st == RecordOk || (st.RecordErr? && st.wrote))
            && at.source == F.Source(w.tp.topic, w.tp.partition, w.phase.cur) && at.stage == w.phase.stage
  {}

  function DoWork(lim: Limits, s: State, id: nat, st: Step): State
    requires id in s.workers && W.Enabled(lim, s.workers[id], st)
  {
    var w := s.workers[id];
    s.(workers := s.workers[id := W.Apply(lim, w, st)],
       slots := s.slots[w.proc := Slots(s, w.proc) + SlotChange(w, st)],
       requests := if st.SendCommit? then s.requests + {At(w)} else s.requests,
       succeeded := if st.HandlerOk? then s.succeeded + {At(w)} else s.succeeded,
       rows := s.rows + RowsOf(w, st),
       fatal := if Reports(w, st) then s.fatal + {w.proc} else s.fatal)
  }

  function Apply(lim: Limits, s: State, a: Action): State
    requires Enabled(lim, s, a)
  {
    match a
    case Assign(id, proc, tp) => s.(workers := s.workers[id := Fresh(tp, proc, Committed(s, tp))])
    case Work(id, st) => DoWork(lim, s, id, st)
    case Crash(proc) =>
      s.(workers := map id <- s.workers :: if s.workers[id].proc == proc then Killed(s.workers[id]) else s.workers[id],
         slots := s.slots[proc := 0], dead := s.dead + {proc})
    case BrokerCommit(tp, at) => s.(committed := s.committed[tp := at])
  }

  // ---------------------------------------------------------------------------------------
  // Finished records

  ghost predicate Quarantined(rows: set<F.Coordinates>, r: Record) {
    exists stage :: Coordinates(r, stage) in rows
  }

  /** The handler accepted the record, or a failure row stands at its coordinates. */
  ghost predicate Done(s: State, r: Record) {
    r in s.succeeded || Quarantined(s.rows, r)
  }

  ghost predicate Covered(s: State, tp: TopicPartition, n: nat) {
    forall o: nat :: o < n ==> Done(s, (tp, o))
  }

  /** Nothing that happened to a record is forgotten. */
  predicate Remembers(s: State, s': State) {
    s.succeeded <= s'.succeeded && s.rows <= s'.rows
  }

  lemma CoveredStays(s: State, s': State, tp: TopicPartition, n: nat)
    requires Remembers(s, s') && Covered(s, tp, n)
    ensures Covered(s', tp, n)
  {}

  ghost predicate CommittedOk(s: State) {
    forall tp <- s.committed :: Covered(s, tp, s.committed[tp])
  }

  ghost predicate RequestsOk(s: State) {
    forall r <- s.requests :: Covered(s, r.0, r.1)
  }

  /** A worker stops working only when told to, or with its process on the way down. */
  predicate ExitExplained(s: State, w: Worker) {
    w.phase.Exited? ==> Stopped(w) || w.proc in s.fatal || w.proc in s.dead
  }

  ghost predicate WorkerOk(lim: Limits, s: State, w: Worker) {
    W.Inv(lim, w) && Covered(s, w.tp, w.past.finished) && ExitExplained(s, w)
  }

  ghost predicate WorkersOk(lim: Limits, s: State) {
    forall id <- s.workers :: WorkerOk(lim, s, s.workers[id])
  }

  function Holders(ws: map<nat, Worker>, proc: nat): set<nat> {
    set id <- ws | ws[id].proc == proc && Holding(ws[id])
  }

  ghost predicate SlotsOk(lim: Limits, s: State, proc: nat) {
    Slots(s, proc) == |Holders(s.workers, proc)| && Slots(s, proc) <= lim.slots
  }

  ghost predicate OneOwner(s: State) {
    forall i, j, proc, tp :: OwnedBy(s, i, proc, tp) && OwnedBy(s, j, proc, tp) ==> i == j
  }

  ghost predicate Inv(lim: Limits, s: State) {
    && WorkersOk(lim, s) && RequestsOk(s) && CommittedOk(s)
    && (forall proc: nat :: SlotsOk(lim, s, proc))
    && OneOwner(s)
  }

  // ---------------------------------------------------------------------------------------
  // Every action keeps the invariant

  lemma RequestsStay(s: State, s': State)
    requires Remembers(s, s') && RequestsOk(s) && s'.requests == s.requests
    ensures RequestsOk(s')
  {}

  lemma CommittedStays(s: State, s': State)
    requires Remembers(s, s') && CommittedOk(s) && s'.committed == s.committed
    ensures CommittedOk(s')
  {}

  lemma OthersStay(lim: Limits, s: State, s': State, w: Worker)
    requires Remembers(s, s') && WorkerOk(lim, s, w) && s.fatal <= s'.fatal && s.dead <= s'.dead
    ensures WorkerOk(lim, s', w)
  {
    CoveredStays(s, s', w.tp, w.past.finished);
  }

  /** A step that finishes a record leaves it done. */
  lemma FinishedIsDone(lim: Limits, s: State, id: nat, st: Step)
    requires id in s.workers && W.Inv(lim, s.workers[id]) && W.Enabled(lim, s.workers[id], st)
    requires Covered(s, s.workers[id].tp, s.workers[id].past.finished)
    ensures Covered(DoWork(lim, s, id, st), s.workers[id].tp, W.Apply(lim, s.workers[id], st).past.finished)
  {
    var w, s' := s.workers[id], DoWork(lim, s, id, st);
    CoveredStays(s, s', w.tp, w.past.finished);
    LeftIsOver(lim, w, st);
    if st.RecordOk? {
      assert Coordinates(At(w), w.phase.stage) in s'.rows;
    }
  }

  lemma WorkKeepsWorker(lim: Limits, s: State, id: nat, st: Step)
    requires id in s.workers && WorkerOk(lim, s, s.workers[id]) && W.Enabled(lim, s.workers[id], st)
    ensures WorkerOk(lim, DoWork(lim, s, id, st), W.Apply(lim, s.workers[id], st))
  {
    FinishedIsDone(lim, s, id, st);
    StepKeeps(lim, s.workers[id], st);
  }

  /** A commit is sent only for a prefix that has finished. */
  lemma SentIsFinished(lim: Limits, w: Worker, st: Step)
    requires W.Inv(lim, w) && W.Enabled(lim, w, st) && st.SendCommit?
    ensures At(w) == (w.tp, w.past.finished)
  {
  }

  lemma WorkKeepsRequests(lim: Limits, s: State, id: nat, st: Step)
    requires id in s.workers && WorkerOk(lim, s, s.workers[id]) && W.Enabled(lim, s.workers[id], st) && RequestsOk(s)
    ensures RequestsOk(DoWork(lim, s, id, st))
  {}

  lemma HoldersStep(ws: map<nat, Worker>, id: nat, w': Worker, proc: nat)
    requires id in ws ==> ws[id].proc == w'.proc
    ensures var was := id in ws && Holding(ws[id]);
            |Holders(ws[id := w'], proc)| == |Holders(ws, proc)| +
              (if w'.proc != proc || was == Holding(w') then 0 else if was then -1 else 1)
  {
    var a, b := Holders(ws, proc), Holders(ws[id := w'], proc);
    if w'.proc != proc || (id in ws && Holding(ws[id])) == Holding(w') {
      assert a == b;
    } else if Holding(w') {
      assert b == a + {id};
    } else {
      assert b == a - {id};
    }
  }

  lemma HoldingStep(lim: Limits, w: Worker, st: Step)
    requires W.Enabled(lim, w, st)
    ensures var w' := W.Apply(lim, w, st);
            SlotChange(w, st) == (if Holding(w) == Holding(w') then 0 else if Holding(w) then -1 else 1)
    ensures SlotChange(w, st) > 0 <==> st.AcquireSlot?
  {
  }

  lemma WorkKeepsSlots(lim: Limits, s: State, id: nat, st: Step, proc: nat)
    requires Enabled(lim, s, Work(id, st)) && SlotsOk(lim, s, proc)
    ensures SlotsOk(lim, DoWork(lim, s, id, st), proc)
  {
    HoldingStep(lim, s.workers[id], st);
    HoldersStep(s.workers, id, W.Apply(lim, s.workers[id], st), proc);
  }

  lemma OwnersShrink(s: State, s': State)
    requires OneOwner(s)
    requires forall i, proc, tp :: OwnedBy(s', i, proc, tp) ==> OwnedBy(s, i, proc, tp)
    ensures OneOwner(s')
  {
  }

  lemma WorkKeepsOwners(lim: Limits, s: State, id: nat, st: Step)
    requires OneOwner(s) && id in s.workers && W.Enabled(lim, s.workers[id], st)
    ensures OneOwner(DoWork(lim, s, id, st))
  {
    var w' := W.Apply(lim, s.workers[id], st);
    assert w'.inbox.owned ==> s.workers[id].inbox.owned;
    OwnersShrink(s, DoWork(lim, s, id, st));
  }

  lemma WorkKeeps(lim: Limits, s: State, id: nat, st: Step)
    requires Inv(lim, s) && Enabled(lim, s, Work(id, st))
    ensures Inv(lim, DoWork(lim, s, id, st))
  {
    var s' := DoWork(lim, s, id, st);
    forall i <- s'.workers ensures WorkerOk(lim, s', s'.workers[i]) {
      if i == id { WorkKeepsWorker(lim, s, id, st); } else { OthersStay(lim, s, s', s.workers[i]); }
    }
    WorkKeepsRequests(lim, s, id, st);
    CommittedStays(s, s');
    forall proc: nat ensures SlotsOk(lim, s', proc) { WorkKeepsSlots(lim, s, id, st, proc); }
    WorkKeepsOwners(lim, s, id, st);
  }

  lemma AssignKeeps(lim: Limits, s: State, id: nat, proc: nat, tp: TopicPartition)
    requires Inv(lim, s) && Enabled(lim, s, Assign(id, proc, tp))
    ensures Inv(lim, Apply(lim, s, Assign(id, proc, tp)))
  {
    var s' := Apply(lim, s, Assign(id, proc, tp));
    var w := Fresh(tp, proc, Committed(s, tp));
    forall i <- s'.workers ensures WorkerOk(lim, s', s'.workers[i]) {
      if i == id {
        FreshOk(lim, tp, proc, w.start);
        assert Covered(s, tp, w.start);
        CoveredStays(s, s', tp, w.start);
      } else {
        OthersStay(lim, s, s', s.workers[i]);
      }
    }
    RequestsStay(s, s');
    CommittedStays(s, s');
    forall p: nat ensures SlotsOk(lim, s', p) {
      assert SlotsOk(lim, s, p);
      HoldersStep(s.workers, id, w, p);
    }
    AssignKeepsOwners(lim, s, id, proc, tp);
  }

  lemma AssignKeepsOwners(lim: Limits, s: State, id: nat, proc: nat, tp: TopicPartition)
    requires OneOwner(s) && Enabled(lim, s, Assign(id, proc, tp))
    ensures OneOwner(Apply(lim, s, Assign(id, proc, tp)))
  {
    var s' := Apply(lim, s, Assign(id, proc, tp));
    forall i, p, t | OwnedBy(s', i, p, t) ensures i == id || OwnedBy(s, i, p, t) { }
  }

  lemma CrashKeeps(lim: Limits, s: State, proc: nat)
    requires Inv(lim, s)
    ensures Inv(lim, Apply(lim, s, Crash(proc)))
  {
    var s' := Apply(lim, s, Crash(proc));
    forall i <- s'.workers ensures WorkerOk(lim, s', s'.workers[i]) {
      OthersStay(lim, s, s', s.workers[i]);
      if s.workers[i].proc == proc { KilledKeeps(lim, s.workers[i]); }
    }
    RequestsStay(s, s');
    CommittedStays(s, s');
    forall p: nat ensures SlotsOk(lim, s', p) {
      assert SlotsOk(lim, s, p);
      assert Holders(s'.workers, p) == if p == proc then {} else Holders(s.workers, p);
    }
    OwnersShrink(s, s');
  }

  lemma BrokerCommitKeeps(lim: Limits, s: State, tp: TopicPartition, at: nat)
    requires Inv(lim, s) && Enabled(lim, s, BrokerCommit(tp, at))
    ensures Inv(lim, Apply(lim, s, BrokerCommit(tp, at)))
  {
    var s' := Apply(lim, s, BrokerCommit(tp, at));
    forall i <- s'.workers ensures WorkerOk(lim, s', s'.workers[i]) { OthersStay(lim, s, s', s.workers[i]); }
    RequestsStay(s, s');
    assert Covered(s, (tp, at).0, (tp, at).1);
    forall t <- s'.committed ensures Covered(s', t, s'.committed[t]) { CoveredStays(s, s', t, s'.committed[t]); }
    forall p: nat ensures SlotsOk(lim, s', p) { assert SlotsOk(lim, s, p); }
    OwnersShrink(s, s');
  }

  lemma ActionKeeps(lim: Limits, s: State, a: Action)
    requires Inv(lim, s) && Enabled(lim, s, a)
    ensures Inv(lim, Apply(lim, s, a))
  {
    match a {
      case Assign(id, proc, tp) => AssignKeeps(lim, s, id, proc, tp);
      case Work(id, st) => WorkKeeps(lim, s, id, st);
      case Crash(proc) => CrashKeeps(lim, s, proc);
      case BrokerCommit(tp, at) => BrokerCommitKeeps(lim, s, tp, at);
    }
  }

  /** No worker disappears from the account or takes anything back, and no record's fate is forgotten. */
  ghost predicate Advances(s: State, s': State) {
    Remembers(s, s') && forall id <- s.workers :: id in s'.workers && Evolves(s.workers[id], s'.workers[id])
  }

  lemma ActionAdvances(lim: Limits, s: State, a: Action)
    requires Inv(lim, s) && Enabled(lim, s, a)
    ensures Advances(s, Apply(lim, s, a))
  {
    if a.Work? {
      assert WorkerOk(lim, s, s.workers[a.id]);
      StepEvolves(lim, s.workers[a.id], a.st);
    }
  }

  // ---------------------------------------------------------------------------------------
  // Whole runs

  ghost predicate ValidRun(lim: Limits, s: State, acts: seq<Action>)
    decreases |acts|
  {
    acts == [] || (Enabled(lim, s, acts[0]) && ValidRun(lim, Apply(lim, s, acts[0]), acts[1..]))
  }

  ghost function Run(lim: Limits, s: State, acts: seq<Action>): State
    requires ValidRun(lim, s, acts)
    decreases |acts|
  {
    if acts == [] then s else Run(lim, Apply(lim, s, acts[0]), acts[1..])
  }

  lemma {:induction false} RunKeeps(lim: Limits, s: State, acts: seq<Action>)
    requires Inv(lim, s) && ValidRun(lim, s, acts)
    ensures Inv(lim, Run(lim, s, acts)) && Advances(s, Run(lim, s, acts))
    decreases |acts|
  {
    if acts != [] {
      var s1 := Apply(lim, s, acts[0]);
      ActionKeeps(lim, s, acts[0]);
      ActionAdvances(lim, s, acts[0]);
      RunKeeps(lim, s1, acts[1..]);
      AdvancesTransitive(s, s1, Run(lim, s1, acts[1..]));
    }
  }

  lemma AdvancesTransitive(a: State, b: State, c: State)
    requires Advances(a, b) && Advances(b, c)
    ensures Advances(a, c)
  {}

  lemma InitOk(lim: Limits)
    ensures Inv(lim, INIT)
  {}

  /** In every reachable state, every record below a partition's committed position was accepted or is quarantined. */
  lemma CommittedIsFinished(lim: Limits, acts: seq<Action>, tp: TopicPartition, offset: nat)
    requires ValidRun(lim, INIT, acts)
    requires offset < Committed(Run(lim, INIT, acts), tp)
    ensures Done(Run(lim, INIT, acts), (tp, offset))
  {
    InitOk(lim);
    RunKeeps(lim, INIT, acts);
    var s := Run(lim, INIT, acts);
    assert Covered(s, tp, s.committed[tp]);
  }

  /**
   * In every reachable state a worker has handled a prefix of what it was given, in order and each record once;
   * and however the run goes on, one that left a batch early begins nothing more and commits nothing past it,
   * and one that was abandoned sends no further commit.
   */
  lemma HandledIsPrefix(lim: Limits, acts: seq<Action>, more: seq<Action>, id: nat)
    requires ValidRun(lim, INIT, acts) && id in Run(lim, INIT, acts).workers
    requires ValidRun(lim, Run(lim, INIT, acts), more)
    ensures var w := Run(lim, INIT, acts).workers[id];
            && (forall i :: 0 <= i < |w.past.trail| ==> w.past.trail[i] == w.start + i)
            && w.start + |w.past.trail| <= w.inbox.next
            && (forall n <- w.past.sent :: n <= w.past.finished <= w.start + |w.past.trail|)
    ensures id in Run(lim, Run(lim, INIT, acts), more).workers
    ensures var w, w' := Run(lim, INIT, acts).workers[id], Run(lim, Run(lim, INIT, acts), more).workers[id];
            && (w.past.left ==> w'.past.trail == w.past.trail && forall n <- w'.past.sent :: n <= w.past.finished)
            && (w.sig.abandoned ==> w'.past.sent == w.past.sent)
  {
    InitOk(lim);
    RunKeeps(lim, INIT, acts);
    var s := Run(lim, INIT, acts);
    RunKeeps(lim, s, more);
    var s' := Run(lim, s, more);
    assert WorkerOk(lim, s, s.workers[id]) && WorkerOk(lim, s', s'.workers[id]);
    ChainAscends(s.workers[id].inbox.queue, Head(s.workers[id]), s.workers[id].inbox.next);
  }

  function Handlers(ws: map<nat, Worker>, proc: nat): set<nat> {
    set id <- ws | ws[id].proc == proc && ws[id].phase.Handling?
  }

  /** In every reachable state no process runs more handlers than it has slots, counting abandoned workers too. */
  lemma HandlersBounded(lim: Limits, acts: seq<Action>, proc: nat)
    requires ValidRun(lim, INIT, acts)
    ensures |Handlers(Run(lim, INIT, acts).workers, proc)| <= Slots(Run(lim, INIT, acts), proc) <= lim.slots
    ensures (forall id <- Run(lim, INIT, acts).workers :: !Holding(Run(lim, INIT, acts).workers[id])) ==>
              Slots(Run(lim, INIT, acts), proc) == 0
  {
    InitOk(lim);
    RunKeeps(lim, INIT, acts);
    var s := Run(lim, INIT, acts);
    assert SlotsOk(lim, s, proc);
    Smaller(Handlers(s.workers, proc), Holders(s.workers, proc));
    if forall id <- s.workers :: !Holding(s.workers[id]) { assert Holders(s.workers, proc) == {}; }
  }

  lemma {:induction false} Smaller(a: set<nat>, b: set<nat>)
    requires a <= b
    ensures |a| <= |b|
  {
    assert b == a + (b - a);
  }
}
