/**
 * The worker's own code for one batch, written as the loop it is. Each statement that the protocol counts as a
 * step is taken through `Do`, and between any two of them the rest of the world may raise signals, so every
 * execution of this code is a run of the protocol.
 */
module Partition {
  import F = Failures
  import opened Retry
  import opened W = Worker

  datatype Raised = Raised(take: bool, quit: bool, retry: bool, ctx: bool, abandon: bool, parent: bool)

  /** Whatever the world decides: the signals raised by each observation, and the outcome of each call. */
  datatype World = World(
    raised: nat -> Raised, attempt: (nat, nat) -> Attempt,
    cutShort: (nat, nat) -> bool,
    recorded: nat -> bool, landed: nat -> bool,
    preferStop: nat -> bool)

  datatype Handled = Finished | Interrupted | NotFinished

  ghost predicate IsRun(lim: Limits, born: Worker, steps: seq<Step>, w: Worker) {
    && ValidSteps(lim, born, steps) && Steps(lim, born, steps) == w
    && born == Fresh(born.tp, born.proc, born.start)
  }

  lemma RunIsOk(lim: Limits, born: Worker, steps: seq<Step>, w: Worker)
    requires IsRun(lim, born, steps, w)
    ensures W.Inv(lim, w)
  {
    FreshOk(lim, born.tp, born.proc, born.start);
    StepsKeep(lim, born, steps);
  }

  /** Only the signals and the ownership may have changed, and signals are never withdrawn. */
  predicate Signalled(a: Worker, b: Worker) {
    && b.past == a.past && b.phase == a.phase
    && (a.sig.quit ==> b.sig.quit) && (a.sig.ctxCancelled ==> b.sig.ctxCancelled)
    && (a.sig.retryCancelled ==> b.sig.retryCancelled) && (a.sig.abandoned ==> b.sig.abandoned)
  }

  class PartitionWorker {
    const lim: Limits
    const policy: RetryPolicy
    const world: World
    const born: Worker
    var w: Worker
    var now: nat
    var rows: set<(nat, F.Stage)>   // what this worker wrote to the failure table
    ghost var steps: seq<Step>

    ghost predicate Valid()
      reads this
    {
      IsRun(lim, born, steps, w) && lim.maxTries == WithDefaults(policy).maxTries
    }

    constructor (slots: nat, queueDepth: nat, policy: RetryPolicy, world: World, tp: TopicPartition, proc: nat,
                 start: nat)
      ensures Valid() && born == Fresh(tp, proc, start) && w == born && steps == [] && rows == {}
      ensures lim == Limits(slots, queueDepth, WithDefaults(policy).maxTries) && this.world == world
    {
      this.lim, this.policy := Limits(slots, queueDepth, WithDefaults(policy).maxTries), policy;
      this.world, this.born := world, Fresh(tp, proc, start);
      this.w, this.now, this.rows, this.steps := Fresh(tp, proc, start), 0, {}, [];
    }

    /** One step of the protocol. */
    method Do(st: Step)
      requires Valid() && W.Enabled(lim, w, st)
      modifies `w, `now, `steps
      ensures Valid() && w == W.Apply(lim, old(w), st) && now == old(now)
    {
      StepsAppend(lim, born, steps, st);
      steps := steps + [st];
      w := W.Apply(lim, w, st);
    }

    method Raise(st: Step)
      requires Valid() && W.Enabled(lim, w, st)
      requires st.Take? || st.CloseQuit? || st.CancelRetry? || st.CancelCtx? || st.Abandon? || st.ParentDone?
      modifies `w, `now, `steps
      ensures Valid() && Signalled(old(w), w) && w == W.Apply(lim, old(w), st) && now == old(now)
    {
      Do(st);
    }

    /** How far a concurrent stop has got. */
    method ObserveStop(r: Raised)
      requires Valid()
      modifies `w, `now, `steps
      ensures Valid() && Signalled(old(w), w) && w.inbox == old(w.inbox) && now == old(now)
      ensures r.quit && !w.inbox.owned ==> w.sig.quit
      ensures r.retry && w.sig.quit ==> w.sig.retryCancelled
      ensures r.ctx && w.sig.quit && w.sig.retryCancelled ==> w.sig.ctxCancelled
      ensures r.abandon && w.sig.quit && w.sig.ctxCancelled ==> w.sig.abandoned
    {
      if r.quit && !w.inbox.owned { Raise(CloseQuit); }
      if r.retry && w.sig.quit { Raise(CancelRetry); }
      if r.ctx && w.sig.quit && w.sig.retryCancelled { Raise(CancelCtx); }
      if r.abandon && w.sig.quit && w.sig.ctxCancelled { Raise(Abandon); }
    }

    /** takeWorkers, stop and Close run concurrently; this is how far they have got by now. */
    method Observe()
      requires Valid()
      modifies `w, `now, `steps
      ensures Valid() && Signalled(old(w), w) && now == old(now) + 1
      ensures var r := world.raised(old(now));
              && (r.parent ==> w.sig.ctxCancelled) && (r.take ==> !w.inbox.owned)
              && (r.quit && !w.inbox.owned ==> w.sig.quit) && (r.retry && w.sig.quit ==> w.sig.retryCancelled)
              && (r.ctx && w.sig.quit && w.sig.retryCancelled ==> w.sig.ctxCancelled)
              && (r.abandon && w.sig.quit && w.sig.ctxCancelled ==> w.sig.abandoned)
    {
      var r := world.raised(now);
      if r.parent { Raise(ParentDone); }
      if r.take && w.inbox.owned { Raise(Take); }
      ObserveStop(r);
      now := now + 1;
    }

    /**
     * Attempt n decides the record: all before it failed transiently with their waits run out, and it succeeds, fails
     * for good, is the last of the budget or has its wait cut short.
     */
    ghost predicate Decides(cur: nat, n: nat) {
      && 1 <= n <= lim.maxTries
      && (forall m :: 1 <= m < n ==> Transient(world.attempt(cur, m)) && !world.cutShort(cur, m))
      && (Transient(world.attempt(cur, n)) ==> n == lim.maxTries || world.cutShort(cur, n))
    }

    /** Every record has one deciding attempt. */
    lemma OneDecides(cur: nat, m: nat, n: nat)
      requires Decides(cur, m) && Decides(cur, n)
      ensures m == n
    {}

    /** The record's deciding attempt was a success. */
    ghost predicate Succeeds(cur: nat) {
      exists n :: Decides(cur, n) && world.attempt(cur, n) == Success
    }

    /** The record's deciding attempt was an error of this stage. */
    ghost predicate FailsAt(cur: nat, stage: F.Stage) {
      exists n :: Decides(cur, n) && world.attempt(cur, n).Failed? && stage == FailureStage(world.attempt(cur, n).error)
    }

    /** The deciding attempt was an error that cannot be quarantined: no handler, or the recorder failed too. */
    ghost predicate Stuck(cur: nat) {
      exists n :: Decides(cur, n) && var a := world.attempt(cur, n);
                  a.Failed? && (NoHandlerFor in a.error.kinds || !world.recorded(cur))
    }

    /** The record was accepted, or stands in the failure table at the stage of its deciding error. */
    ghost predicate Dealt(table: set<(nat, F.Stage)>, cur: nat) {
      Succeeds(cur) || exists stage :: (cur, stage) in table && FailsAt(cur, stage)
    }

    ghost predicate AllDealt(table: set<(nat, F.Stage)>, lo: nat, hi: nat) {
      forall r :: lo <= r < hi ==> Dealt(table, r)
    }

    lemma DealtOnce(table: set<(nat, F.Stage)>, after: set<(nat, F.Stage)>, lo: nat, cur: nat)
      requires AllDealt(table, lo, cur) && table <= after
      ensures AllDealt(after, lo, cur) && (Dealt(after, cur) ==> AllDealt(after, lo, cur + 1))
    {
      forall r | lo <= r < cur ensures Dealt(after, r) {
        assert Dealt(table, r);
      }
    }

    /** Rows are only ever added, and only for records that failed, at the stage of the deciding error. */
    ghost predicate Deserved(table: set<(nat, F.Stage)>, after: set<(nat, F.Stage)>) {
      table <= after && forall x <- after :: x in table || FailsAt(x.0, x.1)
    }

    /** The retry loop, each attempt after the first one step of the protocol. */
    method RunAttempts() returns (last: Attempt)
      requires Valid() && w.phase.Handling? && w.phase.attempt == 1
      modifies `w, `now, `steps
      ensures Valid() && w.past == old(w.past)
      ensures w.phase.Handling? && Decides(old(w.phase.cur), w.phase.attempt)
      ensures w.phase == Handling(old(w.phase.lo), old(w.phase.cur), old(w.phase.hi), w.phase.attempt)
      ensures last == world.attempt(old(w.phase.cur), w.phase.attempt) && now == old(now) + w.phase.attempt
    {
      var cur := w.phase.cur;
      var op := (n: nat) => world.attempt(cur, n);
      var attempts;
      attempts, last := RetryHandle(policy, op, (n: nat) => world.cutShort(cur, n));
      forall m | 1 <= m < attempts ensures Transient(world.attempt(cur, m)) && !world.cutShort(cur, m) {
        assert Transient(op(m));
      }
      for i := 1 to attempts
        invariant Valid() && w.past == old(w.past)
        invariant w.phase == Handling(old(w.phase.lo), old(w.phase.cur), old(w.phase.hi), i)
        invariant now == old(now) + i - 1
      {
        Observe();
        Do(HandlerRetry);
      }
      Observe();
    }

    /** Handles the record the worker is at: at most maxTries attempts, then success, quarantine or giving up. */
    method HandleRecord() returns (res: Handled)
      requires Valid() && w.phase.Handling? && w.phase.attempt == 1
      modifies this
      ensures Valid()
      ensures res == Finished ==> w.phase == InBatch(old(w.phase.lo), old(w.phase.cur) + 1, old(w.phase.hi))
      ensures res == Finished ==> w.past == old(w.past).(finished := old(w.phase.cur) + 1)
      ensures res == Interrupted ==> w.phase == Committing(old(w.phase.lo), old(w.phase.cur), old(w.phase.hi), false)
      ensures res == Interrupted ==> w.past == old(w.past).(left := true)
      ensures res == NotFinished ==>
                w.phase == Unfinished(old(w.phase.lo), old(w.phase.cur), old(w.phase.hi)) && w.past == old(w.past)
      ensures exists n :: Decides(old(w.phase.cur), n)
      ensures Succeeds(old(w.phase.cur)) ==> res == Finished && rows == old(rows)
      ensures res == Interrupted ==> RetryDone(w)
      ensures res != Interrupted ==> (res == NotFinished <==> Stuck(old(w.phase.cur)))
      ensures res == Finished ==> Dealt(rows, old(w.phase.cur))
      ensures Deserved(old(rows), rows) && forall x <- rows :: x in old(rows) || x.0 == old(w.phase.cur)
    {
      var cur := w.phase.cur;
      var last := RunAttempts();
      ghost var n := w.phase.attempt;
      forall m | Decides(cur, m) ensures m == n { OneDecides(cur, m, n); }
      match last {
        case Success =>
          Do(HandlerOk);
          return Finished;
        case Failed(e) =>
          res := GiveUp(e);
      }
    }

    /** The retry loop ended with an error: interrupted, a wiring bug, or something to quarantine. */
    method GiveUp(e: Error) returns (res: Handled)
      requires Valid() && w.phase.Handling?
      modifies this
      ensures Valid()
      ensures res == Finished ==> w.phase == InBatch(old(w.phase.lo), old(w.phase.cur) + 1, old(w.phase.hi))
      ensures res == Finished ==> w.past == old(w.past).(finished := old(w.phase.cur) + 1)
      ensures res == Finished <==> !old(RetryDone(w)) && NoHandlerFor !in e.kinds && world.recorded(old(w.phase.cur))
      ensures res == Finished ==> rows == old(rows) + {(old(w.phase.cur), FailureStage(e))}
      ensures res != Finished ==> rows <= old(rows) + {(old(w.phase.cur), FailureStage(e))}
      ensures res == Interrupted ==> rows == old(rows)
      ensures old(rows) <= rows
      ensures res == Interrupted <==> old(RetryDone(w))
      ensures res == Interrupted ==> RetryDone(w)
      ensures res == Interrupted ==> w.phase == Committing(old(w.phase.lo), old(w.phase.cur), old(w.phase.hi), false)
      ensures res == Interrupted ==> w.past == old(w.past).(left := true)
      ensures res == NotFinished ==>
                w.phase == Unfinished(old(w.phase.lo), old(w.phase.cur), old(w.phase.hi)) && w.past == old(w.past)
    {
      if RetryDone(w) {
        Do(HandlerInterrupted);
        return Interrupted;
      }
      if NoHandlerFor in e.kinds {
        Do(NoHandler);
        return NotFinished;
      }
      var recorded := RecordFailure(FailureStage(e));
      return if recorded then Finished else NotFinished;
    }

    /** Writes the failure row; a write whose reply was lost may have landed all the same. */
    method RecordFailure(stage: F.Stage) returns (recorded: bool)
      requires Valid() && w.phase.Handling? && !RetryDone(w)
      modifies this
      ensures Valid() && recorded == world.recorded(old(w.phase.cur)) && now == old(now) + 1
      ensures recorded ==> w.phase == InBatch(old(w.phase.lo), old(w.phase.cur) + 1, old(w.phase.hi))
      ensures recorded ==> w.past == old(w.past).(finished := old(w.phase.cur) + 1)
      ensures !recorded ==>
                w.phase == Unfinished(old(w.phase.lo), old(w.phase.cur), old(w.phase.hi)) && w.past == old(w.past)
      ensures rows == old(rows) + if recorded || world.landed(old(w.phase.cur)) then {(old(w.phase.cur), stage)} else {}
    {
      var cur := w.phase.cur;
      Do(HandlerFail(stage));
      Observe();
      recorded := world.recorded(cur);
      if recorded || world.landed(cur) { rows := rows + {(cur, w.phase.stage)}; }
      Do(if recorded then RecordOk else RecordErr(world.landed(cur)));
    }

    /** Commits lo..cur unless it is empty or the worker was abandoned before the check. */
    method Commit()
      requires Valid() && w.phase.Committing?
      modifies `w, `now, `steps
      ensures Valid() && (w.phase == if old(w.phase.fatal) then Exited else Idle) && now > old(now)
      ensures w.past == old(w.past)
              || (old(w.phase.lo) != old(w.phase.cur)
                  && w.past == old(w.past).(sent := old(w.past.sent) + [old(w.phase.cur)]))
      ensures old(w.phase.lo) != old(w.phase.cur) && !w.sig.abandoned ==>
                w.past.sent == old(w.past.sent) + [old(w.phase.cur)]
      ensures old(w.sig.abandoned) ==> w.past == old(w.past)
    {
      Observe();
      if w.phase.lo == w.phase.cur || w.sig.abandoned {
        Do(SkipCommit);
        return;
      }
      Do(SendCommit);
      Observe();
      Do(CommitReturned);
    }

    /** Between two records: the whole prefix so far has finished, nothing was sent yet. */
    ghost predicate AtRecord(w0: Worker, lo: nat, hi: nat)
      reads this
    {
      && AllDealt(rows, lo, Cur(w.phase))
      && Valid() && w.phase.InBatch? && w.phase.lo == lo && w.phase.hi == hi && lo <= w.phase.cur <= hi
      && w.past.sent == w0.past.sent && w.past.left == w0.past.left
      && w.past.finished == if w.phase.cur == lo then w0.past.finished else w.phase.cur
    }

    /** The batch is over at cur, early or not. */
    ghost predicate AtCommit(w0: Worker, lo: nat, hi: nat)
      reads this
    {
      && AllDealt(rows, lo, Cur(w.phase))
      && (w.phase.Committing? && w.phase.fatal ==> w.phase.cur < hi && Stuck(w.phase.cur))
      && Valid() && w.phase.Committing? && w.phase.lo == lo && w.phase.hi == hi && lo <= w.phase.cur <= hi
      && w.past.sent == w0.past.sent
      && (w0.past.left ==> w.past.left) && (w.past.left || w.phase.cur == hi)
      && w.past.finished == if w.phase.cur == lo then w0.past.finished else w.phase.cur
    }

    /** One turn of the loop over the batch; false when the batch is over. */
    method NextRecord(ghost w0: Worker, ghost lo: nat, ghost hi: nat) returns (more: bool)
      requires AtRecord(w0, lo, hi)
      modifies this
      ensures more ==> AtRecord(w0, lo, hi) && w.phase.cur == old(w.phase.cur) + 1
      ensures !more ==> AtCommit(w0, lo, hi)
      ensures Deserved(old(rows), rows)
    {
      if w.phase.cur == w.phase.hi {
        Do(EndBatch);
        return false;
      }
      Observe();
      if Stopped(w) {
        Do(LeaveBatch);
        return false;
      }
      Do(BeginRecord);
      ghost var cur, table := w.phase.cur, rows;
      var res := HandleRecord();
      DealtOnce(table, rows, lo, cur);
      if res == NotFinished { LeaveRecord(); }
      more := res == Finished;
    }

    /** The loop over the batch. */
    method HandleAll(ghost w0: Worker, ghost lo: nat, ghost hi: nat)
      requires AtRecord(w0, lo, hi)
      modifies this
      ensures AtCommit(w0, lo, hi) && Deserved(old(rows), rows)
    {
      var more := true;
      while more
        invariant if more then AtRecord(w0, lo, hi) else AtCommit(w0, lo, hi)
        invariant Deserved(old(rows), rows)
        decreases more, if more then hi - w.phase.cur else 0
      {
        more := NextRecord(w0, lo, hi);
      }
    }

    /** The record stays unfinished: break when the context is gone, otherwise commit and report a fatal error. */
    method LeaveRecord()
      requires Valid() && w.phase.Unfinished?
      modifies `w, `now, `steps
      ensures Valid() && w.past == old(w.past).(left := true) && now == old(now) + 1
      ensures w.phase == Committing(old(w.phase.lo), old(w.phase.cur), old(w.phase.hi), !w.sig.ctxCancelled)
    {
      Observe();
      if w.sig.ctxCancelled { Do(LeaveUnfinished); } else { Do(FatalUnfinished); }
    }

    /**
     * One batch. It commits at most once, and then exactly the prefix that finished; unless the worker was
     * abandoned it does commit whatever finished. Only a worker that was told to stop, or that reports a
     * fatal error, leaves part of the batch undone. Everything it finishes was accepted by the deciding attempt or
     * stands in the failure table at that attempt's stage, and it writes no other rows; a fatal exit is on a record
     * that failed and could not be quarantined.
     */
    method ProcessBatch() returns (ok: bool)
      requires Valid() && w.phase.AwaitSlot?
      modifies this
      ensures Valid() && w.phase == if ok then Idle else Exited
      ensures old(w.past.finished) <= old(w.phase.lo) && w.past.finished <= old(w.phase.hi)
      ensures w.past.sent == old(w.past.sent) || w.past.sent == old(w.past.sent) + [w.past.finished]
      ensures old(w.phase.lo) < w.past.finished && !w.sig.abandoned ==>
                w.past.sent == old(w.past.sent) + [w.past.finished]
      ensures w.past.finished <= old(w.phase.lo) ==> w.past.sent == old(w.past.sent)
      ensures ok && w.past.finished < old(w.phase.hi) ==> Stopped(w)
      ensures !ok ==> exists r :: old(w.phase.lo) <= r < old(w.phase.hi) && Stuck(r)
      ensures AllDealt(rows, old(w.phase.lo), w.past.finished) && Deserved(old(rows), rows)
    {
      RunIsOk(lim, born, steps, w);
      ghost var w0, lo, hi := w, w.phase.lo, w.phase.hi;
      Observe();
      if Stopped(w) && world.preferStop(now) {
        Do(DropBatch);
        return true;
      }
      Do(AcquireSlot);
      HandleAll(w0, lo, hi);
      ok := !w.phase.fatal;
      Commit();
      RunIsOk(lim, born, steps, w);
    }
  }
}
