/**
 * One partition worker: the goroutine that takes batches from a bounded queue, waits for a shared
 * slot, handles records one at a time with bounded retry, quarantines what fails for good, and
 * commits the finished prefix; and the stop, abort and abandon signals that reach it meanwhile.
 * Every step is one atomic action of the code, so signals may fall between any two of them.
 */
module Worker {
  import opened Common
  import opened Failures

  datatype TopicPartition = TopicPartition(topic: string, partition: int)

  /** Records lo..hi of the partition, lo included. Offsets are positions in the partition's log. */
  datatype Batch = Batch(lo: nat, hi: nat)

  datatype Phase =
    | Idle                                                   // at the top of the loop
    | AwaitSlot(lo: nat, hi: nat)                            // took a batch, no slot yet
    | InBatch(lo: nat, cur: nat, hi: nat)                    // between records, slot held
    | Handling(lo: nat, cur: nat, hi: nat, attempt: nat)     // inside the retry loop for record cur
    | Recording(lo: nat, cur: nat, hi: nat, stage: Stage)    // writing record cur to the failure table
    | Unfinished(lo: nat, cur: nat, hi: nat)                 // record cur returned an error other than "interrupted"
    | Committing(lo: nat, cur: nat, hi: nat, fatal: bool)    // about to commit lo..cur
    | CommitSent(lo: nat, cur: nat, hi: nat, fatal: bool)    // the commit passed the abandoned check
    | Exited

  /** What dispatch and takeWorkers touch: `owned` says the consumer's map still holds the worker. */
  datatype Inbox = Inbox(owned: bool, offered: Option<nat>, queue: seq<Batch>, next: nat)

  datatype Signals = Signals(quit: bool, retryCancelled: bool, ctxCancelled: bool, abandoned: bool)

  /**
   * History: the records whose handling began, in order; the position below which everything has
   * finished; the positions whose commit was sent; and whether a batch was left early.
   */
  datatype Past = Past(trail: seq<nat>, finished: nat, sent: seq<nat>, left: bool)

  datatype Worker = Worker(tp: TopicPartition, proc: nat, start: nat, inbox: Inbox, phase: Phase, sig: Signals,
                           past: Past)

  datatype Limits = Limits(slots: nat, queueDepth: nat, maxTries: nat)

  datatype Step =
    // the poll loop
    | Offer(hi: nat) | Accept | Refuse
    // run
    | TakeBatch | ExitLoop
    // processBatch
    | AcquireSlot | DropBatch | BeginRecord | LeaveBatch | EndBatch
    // handleRecord
    | HandlerOk | HandlerRetry | HandlerFail(stage: Stage) | HandlerInterrupted | NoHandler
    | RecordOk | RecordErr(wrote: bool)
    // after an error
    | LeaveUnfinished | FatalUnfinished
    // commit
    | SkipCommit | SendCommit | CommitReturned
    // anything else that blows up
    | Panic
    // takeWorkers and stop
    | Take | CloseQuit | CancelRetry | CancelCtx | Abandon
    // Close cancels the parent of every worker's context; the cancellation reaches the workers one by one
    | ParentDone

  function Fresh(tp: TopicPartition, proc: nat, start: nat): Worker {
    Worker(tp, proc, start, Inbox(true, None, [], start), Idle, Signals(false, false, false, false),
           Past([], start, [], false))
  }

  predicate Stopped(w: Worker) {
    w.sig.quit || w.sig.ctxCancelled
  }

  /** The retry context is a child of the worker's context. */
  predicate RetryDone(w: Worker) {
    w.sig.retryCancelled || w.sig.ctxCancelled
  }

  predicate Holding(w: Worker) {
    !w.phase.Idle? && !w.phase.AwaitSlot? && !w.phase.Exited?
  }

  predicate Enabled(lim: Limits, w: Worker, st: Step) {
    match st
    case Offer(hi) => w.inbox.owned && w.inbox.offered.None? && !w.sig.quit && !w.phase.Exited? && w.inbox.next < hi
    case Accept => w.inbox.offered.Some? && |w.inbox.queue| < lim.queueDepth
    case Refuse => w.inbox.offered.Some? && (w.sig.quit || w.phase.Exited?)
    case TakeBatch => w.phase.Idle? && w.inbox.queue != []
    case ExitLoop => w.phase.Idle? && Stopped(w)
    case AcquireSlot => w.phase.AwaitSlot?
    case DropBatch => w.phase.AwaitSlot? && Stopped(w)
    case BeginRecord => w.phase.InBatch? && w.phase.cur < w.phase.hi && !Stopped(w)
    case LeaveBatch => w.phase.InBatch? && w.phase.cur < w.phase.hi && Stopped(w)
    case EndBatch => w.phase.InBatch? && w.phase.cur == w.phase.hi
    case HandlerOk => w.phase.Handling?
    case HandlerRetry => w.phase.Handling? && w.phase.attempt < lim.maxTries
    case HandlerFail(_) => w.phase.Handling? && !RetryDone(w)
    case HandlerInterrupted => w.phase.Handling? && RetryDone(w)
    case NoHandler => w.phase.Handling? && !RetryDone(w)
    case RecordOk => w.phase.Recording?
    case RecordErr(_) => w.phase.Recording?
    case LeaveUnfinished => w.phase.Unfinished? && w.sig.ctxCancelled
    case FatalUnfinished => w.phase.Unfinished? && !w.sig.ctxCancelled
    case SkipCommit => w.phase.Committing? && (w.phase.lo == w.phase.cur || w.sig.abandoned)
    case SendCommit => w.phase.Committing? && w.phase.lo != w.phase.cur && !w.sig.abandoned
    case CommitReturned => w.phase.CommitSent?
    case Panic => !w.phase.Exited?
    case Take => w.inbox.owned
    case CloseQuit => !w.inbox.owned
    case CancelRetry => w.sig.quit
    case CancelCtx => w.sig.quit && w.sig.retryCancelled
    case Abandon => w.sig.quit && w.sig.ctxCancelled
    case ParentDone => true
  }

  function PhaseAfter(w: Worker, st: Step, lim: Limits): Phase
    requires Enabled(lim, w, st)
  {
    match st
    case TakeBatch => AwaitSlot(w.inbox.queue[0].lo, w.inbox.queue[0].hi)
    case ExitLoop => Exited
    case AcquireSlot => InBatch(w.phase.lo, w.phase.lo, w.phase.hi)
    case DropBatch => Idle
    case BeginRecord => Handling(w.phase.lo, w.phase.cur, w.phase.hi, 1)
    case LeaveBatch => Committing(w.phase.lo, w.phase.cur, w.phase.hi, false)
    case EndBatch => Committing(w.phase.lo, w.phase.cur, w.phase.hi, false)
    case HandlerOk => InBatch(w.phase.lo, w.phase.cur + 1, w.phase.hi)
    case HandlerRetry => Handling(w.phase.lo, w.phase.cur, w.phase.hi, w.phase.attempt + 1)
    case HandlerFail(stage) => Recording(w.phase.lo, w.phase.cur, w.phase.hi, stage)
    case HandlerInterrupted => Committing(w.phase.lo, w.phase.cur, w.phase.hi, false)
    case NoHandler => Unfinished(w.phase.lo, w.phase.cur, w.phase.hi)
    case RecordOk => InBatch(w.phase.lo, w.phase.cur + 1, w.phase.hi)
    case RecordErr(_) => Unfinished(w.phase.lo, w.phase.cur, w.phase.hi)
    case LeaveUnfinished => Committing(w.phase.lo, w.phase.cur, w.phase.hi, false)
    case FatalUnfinished => Committing(w.phase.lo, w.phase.cur, w.phase.hi, true)
    case SkipCommit => if w.phase.fatal then Exited else Idle
    case SendCommit => CommitSent(w.phase.lo, w.phase.cur, w.phase.hi, w.phase.fatal)
    case CommitReturned => if w.phase.fatal then Exited else Idle
    case Panic => Exited
    case _ => w.phase
  }

  function InboxAfter(i: Inbox, st: Step): Inbox
    requires st.Accept? ==> i.offered.Some?
    requires st.TakeBatch? ==> i.queue != []
  {
    match st
    case Offer(hi) => i.(offered := Some(hi))
    case Accept => i.(queue := i.queue + [Batch(i.next, i.offered.value)], next := i.offered.value, offered := None)
    case Refuse => i.(offered := None)
    case TakeBatch => i.(queue := i.queue[1..])
    case Take => i.(owned := false)
    case _ => i
  }

  function SignalsAfter(sig: Signals, st: Step): Signals {
    match st
    case CloseQuit => sig.(quit := true)
    case CancelRetry => sig.(retryCancelled := true)
    case CancelCtx => sig.(ctxCancelled := true)
    case ParentDone => sig.(ctxCancelled := true)
    case Abandon => sig.(abandoned := true)
    case _ => sig
  }

  predicate LeavesEarly(st: Step) {
    st.DropBatch? || st.LeaveBatch? || st.HandlerInterrupted? || st.LeaveUnfinished? || st.FatalUnfinished? || st.Panic?
  }

  function PastAfter(past: Past, st: Step, cur: nat): Past {
    match st
    case BeginRecord => past.(trail := past.trail + [cur])
    case HandlerOk => past.(finished := cur + 1)
    case RecordOk => past.(finished := cur + 1)
    case SendCommit => past.(sent := past.sent + [cur])
    case _ => if LeavesEarly(st) then past.(left := true) else past
  }

  /** The record or position a phase is at. */
  function Cur(ph: Phase): nat {
    if ph.Idle? || ph.AwaitSlot? || ph.Exited? then 0 else ph.cur
  }

  function Apply(lim: Limits, w: Worker, st: Step): Worker
    requires Enabled(lim, w, st)
  {
    w.(inbox := InboxAfter(w.inbox, st), phase := PhaseAfter(w, st, lim), sig := SignalsAfter(w.sig, st),
       past := PastAfter(w.past, st, Cur(w.phase)))
  }

  function Killed(w: Worker): Worker {
    w.(phase := Exited, past := w.past.(left := true))
  }

  // ---------------------------------------------------------------------------------------
  // The invariant of one worker

  /** Consecutive nonempty batches from one position to another. */
  predicate Chain(q: seq<Batch>, lo: nat, hi: nat) {
    if q == [] then lo == hi
    else q[0].lo == lo && lo < q[0].hi && Chain(q[1..], q[0].hi, hi)
  }

  lemma {:induction false} ChainAppend(q: seq<Batch>, lo: nat, mid: nat, hi: nat)
    requires Chain(q, lo, mid) && mid < hi
    ensures Chain(q + [Batch(mid, hi)], lo, hi)
  {
    var b := Batch(mid, hi);
    if q == [] {
      assert q + [b] == [b] && [b][1..] == [];
    } else {
      ChainAppend(q[1..], q[0].hi, mid, hi);
      assert (q + [b])[1..] == q[1..] + [b];
    }
  }

  lemma {:induction false} ChainAscends(q: seq<Batch>, lo: nat, hi: nat)
    requires Chain(q, lo, hi)
    ensures lo <= hi
  {
    if q != [] { ChainAscends(q[1..], q[0].hi, hi); }
  }

  /** The position after everything the worker has taken from its queue. */
  function Head(w: Worker): nat {
    match w.phase
    case Idle => if w.inbox.queue == [] then w.inbox.next else w.inbox.queue[0].lo
    case Exited => if w.inbox.queue == [] then w.inbox.next else w.inbox.queue[0].lo
    case _ => w.phase.hi
  }

  function Begun(w: Worker): nat {
    w.start + |w.past.trail|
  }

  /** The records handled are the first ones from the start, in order and each begun once. */
  ghost predicate IsPrefix(trail: seq<nat>, start: nat) {
    forall i :: 0 <= i < |trail| ==> trail[i] == start + i
  }

  ghost predicate Ascends(sent: seq<nat>) {
    forall i, j :: 0 <= i < j < |sent| ==> sent[i] < sent[j]
  }

  ghost predicate UpTo(sent: seq<nat>, at: nat) {
    forall i :: 0 <= i < |sent| ==> sent[i] <= at
  }

  /** Between batches: either nothing was ever left, or the worker has been told to stop. */
  predicate Between(w: Worker, at: nat) {
    && w.past.finished <= at
    && if w.past.left then Stopped(w) else w.past.finished == at == Begun(w)
  }

  ghost predicate PhaseOk(lim: Limits, w: Worker) {
    match w.phase
    case Idle => Between(w, Head(w))
    case AwaitSlot(lo, hi) => lo < hi && Between(w, lo) && Begun(w) <= lo
    case InBatch(lo, cur, hi) =>
      && lo <= cur <= hi && lo < hi && UpTo(w.past.sent, lo) && Begun(w) <= cur
      && if w.past.left then Stopped(w) && cur == lo && w.past.finished <= lo else w.past.finished == cur == Begun(w)
    case Handling(lo, cur, hi, attempt) =>
      InRecord(w, lo, cur, hi) && 1 <= attempt && (attempt <= lim.maxTries || attempt == 1)
    case Recording(lo, cur, hi, _) => InRecord(w, lo, cur, hi)
    case Unfinished(lo, cur, hi) => InRecord(w, lo, cur, hi)
    case Committing(lo, cur, hi, fatal) => UpTo(w.past.sent, lo) && BatchOver(w, lo, cur, hi, fatal)
    case CommitSent(lo, cur, hi, fatal) => BatchOver(w, lo, cur, hi, fatal)
    case Exited => true
  }

  ghost predicate InRecord(w: Worker, lo: nat, cur: nat, hi: nat) {
    lo <= cur < hi && UpTo(w.past.sent, lo) && !w.past.left && w.past.finished == cur && Begun(w) == cur + 1
  }

  predicate BatchOver(w: Worker, lo: nat, cur: nat, hi: nat, fatal: bool) {
    && lo <= cur <= hi && lo < hi
    && (lo < cur ==> cur == w.past.finished)
    && w.past.finished <= hi
    && if w.past.left then fatal || Stopped(w) else !fatal && cur == hi == Begun(w)
  }

  ghost predicate Inv(lim: Limits, w: Worker) {
    && (w.sig.retryCancelled ==> w.sig.quit)
    && (w.sig.abandoned ==> w.sig.quit && w.sig.ctxCancelled)
    && (w.sig.quit ==> !w.inbox.owned)
    && w.start <= w.past.finished
    && Chain(w.inbox.queue, Head(w), w.inbox.next)
    && (w.inbox.offered.Some? ==> w.inbox.next < w.inbox.offered.value)
    && IsPrefix(w.past.trail, w.start)
    && w.past.finished <= Begun(w) <= w.past.finished + 1
    && Begun(w) <= Head(w)
    && Ascends(w.past.sent)
    && UpTo(w.past.sent, w.past.finished)
    && PhaseOk(lim, w)
  }

  lemma PollKeeps(lim: Limits, w: Worker, st: Step)
    requires st.Offer? || st.Accept? || st.Refuse?
    requires Inv(lim, w) && Enabled(lim, w, st)
    ensures Inv(lim, Apply(lim, w, st))
  {
    if st.Accept? {
      ChainAppend(w.inbox.queue, Head(w), w.inbox.next, w.inbox.offered.value);
      ChainAscends(w.inbox.queue, Head(w), w.inbox.next);
    }
  }

  lemma LoopKeeps(lim: Limits, w: Worker, st: Step)
    requires st.TakeBatch? || st.ExitLoop? || st.AcquireSlot? || st.DropBatch?
    requires Inv(lim, w) && Enabled(lim, w, st)
    ensures Inv(lim, Apply(lim, w, st))
  {
  }

  lemma BeginKeeps(lim: Limits, w: Worker, st: Step)
    requires st.BeginRecord?
    requires Inv(lim, w) && Enabled(lim, w, st)
    ensures Inv(lim, Apply(lim, w, st))
  {
  }

  lemma LeaveKeeps(lim: Limits, w: Worker, st: Step)
    requires st.LeaveBatch? || st.EndBatch? || st.HandlerInterrupted? || st.LeaveUnfinished? || st.FatalUnfinished?
    requires Inv(lim, w) && Enabled(lim, w, st)
    ensures Inv(lim, Apply(lim, w, st))
  {
  }

  lemma RecordKeeps(lim: Limits, w: Worker, st: Step)
    requires st.HandlerRetry? || st.HandlerFail? || st.NoHandler? || st.RecordErr?
    requires Inv(lim, w) && Enabled(lim, w, st)
    ensures Inv(lim, Apply(lim, w, st))
  {
  }

  lemma FinishKeeps(lim: Limits, w: Worker, st: Step)
    requires st.HandlerOk? || st.RecordOk?
    requires Inv(lim, w) && Enabled(lim, w, st)
    ensures Inv(lim, Apply(lim, w, st))
  {
  }

  lemma CommitKeeps(lim: Limits, w: Worker, st: Step)
    requires st.SkipCommit? || st.CommitReturned?
    requires Inv(lim, w) && Enabled(lim, w, st)
    ensures Inv(lim, Apply(lim, w, st))
  {
  }

  lemma SendKeeps(lim: Limits, w: Worker, st: Step)
    requires st.SendCommit?
    requires Inv(lim, w) && Enabled(lim, w, st)
    ensures Inv(lim, Apply(lim, w, st))
  {
  }

  /** More signals, raised in the order stop raises them, never hurt. */
  lemma SignalsKeep(lim: Limits, w: Worker, w': Worker)
    requires Inv(lim, w)
    requires w' == w.(inbox := w.inbox.(owned := w'.inbox.owned), sig := w'.sig)
    requires (w.sig.quit ==> w'.sig.quit) && (w.sig.ctxCancelled ==> w'.sig.ctxCancelled)
             && (w'.sig.retryCancelled ==> w'.sig.quit)
    requires (w'.sig.abandoned ==> w'.sig.quit && w'.sig.ctxCancelled) && (w'.sig.quit ==> !w'.inbox.owned)
    ensures Inv(lim, w')
  {}

  lemma SignalKeeps(lim: Limits, w: Worker, st: Step)
    requires st.Take? || st.CloseQuit? || st.CancelRetry? || st.CancelCtx? || st.Abandon? || st.ParentDone?
    requires Inv(lim, w) && Enabled(lim, w, st)
    ensures Inv(lim, Apply(lim, w, st))
  {
    SignalsKeep(lim, w, Apply(lim, w, st));
  }

  lemma KilledKeeps(lim: Limits, w: Worker)
    requires Inv(lim, w)
    ensures Inv(lim, Killed(w))
  {
  }

  /** Every step keeps the invariant. */
  lemma StepKeeps(lim: Limits, w: Worker, st: Step)
    requires Inv(lim, w) && Enabled(lim, w, st)
    ensures Inv(lim, Apply(lim, w, st))
  {
    if st.Offer? || st.Accept? || st.Refuse? { PollKeeps(lim, w, st); }
    else if st.TakeBatch? || st.ExitLoop? || st.AcquireSlot? || st.DropBatch? { LoopKeeps(lim, w, st); }
    else if st.BeginRecord? { BeginKeeps(lim, w, st); }
    else if st.LeaveBatch? || st.EndBatch? || st.HandlerInterrupted? || st.LeaveUnfinished? || st.FatalUnfinished? {
      LeaveKeeps(lim, w, st);
    }
    else if st.HandlerOk? || st.RecordOk? { FinishKeeps(lim, w, st); }
    else if st.HandlerRetry? || st.HandlerFail? || st.NoHandler? || st.RecordErr? { RecordKeeps(lim, w, st); }
    else if st.SkipCommit? || st.CommitReturned? { CommitKeeps(lim, w, st); }
    else if st.SendCommit? { SendKeeps(lim, w, st); }
    else if st.Panic? { KilledKeeps(lim, w); }
    else { SignalKeeps(lim, w, st); }
  }

  /**
   * What a worker can never take back. Once it has left a batch early it begins no further record; once
   * abandoned it sends no further commit; what it has handled and sent only grows.
   */
  ghost predicate Evolves(w: Worker, w': Worker) {
    && w'.tp == w.tp && w'.proc == w.proc && w'.start == w.start
    && w.past.trail <= w'.past.trail && w.past.sent <= w'.past.sent && w.past.finished <= w'.past.finished
    && (w.past.left ==> w'.past.left && w'.past.trail == w.past.trail && w'.past.finished == w.past.finished)
    && (w.sig.abandoned ==> w'.sig.abandoned && w'.past.sent == w.past.sent)
  }

  /** Nothing begins or finishes once a batch has been left. */
  lemma LeftIsOver(lim: Limits, w: Worker, st: Step)
    requires Inv(lim, w) && Enabled(lim, w, st)
    ensures st.BeginRecord? || st.HandlerOk? || st.RecordOk? ==> !w.past.left && w.past.finished == w.phase.cur
  {
  }

  lemma StepEvolves(lim: Limits, w: Worker, st: Step)
    requires Inv(lim, w) && Enabled(lim, w, st)
    ensures Evolves(w, Apply(lim, w, st))
  {
    LeftIsOver(lim, w, st);
  }

  // ---------------------------------------------------------------------------------------
  // Runs of one worker

  predicate ValidSteps(lim: Limits, w: Worker, sts: seq<Step>)
    decreases |sts|
  {
    sts == [] || (Enabled(lim, w, sts[0]) && ValidSteps(lim, Apply(lim, w, sts[0]), sts[1..]))
  }

  function Steps(lim: Limits, w: Worker, sts: seq<Step>): Worker
    requires ValidSteps(lim, w, sts)
    decreases |sts|
  {
    if sts == [] then w else Steps(lim, Apply(lim, w, sts[0]), sts[1..])
  }

  lemma {:induction false} StepsAppend(lim: Limits, w: Worker, sts: seq<Step>, st: Step)
    requires ValidSteps(lim, w, sts) && Enabled(lim, Steps(lim, w, sts), st)
    ensures ValidSteps(lim, w, sts + [st]) && Steps(lim, w, sts + [st]) == Apply(lim, Steps(lim, w, sts), st)
    decreases |sts|
  {
    if sts == [] {
      assert sts + [st] == [st] && [st][1..] == [];
    } else {
      StepsAppend(lim, Apply(lim, w, sts[0]), sts[1..], st);
      assert (sts + [st])[1..] == sts[1..] + [st];
    }
  }

  lemma {:induction false} StepsKeep(lim: Limits, w: Worker, sts: seq<Step>)
    requires Inv(lim, w) && ValidSteps(lim, w, sts)
    ensures Inv(lim, Steps(lim, w, sts))
    decreases |sts|
  {
    if sts != [] {
      StepKeeps(lim, w, sts[0]);
      StepsKeep(lim, Apply(lim, w, sts[0]), sts[1..]);
    }
  }

  lemma FreshOk(lim: Limits, tp: TopicPartition, proc: nat, start: nat)
    ensures Inv(lim, Fresh(tp, proc, start))
  {}

  /** A worker handling record 0, the only one it has been given so far. */
  function HandlingFirst(tp: TopicPartition): Worker {
    Worker(tp, 0, 0, Inbox(true, None, [], 1), Handling(0, 0, 1, 1), Signals(false, false, false, false),
           Past([0], 0, [], false))
  }

  ghost predicate Reaches(lim: Limits, w: Worker, w': Worker) {
    exists sts :: ValidSteps(lim, w, sts) && Steps(lim, w, sts) == w'
  }

  lemma ReachesNext(lim: Limits, w: Worker, w': Worker, st: Step)
    requires Reaches(lim, w, w') && Enabled(lim, w', st)
    ensures Reaches(lim, w, Apply(lim, w', st))
  {
    var sts :| ValidSteps(lim, w, sts) && Steps(lim, w, sts) == w';
    StepsAppend(lim, w, sts, st);
  }

  /**
   * The order of the two signals is what the prefix rule rests on. Had the retry context been cancelled before
   * `quit` was closed, the worker could give up record 0, go on to record 1 and commit past both.
   */
  lemma CancelOrderMatters(tp: TopicPartition, lim: Limits)
    requires lim.queueDepth > 0
    ensures Inv(lim, HandlingFirst(tp))
    ensures var early := HandlingFirst(tp).(sig := Signals(false, true, false, false));
            && Enabled(lim, early, HandlerInterrupted)
            && exists w' :: Reaches(lim, Apply(lim, early, HandlerInterrupted), w') && w'.past.sent == [2]
  {
    assert Chain([], 1, 1);
    var early := HandlingFirst(tp).(sig := Signals(false, true, false, false));
    var e := early.(phase := Committing(0, 0, 1, false), past := Past([0], 0, [], true));
    assert e == Apply(lim, early, HandlerInterrupted);
    SecondBatchArrives(lim, e);
  }

  lemma SecondBatchArrives(lim: Limits, e: Worker)
    requires e.inbox == Inbox(true, None, [], 1) && e.phase == Committing(0, 0, 1, false) && lim.queueDepth > 0
    requires !Stopped(e) && !e.sig.abandoned && e.past.sent == []
    ensures exists w :: Reaches(lim, e, w) && w.past.sent == [2]
  {
    assert ValidSteps(lim, e, []) && Steps(lim, e, []) == e;
    ReachesNext(lim, e, e, SkipCommit);
    SecondBatchQueued(lim, e, Apply(lim, e, SkipCommit));
  }

  lemma SecondBatchQueued(lim: Limits, e: Worker, w: Worker)
    requires Reaches(lim, e, w) && w.inbox == Inbox(true, None, [], 1) && w.phase == Idle && lim.queueDepth > 0
    requires !Stopped(w) && !w.sig.abandoned && w.past.sent == []
    ensures exists w' :: Reaches(lim, e, w') && w'.past.sent == [2]
  {
    ReachesNext(lim, e, w, Offer(2));
    var w1 := Apply(lim, w, Offer(2));
    ReachesNext(lim, e, w1, Accept);
    SecondBatchStarts(lim, e, Apply(lim, w1, Accept));
  }

  lemma SecondBatchStarts(lim: Limits, e: Worker, w: Worker)
    requires Reaches(lim, e, w)
    requires w.phase == Idle && w.inbox.queue == [Batch(1, 2)] && !Stopped(w) && !w.sig.abandoned && w.past.sent == []
    ensures exists w' :: Reaches(lim, e, w') && w'.past.sent == [2]
  {
    ReachesNext(lim, e, w, TakeBatch);
    var w1 := Apply(lim, w, TakeBatch);
    ReachesNext(lim, e, w1, AcquireSlot);
    SecondBatchCommits(lim, e, Apply(lim, w1, AcquireSlot));
  }

  lemma SecondBatchCommits(lim: Limits, e: Worker, w: Worker)
    requires Reaches(lim, e, w)
    requires w.phase == InBatch(1, 1, 2) && !Stopped(w) && !w.sig.abandoned && w.past.sent == []
    ensures exists w' :: Reaches(lim, e, w') && w'.past.sent == [2]
  {
    ReachesNext(lim, e, w, BeginRecord);
    var w1 := Apply(lim, w, BeginRecord);
    ReachesNext(lim, e, w1, HandlerOk);
    var w2 := Apply(lim, w1, HandlerOk);
    ReachesNext(lim, e, w2, EndBatch);
    var w3 := Apply(lim, w2, EndBatch);
    ReachesNext(lim, e, w3, SendCommit);
    assert w.past.sent + [2] == [2];
  }
}
