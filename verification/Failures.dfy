/**
 * The quarantine table: failures upserted by Kafka coordinates and stage, and the operator's
 * replay or discard under a row lock, as a transition system over concurrent sessions.
 */
module Failures {
  import opened Common

  datatype Stage = Decode | GridValidation | RedisWrite | TimescaleWrite | HandlerPanic
  datatype Source = Source(topic: string, partition: int, offset: nat)
  datatype Coordinates = Coordinates(source: Source, stage: Stage)
  datatype Resolution = Unresolved | Replayed | Discarded

  datatype Row = Row(at: Coordinates, payload: string, reason: string, attempts: nat, resolution: Resolution,
                     resolvedBy: Option<string>)

  datatype Failure = Failure(at: Coordinates, payload: string, reason: string, attempts: int)

  /** What the locked callback decided. */
  datatype Verdict = Accepted | Rejected(reason: string) | Dropped | LeftOpen

  type Rows = map<nat, Row>

  ghost predicate UniqueCoordinates(rows: Rows) {
    forall i, j :: i in rows && j in rows && rows[i].at == rows[j].at ==> i == j
  }

  function FailureAttempts(f: Failure): nat {
    if f.attempts < 1 then 1 else f.attempts
  }

  function Inserted(f: Failure): Row {
    Row(f.at, f.payload, f.reason, FailureAttempts(f), Unresolved, None)
  }

  /** ON CONFLICT DO UPDATE: refreshes the attempt metadata and leaves the resolution alone. */
  function Updated(row: Row, f: Failure): Row {
    row.(payload := f.payload, reason := f.reason, attempts := FailureAttempts(f))
  }

  /** What the transaction writes once the callback has returned. */
  function Resolved(row: Row, actor: string, v: Verdict): Row {
    match v
    case Accepted => row.(resolution := Replayed, resolvedBy := Some(actor))
    case Dropped => row.(resolution := Discarded, resolvedBy := Some(actor))
    case Rejected(reason) => row.(reason := reason, attempts := row.attempts + 1)
    case LeftOpen => row
  }

  // ---------------------------------------------------------------------------------------
  // The store

  datatype Outcome = Done(v: Verdict) | Unavailable | Fault

  class FailureStore {
    var rows: Rows
    var nextId: nat

    ghost predicate Valid()
      reads this
    {
      UniqueCoordinates(rows) && forall i <- rows :: i < nextId
    }

    constructor ()
      ensures Valid() && rows == map[]
    {
      rows, nextId := map[], 0;
    }

    method FindRow(at: Coordinates) returns (id: Option<nat>)
      ensures id.Some? ==> id.value in rows && rows[id.value].at == at
      ensures id.None? ==> forall i <- rows :: rows[i].at != at
    {
      var todo := rows.Keys;
      while todo != {}
        invariant todo <= rows.Keys
        invariant forall i <- rows :: i !in todo ==> rows[i].at != at
        decreases |todo|
      {
        var i :| i in todo;
        if rows[i].at == at { return Some(i); }
        todo := todo - {i};
      }
      return None;
    }

    /** Repeating a failure updates its row; it never adds a second one and never reopens a resolved one. */
    method RecordFailure(f: Failure) returns (id: nat)
      requires Valid()
      modifies this
      ensures Valid() && rows.Keys == old(rows).Keys + {id}
      ensures forall i <- old(rows) :: i != id ==> rows[i] == old(rows)[i]
      ensures rows[id].at == f.at && rows[id].payload == f.payload && rows[id].reason == f.reason
      ensures f.attempts >= 1 ==> rows[id].attempts == f.attempts
      ensures f.attempts < 1 ==> rows[id].attempts == 1
      ensures id in old(rows) ==> rows[id].resolution == old(rows)[id].resolution
      ensures id in old(rows) ==> rows[id].resolvedBy == old(rows)[id].resolvedBy
      ensures id !in old(rows) ==> rows[id].resolution == Unresolved && rows[id].resolvedBy == None
      ensures if id in old(rows) then rows == old(rows)[id := Updated(old(rows)[id], f)] && old(rows)[id].at == f.at
              else rows == old(rows)[id := Inserted(f)] && forall i <- old(rows) :: old(rows)[i].at != f.at
    {
      var found := FindRow(f.at);
      if found.Some? {
        id := found.value;
        rows := rows[id := Updated(rows[id], f)];
      } else {
        id := nextId;
        rows := rows[id := Inserted(f)];
      }
      nextId := nextId + 1;
    }

    /**
     * Lock, run the callback, write its verdict. `held` says another transaction has the row locked (it is skipped,
     * not waited for), `fault` that a statement or the commit fails. Only an unlocked, unresolved row is ever
     * touched; a failed transaction leaves every row as it was, even though the callback has run.
     */
    method WithLockedFailure(id: nat, actor: string, fn: Row -> Verdict, held: bool, fault: bool) returns (res: Outcome)
      requires Valid()
      modifies this
      ensures Valid() && nextId == old(nextId)
      ensures res == Unavailable <==> held || !(id in old(rows) && old(rows)[id].resolution == Unresolved)
      ensures res == Fault ==> fault
      ensures res.Done? ==>
                !fault && res.v == fn(old(rows)[id]) && rows == old(rows)[id := Resolved(old(rows)[id], actor, res.v)]
      ensures !res.Done? ==> rows == old(rows)
      ensures rows.Keys == old(rows).Keys && forall i <- rows :: i != id ==> rows[i] == old(rows)[i]
      ensures res.Done? ==> rows[id].at == old(rows)[id].at && rows[id].payload == old(rows)[id].payload
      ensures res == Done(Accepted) ==> rows[id].resolution == Replayed && rows[id].resolvedBy == Some(actor)
      ensures res == Done(Dropped) ==> rows[id].resolution == Discarded && rows[id].resolvedBy == Some(actor)
      ensures res == Done(Accepted) || res == Done(Dropped) ==>
                rows[id].reason == old(rows)[id].reason && rows[id].attempts == old(rows)[id].attempts
      ensures res.Done? && res.v.Rejected? ==>
                && rows[id].reason == res.v.reason && rows[id].attempts == old(rows)[id].attempts + 1
                && rows[id].resolution == Unresolved && rows[id].resolvedBy == old(rows)[id].resolvedBy
      ensures res == Done(LeftOpen) ==> rows[id] == old(rows)[id]
    {
      if held || id !in rows { return Unavailable; }
      var row := rows[id];
      if row.resolution != Unresolved { return Unavailable; }
      var v := fn(row);
      if fault { return Fault; }
      match v {
        case Rejected(reason) => rows := rows[id := row.(reason := reason, attempts := row.attempts + 1)];
        case Accepted => rows := rows[id := row.(resolution := Replayed, resolvedBy := Some(actor))];
        case Dropped => rows := rows[id := row.(resolution := Discarded, resolvedBy := Some(actor))];
        case LeftOpen => assert rows == rows[id := row];
      }
      return Done(v);
    }
  }

  // ---------------------------------------------------------------------------------------
  // Concurrent ingestion and operators

  /** An operator's transaction: the row it locked, the row as read, and the callback's verdict once it ran. */
  datatype Session = Session(row: nat, read: Row, actor: string, verdict: Option<Verdict>)

  /** `accepted` records every (source, payload) a handler has returned success for. */
  datatype State = State(rows: Rows, nextId: nat, sessions: map<nat, Session>, accepted: set<(Source, string)>)

  datatype Action =
    | Record(f: Failure)                             // a worker quarantines a record
    | Begin(session: nat, row: nat, actor: string)   // SELECT ... FOR UPDATE SKIP LOCKED
    | Handle(session: nat, verdict: Verdict)         // the callback runs under the lock
    | Finish(session: nat)                           // write the verdict and commit
    | Abort(session: nat)                            // the transaction rolls back

  predicate Locked(s: State, row: nat) {
    exists x <- s.sessions :: s.sessions[x].row == row
  }

  ghost predicate RowFor(rows: Rows, at: Coordinates, id: nat) {
    id in rows && rows[id].at == at
  }

  /** The broker's log never changes, so a failure always carries the payload stored at its coordinates. */
  ghost predicate Enabled(s: State, a: Action, log: Source -> string) {
    match a
    case Record(f) => f.payload == log(f.at.source) && forall id :: RowFor(s.rows, f.at, id) ==> !Locked(s, id)
    case Begin(x, row, _) =>
      x !in s.sessions && row in s.rows && !Locked(s, row) && s.rows[row].resolution == Unresolved
    case Handle(x, _) => x in s.sessions && s.sessions[x].verdict.None?
    case Finish(x) => x in s.sessions && s.sessions[x].verdict.Some? && s.sessions[x].row in s.rows
    case Abort(x) => x in s.sessions
  }

  ghost function Upsert(s: State, f: Failure): State {
    if exists id :: RowFor(s.rows, f.at, id) then
      var id :| RowFor(s.rows, f.at, id);
      s.(rows := s.rows[id := Updated(s.rows[id], f)], nextId := s.nextId + 1)
    else s.(rows := s.rows[s.nextId := Inserted(f)], nextId := s.nextId + 1)
  }

  ghost function Apply(s: State, a: Action, log: Source -> string): State
    requires Enabled(s, a, log)
  {
    match a
    case Record(f) => Upsert(s, f)
    case Begin(x, row, actor) => s.(sessions := s.sessions[x := Session(row, s.rows[row], actor, None)])
    case Handle(x, v) =>
      var ses := s.sessions[x];
      s.(sessions := s.sessions[x := ses.(verdict := Some(v))],
         accepted := if v == Accepted then s.accepted + {(ses.read.at.source, ses.read.payload)} else s.accepted)
    case Finish(x) =>
      var ses := s.sessions[x];
      s.(rows := s.rows[ses.row := Resolved(s.rows[ses.row], ses.actor, ses.verdict.value)],
         sessions := s.sessions - {x})
    case Abort(x) => s.(sessions := s.sessions - {x})
  }

  const INIT := State(map[], 0, map[], {})

  /** A session's row is still as it was read. */
  ghost predicate SessionOk(s: State, x: nat)
    requires x in s.sessions
  {
    var ses := s.sessions[x];
    && ses.row in s.rows && s.rows[ses.row] == ses.read && ses.read.resolution == Unresolved
    && (ses.verdict == Some(Accepted) ==> (ses.read.at.source, ses.read.payload) in s.accepted)
  }

  ghost predicate RowOk(s: State, id: nat, log: Source -> string)
    requires id in s.rows
  {
    var row := s.rows[id];
    && id < s.nextId
    && row.payload == log(row.at.source)
    && (row.resolution == Replayed ==> (row.at.source, row.payload) in s.accepted)
    && (row.resolution == Unresolved <==> row.resolvedBy.None?)
  }

  ghost predicate OneHolder(s: State) {
    forall x, y :: x in s.sessions && y in s.sessions && s.sessions[x].row == s.sessions[y].row ==> x == y
  }

  ghost predicate Inv(s: State, log: Source -> string) {
    && UniqueCoordinates(s.rows)
    && OneHolder(s)
    && (forall id <- s.rows :: RowOk(s, id, log))
    && (forall x <- s.sessions :: SessionOk(s, x))
  }

  /** Nothing is lost and nothing resolved is reopened or re-attributed. */
  ghost predicate Kept(s: State, s': State) {
    && s.accepted <= s'.accepted
    && forall id <- s.rows ::
         && id in s'.rows && s'.rows[id].at == s.rows[id].at
         && (s.rows[id].resolution != Unresolved ==>
               s'.rows[id].resolution == s.rows[id].resolution && s'.rows[id].resolvedBy == s.rows[id].resolvedBy)
  }

  /** A row of the same coordinates replaces its old self, or a new one joins under a fresh id. */
  lemma RowsStayUnique(rows: Rows, id: nat, row: Row)
    requires UniqueCoordinates(rows) && forall i <- rows :: rows[i].at == row.at ==> i == id
    ensures UniqueCoordinates(rows[id := row])
  {}

  /** Changing one unlocked row keeps everything, as long as the row itself is right. */
  lemma RowChangeKeeps(s: State, id: nat, row: Row, log: Source -> string)
    requires Inv(s, log) && !Locked(s, id) && id < s.nextId + 1
             && (forall i <- s.rows :: s.rows[i].at == row.at ==> i == id)
    requires var s' := s.(rows := s.rows[id := row], nextId := s.nextId + 1); RowOk(s', id, log)
    ensures Inv(s.(rows := s.rows[id := row], nextId := s.nextId + 1), log)
  {
    var s' := s.(rows := s.rows[id := row], nextId := s.nextId + 1);
    RowsStayUnique(s.rows, id, row);
    forall i <- s'.rows ensures RowOk(s', i, log) { if i != id { assert RowOk(s, i, log); } }
    forall x <- s'.sessions ensures SessionOk(s', x) {
      assert SessionOk(s, x) && s.sessions[x].row != id;
    }
  }

  lemma RecordKeeps(s: State, f: Failure, log: Source -> string)
    requires Inv(s, log) && Enabled(s, Record(f), log)
    ensures Inv(Upsert(s, f), log) && Kept(s, Upsert(s, f))
  {
    var s' := Upsert(s, f);
    if exists id :: RowFor(s.rows, f.at, id) {
      var id :| RowFor(s.rows, f.at, id)
        && s' == s.(rows := s.rows[id := Updated(s.rows[id], f)], nextId := s.nextId + 1);
      assert RowOk(s, id, log);
      RowChangeKeeps(s, id, Updated(s.rows[id], f), log);
    } else {
      forall i <- s.rows ensures s.rows[i].at != f.at && i != s.nextId {
        assert RowOk(s, i, log) && !RowFor(s.rows, f.at, i);
      }
      forall x <- s.sessions ensures s.sessions[x].row != s.nextId { assert SessionOk(s, x); }
      RowChangeKeeps(s, s.nextId, Inserted(f), log);
    }
  }

  lemma FinishKeeps(s: State, x: nat, log: Source -> string)
    requires Inv(s, log) && Enabled(s, Finish(x), log)
    ensures Inv(Apply(s, Finish(x), log), log) && Kept(s, Apply(s, Finish(x), log))
  {
    var s' := Apply(s, Finish(x), log);
    var id := s.sessions[x].row;
    assert SessionOk(s, x);
    forall i <- s'.rows ensures RowOk(s', i, log) { assert RowOk(s, i, log); }
    forall y <- s'.sessions ensures SessionOk(s', y) {
      assert SessionOk(s, y) && s.sessions[y].row != id;
    }
  }

  lemma StepKeeps(s: State, a: Action, log: Source -> string)
    requires Inv(s, log) && Enabled(s, a, log)
    ensures Inv(Apply(s, a, log), log) && Kept(s, Apply(s, a, log))
  {
    match a {
      case Record(f) => RecordKeeps(s, f, log);
      case Finish(x) => FinishKeeps(s, x, log);
      case _ =>
        var s' := Apply(s, a, log);
        forall i <- s'.rows ensures RowOk(s', i, log) { assert RowOk(s, i, log); }
        forall y <- s'.sessions ensures SessionOk(s', y) { if y in s.sessions { assert SessionOk(s, y); } }
    }
  }

  ghost predicate ValidRun(s: State, acts: seq<Action>, log: Source -> string)
    decreases |acts|
  {
    acts == [] || (Enabled(s, acts[0], log) && ValidRun(Apply(s, acts[0], log), acts[1..], log))
  }

  ghost function Run(s: State, acts: seq<Action>, log: Source -> string): State
    requires ValidRun(s, acts, log)
    decreases |acts|
  {
    if acts == [] then s else Run(Apply(s, acts[0], log), acts[1..], log)
  }

  /**
   * In every run of workers and operators: one row per coordinates and stage, no row ever lost, a resolved row keeps
   * its resolution and resolver, no two operators hold the same row, and "replayed" stands only on rows whose very
   * payload a handler accepted.
   */
  lemma {:induction false} RunKeeps(s: State, acts: seq<Action>, log: Source -> string)
    requires Inv(s, log) && ValidRun(s, acts, log)
    ensures Inv(Run(s, acts, log), log) && Kept(s, Run(s, acts, log))
    decreases |acts|
  {
    if acts != [] {
      StepKeeps(s, acts[0], log);
      RunKeeps(Apply(s, acts[0], log), acts[1..], log);
    }
  }

  /** A failure that is recorded, again or for the first time, shows its latest reason and attempts. */
  lemma RecordShows(s: State, f: Failure, log: Source -> string)
    requires Inv(s, log) && Enabled(s, Record(f), log)
    ensures exists id :: RowFor(Apply(s, Record(f), log).rows, f.at, id)
    ensures forall id :: RowFor(Apply(s, Record(f), log).rows, f.at, id) ==>
              var row := Apply(s, Record(f), log).rows[id];
              && row.reason == f.reason && row.payload == f.payload
              && row.attempts == (if f.attempts < 1 then 1 else f.attempts)
              && row.resolution == if id in s.rows then s.rows[id].resolution else Unresolved
  {
    RecordKeeps(s, f, log);
    var s' := Apply(s, Record(f), log);
    if exists id :: RowFor(s.rows, f.at, id) {
      var id :| RowFor(s.rows, f.at, id)
        && s' == s.(rows := s.rows[id := Updated(s.rows[id], f)], nextId := s.nextId + 1);
      assert RowFor(s'.rows, f.at, id);
    } else {
      assert RowFor(s'.rows, f.at, s.nextId);
    }
  }

  /**
   * What a finished session decides is what stands ever after: an accepted replay is Replayed and a dropped row
   * Discarded, both by that operator, whatever runs later; a rejected replay leaves its row open, with the new reason
   * and one attempt more.
   */
  lemma FinishStands(s: State, x: nat, later: seq<Action>, log: Source -> string)
    requires Inv(s, log) && Enabled(s, Finish(x), log) && ValidRun(Apply(s, Finish(x), log), later, log)
    ensures var ses := s.sessions[x];
            var now, end := Apply(s, Finish(x), log).rows, Run(Apply(s, Finish(x), log), later, log).rows;
            && ses.row in now && ses.row in end
            && match ses.verdict.value
               case Accepted => end[ses.row].resolution == Replayed && end[ses.row].resolvedBy == Some(ses.actor)
               case Dropped => end[ses.row].resolution == Discarded && end[ses.row].resolvedBy == Some(ses.actor)
               case Rejected(reason) =>
                 && now[ses.row].resolution == Unresolved && now[ses.row].reason == reason
                 && now[ses.row].attempts == s.rows[ses.row].attempts + 1
               case LeftOpen => now == s.rows
  {
    assert SessionOk(s, x);
    FinishKeeps(s, x, log);
    RunKeeps(Apply(s, Finish(x), log), later, log);
  }

  /** In particular in every run from the empty table. */
  lemma EveryRunKeeps(acts: seq<Action>, log: Source -> string)
    requires ValidRun(INIT, acts, log)
    ensures Inv(Run(INIT, acts, log), log)
  {
    RunKeeps(INIT, acts, log);
  }

  /** The undisturbed method is the run Begin, Handle, Finish. */
  lemma LockedRunIsSequential(s: State, x: nat, id: nat, actor: string, v: Verdict, log: Source -> string)
    requires Inv(s, log) && x !in s.sessions && id in s.rows && !Locked(s, id) && s.rows[id].resolution == Unresolved
    ensures ValidRun(s, [Begin(x, id, actor), Handle(x, v), Finish(x)], log)
    ensures Run(s, [Begin(x, id, actor), Handle(x, v), Finish(x)], log).rows
            == s.rows[id := Resolved(s.rows[id], actor, v)]
  {
    var acts := [Begin(x, id, actor), Handle(x, v), Finish(x)];
    var s1 := Apply(s, acts[0], log);
    assert acts[1..][0] == Handle(x, v) && Enabled(s1, Handle(x, v), log);
    var s2 := Apply(s1, Handle(x, v), log);
    assert acts[1..][1..] == [Finish(x)] && Enabled(s2, Finish(x), log);
    var s3 := Apply(s2, Finish(x), log);
    assert acts[1..][1..][1..] == [];
    assert Run(s3, [], log) == s3;
    assert ValidRun(s3, [], log);
    assert ValidRun(s2, acts[1..][1..], log) && Run(s2, acts[1..][1..], log) == s3;
    assert ValidRun(s1, acts[1..], log) && Run(s1, acts[1..], log) == s3;
  }
}
