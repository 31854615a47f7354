/** The lease protocol of the delivery worker: many workers, one table of notification deliveries.

    The table functions are the SQL statements of `delivery_worker.py`; the protocol interleaves them. A worker
    selects a row, claims it with a guarded update that evaluates eligibility again, sends, and finalises with a
    guarded write. Clocks are arbitrary, leases may have any length, and a worker may die at any point and come back
    under its old name. The atomicity assumed is one SQL transaction: the claim update, the finalising update, and
    `_fail` as a whole. */
module Leases {
  import opened Prelude
  import Runs

  type RowId = nat
  type WorkerId = nat

  datatype Status = Pending | Retry | Processing | Delivered | DeadLetter

  datatype Row = Row(
    eventId: nat,
    recipient: nat,
    createdAt: int,
    status: Status,
    attempts: nat,
    owner: Option<WorkerId>,
    expires: Option<int>,
    lastError: Option<string>)

  type Rows = map<RowId, Row>

  /** A row as the publisher inserts it. */
  function NewRow(eventId: nat, recipient: nat, createdAt: int): Row {
    Row(eventId, recipient, createdAt, Pending, 0, None, None, None)
  }

  predicate Eligible(r: Row, now: int) {
    || r.status.Pending?
    || r.status.Retry?
    || (r.status.Processing? && r.expires.Some? && r.expires.value <= now)
  }

  predicate Final(r: Row) {
    r.status.Delivered? || r.status.DeadLetter?
  }

  /** `w` is the current lease holder of the row. */
  predicate Holds(r: Row, w: WorkerId) {
    r.status.Processing? && r.owner == Some(w)
  }

  /** A row the select statement may return: eligible, and no eligible row is older. */
  ghost predicate Selectable(rows: Rows, id: RowId, now: int) {
    && id in rows
    && Eligible(rows[id], now)
    && forall k | k in rows && Eligible(rows[k], now) :: rows[id].createdAt <= rows[k].createdAt
  }

  /** Finished, or in processing under a lease that has not run out. */
  predicate OutOfReach(r: Row, now: int) {
    || r.status == Delivered || r.status == DeadLetter
    || (r.status == Processing && (r.expires.None? || r.expires.value > now))
  }

  /** The select returns a row in reach, and every older row is out of reach; an expired lease is worth no less than a
      pending row. */
  lemma SelectableIsOldestInReach(rows: Rows, id: RowId, now: int)
    ensures Selectable(rows, id, now) <==>
            && id in rows && !OutOfReach(rows[id], now)
            && forall k | k in rows && rows[k].createdAt < rows[id].createdAt :: OutOfReach(rows[k], now)
  {
    if id in rows && !OutOfReach(rows[id], now)
       && forall k | k in rows && rows[k].createdAt < rows[id].createdAt :: OutOfReach(rows[k], now) {
      forall k | k in rows && Eligible(rows[k], now) ensures rows[id].createdAt <= rows[k].createdAt {
        assert !OutOfReach(rows[k], now);
      }
    }
  }

  ghost predicate NoneEligible(rows: Rows, now: int) {
    forall k | k in rows :: !Eligible(rows[k], now)
  }

  function Truncated(error: string): string {
    if |error| <= 1000 then error else error[..1000]
  }

  function ClaimedRow(r: Row, w: WorkerId, expires: int): Row {
    r.(status := Processing, attempts := r.attempts + 1, owner := Some(w), expires := Some(expires))
  }

  function DeliveredRow(r: Row): Row {
    r.(status := Delivered, owner := None, expires := None, lastError := None)
  }

  function FailedRow(r: Row, max: int, error: string): Row {
    r.(status := if r.attempts >= max then DeadLetter else Retry,
       owner := None, expires := None, lastError := Some(Truncated(error)))
  }

  /** The guarded claim update; a statement that matches no row leaves the table as it is. */
  function ClaimUpdate(rows: Rows, id: RowId, w: WorkerId, now: int, expires: int): Rows {
    if id in rows && Eligible(rows[id], now) then rows[id := ClaimedRow(rows[id], w, expires)] else rows
  }

  function MarkUpdate(rows: Rows, id: RowId, w: WorkerId): Rows {
    if id in rows && Holds(rows[id], w) then rows[id := DeliveredRow(rows[id])] else rows
  }

  function FailUpdate(rows: Rows, id: RowId, w: WorkerId, max: int, error: string): Rows {
    if id in rows && Holds(rows[id], w) then rows[id := FailedRow(rows[id], max, error)] else rows
  }

  // ---------------------------------------------------------------------------------------------------------------
  // The protocol

  /** Where a worker is.  `claim` is the value of `attempts` its own claim wrote: the number of the claim.
      The program never consults it; it is what the fencing theorem compares the program's owner test with. */
  datatype Phase =
    | Idle
    | Chosen(id: RowId, now: int)
    | Sending(id: RowId, claim: nat)
    | Sent(id: RowId, claim: nat)
    | Raised(id: RowId, claim: nat, error: string)
  {
    predicate InFlight() {
      Sending? || Sent? || Raised?
    }
  }

  /** Per row: failures that were written, and claims that took over an expired lease. */
  datatype History = History(failures: nat, reclaims: nat)

  /** The table and the workers; the last four fields are history that no step reads. `sentOk` holds the claims whose
      send returned normally; `reported` is the sum of all workers' `delivered` counters and `stale` counts the
      increments whose guarded update matched nothing. */
  datatype State = State(
    rows: Rows,
    phases: map<WorkerId, Phase>,
    history: map<RowId, History>,
    sentOk: set<(RowId, nat)>,
    reported: nat,
    stale: nat)
  {
    function PhaseOf(w: WorkerId): Phase {
      if w in phases then phases[w] else Idle
    }

    function Move(w: WorkerId, p: Phase): State {
      this.(phases := phases[w := p])
    }
  }

  datatype Step =
    | Insert(batch: Rows)
    | Select(w: WorkerId, now: int, pick: Option<RowId>)
    | Claim(w: WorkerId, lease: int)
    | SendReturns(w: WorkerId)
    | SendRaises(w: WorkerId, error: string)
    | Mark(w: WorkerId)
    | Fail(w: WorkerId)
    | Crash(w: WorkerId)

  function Empty(): State {
    State(map[], map[], map[], {}, 0, 0)
  }

  ghost predicate Enabled(s: State, step: Step) {
    match step
    case Insert(batch) =>
      && batch.Keys !! s.rows.Keys
      && forall id | id in batch :: batch[id] == NewRow(batch[id].eventId, batch[id].recipient, batch[id].createdAt)
    case Select(w, now, pick) =>
      && s.PhaseOf(w).Idle?
      && if pick.Some? then Selectable(s.rows, pick.value, now) else NoneEligible(s.rows, now)
    case Claim(w, _) => s.PhaseOf(w).Chosen?
    case SendReturns(w) => s.PhaseOf(w).Sending?
    case SendRaises(w, _) => s.PhaseOf(w).Sending?
    case Mark(w) => s.PhaseOf(w).Sent?
    case Fail(w) => s.PhaseOf(w).Raised?
    case Crash(w) => true
  }

  function HistoryOf(s: State, id: RowId): History {
    if id in s.history then s.history[id] else History(0, 0)
  }

  function ApplyClaim(s: State, w: WorkerId, id: RowId, now: int, lease: int): State {
    if id in s.rows && Eligible(s.rows[id], now) then
      var h := HistoryOf(s, id);
      var reclaimed := if s.rows[id].status.Processing? then 1 else 0;
      s.(rows := ClaimUpdate(s.rows, id, w, now, now + lease),
         history := s.history[id := h.(reclaims := h.reclaims + reclaimed)])
      .Move(w, Sending(id, s.rows[id].attempts + 1))
    else
      s.Move(w, Idle)
  }

  function ApplyMark(s: State, w: WorkerId, id: RowId): State {
    s.(rows := MarkUpdate(s.rows, id, w),
       reported := s.reported + 1,
       stale := if id in s.rows && Holds(s.rows[id], w) then s.stale else s.stale + 1)
    .Move(w, Idle)
  }

  function ApplyFail(s: State, w: WorkerId, id: RowId, error: string, max: int): State {
    if id in s.rows && Holds(s.rows[id], w) then
      var h := HistoryOf(s, id);
      s.(rows := FailUpdate(s.rows, id, w, max, error),
         history := s.history[id := h.(failures := h.failures + 1)])
      .Move(w, Idle)
    else
      s.Move(w, Idle)
  }

  function Apply(s: State, step: Step, max: int): State {
    match step
    case Insert(batch) =>
      s.(rows := s.rows + batch, history := s.history + (map id | id in batch :: History(0, 0)))
    case Select(w, now, pick) =>
      if pick.Some? then s.Move(w, Chosen(pick.value, now)) else s
    case Claim(w, lease) =>
      var p := s.PhaseOf(w);
      if p.Chosen? then ApplyClaim(s, w, p.id, p.now, lease) else s
    case SendReturns(w) =>
      var p := s.PhaseOf(w);
      if p.Sending? then s.(sentOk := s.sentOk + {(p.id, p.claim)}).Move(w, Sent(p.id, p.claim)) else s
    case SendRaises(w, error) =>
      var p := s.PhaseOf(w);
      if p.Sending? then s.Move(w, Raised(p.id, p.claim, error)) else s
    case Mark(w) =>
      var p := s.PhaseOf(w);
      if p.Sent? then ApplyMark(s, w, p.id) else s
    case Fail(w) =>
      var p := s.PhaseOf(w);
      if p.Raised? then ApplyFail(s, w, p.id, p.error, max) else s
    case Crash(w) => s.Move(w, Idle)
  }

  ghost function Next(max: int): (State, Step, State) -> bool {
    (s: State, step: Step, t: State) => Enabled(s, step) && t == Apply(s, step, max)
  }

  /** Some run leads from one state to the other. */
  ghost predicate Leads(from: State, to: State, max: int) {
    Runs.Connects(Next(max), from, to)
  }

  /** The states of all runs that start with an empty table and idle workers. */
  ghost predicate Reachable(s: State, max: int) {
    Leads(Empty(), s, max)
  }

  // ---------------------------------------------------------------------------------------------------------------
  // What every step keeps

  function AtLeastOne(n: int): nat {
    if n < 1 then 1 else n
  }

  /** Well-formedness of one row. */
  predicate RowOk(r: Row, max: int) {
    && (r.status.Processing? <==> r.owner.Some?)
    && (r.status.Processing? <==> r.expires.Some?)
    && (r.status.Pending? <==> r.attempts == 0)
    && (r.status.Retry? ==> 1 <= r.attempts < max)
    && (r.status.DeadLetter? ==> r.attempts >= max)
    && (r.status.Pending? || r.status.Delivered? ==> r.lastError.None?)
    && (r.status.Retry? || r.status.DeadLetter? ==> r.lastError.Some? && |r.lastError.value| <= 1000)
  }

  /** Where a row's attempts went, and how many of its failures may have been written. */
  predicate Accounted(r: Row, h: History, max: int) {
    && r.attempts == h.failures + h.reclaims + (if r.status.Processing? || r.status.Delivered? then 1 else 0)
    && h.failures <= (if r.status.DeadLetter? then AtLeastOne(max) else AtLeastOne(max) - 1)
  }

  /** The owner test of the program decides whether a claim is the row's latest. */
  predicate Fenced(rows: Rows, w: WorkerId, p: Phase) {
    p.InFlight() ==>
      && p.id in rows
      && 1 <= p.claim <= rows[p.id].attempts
      && (Holds(rows[p.id], w) <==> p.claim == rows[p.id].attempts)
  }

  function DeliveredIds(rows: Rows): set<RowId> {
    set id | id in rows && rows[id].status.Delivered?
  }

  predicate RowInv(s: State, id: RowId, max: int)
    requires id in s.rows
  {
    && id in s.history
    && RowOk(s.rows[id], max)
    && Accounted(s.rows[id], s.history[id], max)
    && (s.rows[id].status.Delivered? ==> (id, s.rows[id].attempts) in s.sentOk)
  }

  predicate WorkerInv(s: State, w: WorkerId) {
    var p := s.PhaseOf(w);
    && Fenced(s.rows, w, p)
    && (p.Chosen? ==> p.id in s.rows)
    && (p.Sent? ==> (p.id, p.claim) in s.sentOk)
  }

  ghost predicate Inv(s: State, max: int) {
    && (forall id | id in s.rows :: RowInv(s, id, max))
    && (forall w: WorkerId :: WorkerInv(s, w))
    && s.reported == |DeliveredIds(s.rows)| + s.stale
  }

  lemma InsertKeepsInv(s: State, batch: Rows, max: int)
    requires Inv(s, max) && Enabled(s, Insert(batch))
    ensures Inv(Apply(s, Insert(batch), max), max)
  {
    var t := Apply(s, Insert(batch), max);
    forall id | id in t.rows ensures RowInv(t, id, max) {
      if id in batch {
        assert t.rows[id] == NewRow(batch[id].eventId, batch[id].recipient, batch[id].createdAt);
      } else {
        assert RowInv(s, id, max);
      }
    }
    forall w: WorkerId ensures WorkerInv(t, w) {
      assert WorkerInv(s, w);
    }
    assert DeliveredIds(t.rows) == DeliveredIds(s.rows);
  }

  lemma ClaimedRowKeepsInv(r: Row, h: History, w: WorkerId, now: int, expires: int, max: int)
    requires Eligible(r, now) && RowOk(r, max) && Accounted(r, h, max)
    ensures RowOk(ClaimedRow(r, w, expires), max)
    ensures Accounted(ClaimedRow(r, w, expires), h.(reclaims := h.reclaims + if r.status.Processing? then 1 else 0),
                max)
  {
  }

  /** The new claim number is above every older one, and the owner test turns against every other worker. */
  lemma ClaimKeepsInv(s: State, w: WorkerId, id: RowId, now: int, lease: int, max: int)
    requires Inv(s, max) && id in s.rows && Eligible(s.rows[id], now)
    ensures Inv(ApplyClaim(s, w, id, now, lease), max)
  {
    var t := ApplyClaim(s, w, id, now, lease);
    assert t.rows == s.rows[id := ClaimedRow(s.rows[id], w, now + lease)];
    assert RowInv(s, id, max);
    ClaimedRowKeepsInv(s.rows[id], s.history[id], w, now, now + lease, max);
    forall k | k in t.rows ensures RowInv(t, k, max) {
      if k != id {
        assert RowInv(s, k, max);
      }
    }
    forall v: WorkerId ensures WorkerInv(t, v) {
      assert WorkerInv(s, v);
      if v == w {
        assert t.PhaseOf(v) == Sending(id, s.rows[id].attempts + 1);
      } else {
        assert t.PhaseOf(v) == s.PhaseOf(v);
      }
    }
    assert DeliveredIds(t.rows) == DeliveredIds(s.rows);
  }

  lemma MarkKeepsInv(s: State, w: WorkerId, max: int)
    requires Inv(s, max) && s.PhaseOf(w).Sent?
    ensures Inv(ApplyMark(s, w, s.PhaseOf(w).id), max)
  {
    var id := s.PhaseOf(w).id;
    var t := ApplyMark(s, w, id);
    assert WorkerInv(s, w);
    forall k | k in t.rows ensures RowInv(t, k, max) {
      assert RowInv(s, k, max);
    }
    forall v: WorkerId ensures WorkerInv(t, v) {
      assert WorkerInv(s, v);
    }
    if Holds(s.rows[id], w) {
      assert DeliveredIds(t.rows) == DeliveredIds(s.rows) + {id};
    }
  }

  lemma FailKeepsInv(s: State, w: WorkerId, error: string, max: int)
    requires Inv(s, max) && s.PhaseOf(w).Raised?
    ensures Inv(ApplyFail(s, w, s.PhaseOf(w).id, error, max), max)
  {
    var t := ApplyFail(s, w, s.PhaseOf(w).id, error, max);
    assert WorkerInv(s, w);
    forall k | k in t.rows ensures RowInv(t, k, max) {
      assert RowInv(s, k, max);
    }
    forall v: WorkerId ensures WorkerInv(t, v) {
      assert WorkerInv(s, v);
    }
    assert DeliveredIds(t.rows) == DeliveredIds(s.rows);
  }

  /** A step that only moves one worker to a phase that is in order. */
  lemma MoveKeepsInv(s: State, w: WorkerId, p: Phase, max: int)
    requires Inv(s, max) && WorkerInv(s.Move(w, p), w)
    ensures Inv(s.Move(w, p), max)
  {
    var t := s.Move(w, p);
    forall k | k in t.rows ensures RowInv(t, k, max) {
      assert RowInv(s, k, max);
    }
    forall v: WorkerId ensures WorkerInv(t, v) {
      assert WorkerInv(s, v);
    }
  }

  lemma SentKeepsInv(s: State, w: WorkerId, max: int)
    requires Inv(s, max) && s.PhaseOf(w).Sending?
    ensures Inv(Apply(s, SendReturns(w), max), max)
  {
    var p := s.PhaseOf(w);
    var t := s.(sentOk := s.sentOk + {(p.id, p.claim)});
    forall k | k in t.rows ensures RowInv(t, k, max) {
      assert RowInv(s, k, max);
    }
    forall v: WorkerId ensures WorkerInv(t, v) {
      assert WorkerInv(s, v);
    }
    assert WorkerInv(t, w);
    MoveKeepsInv(t, w, Sent(p.id, p.claim), max);
  }

  lemma {:induction false} StepKeepsInv(s: State, step: Step, max: int)
    requires Inv(s, max) && Enabled(s, step)
    ensures Inv(Apply(s, step, max), max)
  {
    match step
    case Insert(batch) => InsertKeepsInv(s, batch, max);
    case Select(w, now, pick) =>
      if pick.Some? { MoveKeepsInv(s, w, Chosen(pick.value, now), max); }
    case Claim(w, lease) =>
      var p := s.PhaseOf(w);
      assert WorkerInv(s, w);
      if Eligible(s.rows[p.id], p.now) {
        ClaimKeepsInv(s, w, p.id, p.now, lease, max);
      } else {
        MoveKeepsInv(s, w, Idle, max);
      }
    case SendReturns(w) => SentKeepsInv(s, w, max);
    case SendRaises(w, error) =>
      assert WorkerInv(s, w);
      MoveKeepsInv(s, w, Raised(s.PhaseOf(w).id, s.PhaseOf(w).claim, error), max);
    case Mark(w) => MarkKeepsInv(s, w, max);
    case Fail(w) => FailKeepsInv(s, w, s.PhaseOf(w).error, max);
    case Crash(w) => MoveKeepsInv(s, w, Idle, max);
  }

  lemma EmptyInv(max: int)
    ensures Inv(Empty(), max)
  {
    assert DeliveredIds(Empty().rows) == {};
  }

  // ---------------------------------------------------------------------------------------------------------------
  // Safety over whole runs

  lemma LeadsSelf(s: State, max: int)
    ensures Leads(s, s, max)
  {
    Runs.ConnectsSelf(Next(max), s);
  }

  lemma LeadsOneMore(from: State, s: State, step: Step, max: int)
    requires Leads(from, s, max) && Enabled(s, step)
    ensures Leads(from, Apply(s, step, max), max)
  {
    Runs.ConnectsOneMore(Next(max), from, s, step, Apply(s, step, max));
  }

  lemma ReachableInv(s: State, max: int)
    requires Reachable(s, max)
    ensures Inv(s, max)
  {
    var p := (s: State) => Inv(s, max);
    EmptyInv(max);
    forall s: State, step, t | p(s) && Next(max)(s, step, t) ensures p(t) {
      StepKeepsInv(s, step, max);
    }
    Runs.ConnectsKeeps(Next(max), p, Empty(), s);
  }

  lemma MarkIffLatestClaim(s: State, max: int, w: WorkerId)
    requires WorkerInv(s, w) && s.PhaseOf(w).Sent?
    ensures
      var p := s.PhaseOf(w);
      && p.id in s.rows && p.claim <= s.rows[p.id].attempts
      && Apply(s, Mark(w), max).rows ==
         (if p.claim == s.rows[p.id].attempts then s.rows[p.id := DeliveredRow(s.rows[p.id])] else s.rows)
      && (Apply(s, Mark(w), max).rows != s.rows <==> p.claim == s.rows[p.id].attempts)
  {
    var p := s.PhaseOf(w);
    var rows := Apply(s, Mark(w), max).rows;
    assert rows == MarkUpdate(s.rows, p.id, w);
    if Holds(s.rows[p.id], w) {
      assert rows[p.id].status.Delivered?;
    }
  }

  lemma FailIffLatestClaim(s: State, max: int, w: WorkerId)
    requires WorkerInv(s, w) && s.PhaseOf(w).Raised?
    ensures
      var p := s.PhaseOf(w);
      && p.id in s.rows && p.claim <= s.rows[p.id].attempts
      && Apply(s, Fail(w), max).rows ==
         (if p.claim == s.rows[p.id].attempts then s.rows[p.id := FailedRow(s.rows[p.id], max, p.error)] else s.rows)
      && (Apply(s, Fail(w), max).rows != s.rows <==> p.claim == s.rows[p.id].attempts)
  {
    var p := s.PhaseOf(w);
    var rows := Apply(s, Fail(w), max).rows;
    assert rows == FailUpdate(s.rows, p.id, w, max, p.error);
    if Holds(s.rows[p.id], w) {
      assert !rows[p.id].status.Processing?;
    }
  }

  /** Fencing. However workers, clocks, expiries and crashes interleave, a finalising write takes effect exactly when
      the writer's claim is the row's latest, and then it changes that row alone. */
  lemma FinaliseIffLatestClaim(s: State, max: int, w: WorkerId) returns (p: Phase)
    requires Reachable(s, max)
    ensures p == s.PhaseOf(w)
    ensures p.Sent? ==>
              && p.id in s.rows && p.claim <= s.rows[p.id].attempts
              && Apply(s, Mark(w), max).rows ==
                 (if p.claim == s.rows[p.id].attempts then s.rows[p.id := DeliveredRow(s.rows[p.id])] else s.rows)
              && (Apply(s, Mark(w), max).rows != s.rows <==> p.claim == s.rows[p.id].attempts)
    ensures p.Raised? ==>
              && p.id in s.rows && p.claim <= s.rows[p.id].attempts
              && Apply(s, Fail(w), max).rows ==
                 (if p.claim == s.rows[p.id].attempts then s.rows[p.id := FailedRow(s.rows[p.id], max, p.error)]
                  else s.rows)
              && (Apply(s, Fail(w), max).rows != s.rows <==> p.claim == s.rows[p.id].attempts)
  {
    ReachableInv(s, max);
    p := s.PhaseOf(w);
    assert WorkerInv(s, w);
    if p.Sent? {
      MarkIffLatestClaim(s, max, w);
    } else if p.Raised? {
      FailIffLatestClaim(s, max, w);
    }
  }

  /** Two workers never both hold the latest claim on a row. */
  lemma LatestClaimHasOneHolder(s: State, max: int, v: WorkerId, w: WorkerId)
    requires Reachable(s, max)
    requires s.PhaseOf(v).InFlight() && s.PhaseOf(w).InFlight() && s.PhaseOf(v).id == s.PhaseOf(w).id
    requires s.PhaseOf(v).id in s.rows
    requires s.PhaseOf(v).claim == s.PhaseOf(w).claim == s.rows[s.PhaseOf(v).id].attempts
    ensures v == w
  {
    ReachableInv(s, max);
    assert WorkerInv(s, v) && WorkerInv(s, w);
  }

  /** Every reachable row is well formed, its attempts are its failures plus its reclaims plus the open or delivering
      claim, its written failures stay within the retry budget, and a delivered row's last claim was sent normally. */
  lemma ReachableRow(s: State, max: int, id: RowId) returns (r: Row, h: History)
    requires Reachable(s, max) && id in s.rows
    ensures r == s.rows[id] && id in s.history && h == s.history[id]
    ensures (r.status.Processing? <==> r.owner.Some?) && (r.status.Processing? <==> r.expires.Some?)
    ensures r.status.Pending? <==> r.attempts == 0
    ensures r.status.Retry? ==> 1 <= r.attempts < max
    ensures r.status.DeadLetter? ==> r.attempts >= max
    ensures r.attempts == h.failures + h.reclaims + (if r.status.Processing? || r.status.Delivered? then 1 else 0)
    ensures h.failures <= (if max < 1 then 1 else max) && r.attempts - h.reclaims <= (if max < 1 then 1 else max)
    ensures r.status.Delivered? ==> (id, r.attempts) in s.sentOk
  {
    ReachableInv(s, max);
    assert RowInv(s, id, max);
    r, h := s.rows[id], s.history[id];
  }

  lemma FinalRowStepStays(s: State, step: Step, max: int, id: RowId)
    requires Enabled(s, step) && id in s.rows && Final(s.rows[id])
    ensures id in Apply(s, step, max).rows && Apply(s, step, max).rows[id] == s.rows[id]
  {
  }

  /** Delivered and dead-lettered rows are absorbing: no step of any run writes them again. */
  lemma FinalRowsStay(s: State, t: State, max: int, id: RowId)
    requires Leads(s, t, max) && id in s.rows && Final(s.rows[id])
    ensures id in t.rows && t.rows[id] == s.rows[id]
  {
    var p := (u: State) => id in u.rows && u.rows[id] == s.rows[id];
    forall u, step, v | p(u) && Next(max)(u, step, v) ensures p(v) {
      FinalRowStepStays(u, step, max, id);
    }
    Runs.ConnectsKeeps(Next(max), p, s, t);
  }

  /** No row is stuck: once clocks have passed some instant, a row that is not final can be claimed. */
  lemma NoRowIsStuck(s: State, max: int, id: RowId) returns (from: int)
    requires Reachable(s, max) && id in s.rows && !Final(s.rows[id])
    ensures forall now: int | now >= from :: Eligible(s.rows[id], now)
  {
    ReachableInv(s, max);
    assert RowInv(s, id, max);
    from := if s.rows[id].status.Processing? then s.rows[id].expires.value else 0;
  }

  /** A claim breaks the retry budget exactly when it takes over an expired lease of the last permitted attempt. */
  lemma ClaimKeepsBudgetIff(s: State, max: int, w: WorkerId, lease: int)
    requires Reachable(s, max) && s.PhaseOf(w).Chosen? && s.PhaseOf(w).id in s.rows
    requires Eligible(s.rows[s.PhaseOf(w).id], s.PhaseOf(w).now)
    requires s.rows[s.PhaseOf(w).id].attempts <= AtLeastOne(max)
    ensures
      var id := s.PhaseOf(w).id;
      Apply(s, Claim(w, lease), max).rows[id].attempts <= AtLeastOne(max)
      <==> !(s.rows[id].status.Processing? && s.rows[id].attempts == AtLeastOne(max))
  {
    ReachableInv(s, max);
    assert RowInv(s, s.PhaseOf(w).id, max);
  }

  /** The counters of all workers together exceed the rows delivered by exactly the stale reports. */
  lemma ReportedIsDeliveredPlusStale(s: State, max: int)
    requires Reachable(s, max)
    ensures s.reported == |DeliveredIds(s.rows)| + s.stale
    ensures s.reported == |DeliveredIds(s.rows)| <==> s.stale == 0
  {
    ReachableInv(s, max);
  }

  // ---------------------------------------------------------------------------------------------------------------
  // What one worker sees of the others

  predicate NotBy(step: Step, w: WorkerId) {
    match step
    case Insert(_) => true
    case Select(v, _, _) => v != w
    case Claim(v, _) => v != w
    case SendReturns(v) => v != w
    case SendRaises(v, _) => v != w
    case Mark(v) => v != w
    case Fail(v) => v != w
    case Crash(v) => v != w
  }

  ghost function OthersStep(w: WorkerId, max: int): (State, Step, State) -> bool {
    (s: State, step: Step, t: State) => NotBy(step, w) && Next(max)(s, step, t)
  }

  /** Some run without a step of `w` leads from one state to the other. */
  ghost predicate OthersLead(from: State, to: State, w: WorkerId, max: int) {
    Runs.Connects(OthersStep(w, max), from, to)
  }

  lemma OthersLeaveWorker(s: State, step: Step, w: WorkerId, max: int)
    requires NotBy(step, w) && Enabled(s, step)
    ensures Apply(s, step, max).PhaseOf(w) == s.PhaseOf(w) && Apply(s, step, max).reported >= s.reported
  {
  }

  /** Others may add reports of their own, and leave the worker where it is. */
  lemma OthersKeep(start: State, from: State, to: State, w: WorkerId, max: int)
    requires Leads(start, from, max) && OthersLead(from, to, w, max)
    ensures Leads(start, to, max) && to.PhaseOf(w) == from.PhaseOf(w) && to.reported >= from.reported
  {
    var p := (s: State) => Leads(start, s, max) && s.PhaseOf(w) == from.PhaseOf(w) && s.reported >= from.reported;
    forall s, step, t | p(s) && OthersStep(w, max)(s, step, t) ensures p(t) {
      LeadsOneMore(start, s, step, max);
      OthersLeaveWorker(s, step, w, max);
    }
    Runs.ConnectsKeeps(OthersStep(w, max), p, from, to);
  }

  // ---------------------------------------------------------------------------------------------------------------
  // `_fail` as two statements

  /** What the write of `_fail` does when it is separated from its read: an update by primary key that trusts `seen`.
      Only columns that differ from what was read are written, so an error text that was there before is left to the
      row. */
  function FailWriteBack(rows: Rows, id: RowId, seen: Row, max: int, error: string): Rows
    requires id in rows
  {
    var r := FailedRow(seen, max, error);
    var kept := r.lastError == seen.lastError;
    rows[id := rows[id].(status := r.status, owner := None, expires := None,
                         lastError := if kept then rows[id].lastError else r.lastError)]
  }

  /** While `w` is busy, another worker's step leaves the row that `w` holds alone or takes it over with a higher
      claim. */
  lemma OthersLeaveHeldRow(s: State, step: Step, w: WorkerId, id: RowId, max: int)
    requires NotBy(step, w) && Enabled(s, step) && id in s.rows
    ensures id in Apply(s, step, max).rows && s.rows[id].attempts <= Apply(s, step, max).rows[id].attempts
    ensures Holds(s.rows[id], w) ==>
              || Apply(s, step, max).rows[id] == s.rows[id]
              || s.rows[id].attempts < Apply(s, step, max).rows[id].attempts
  {
  }

  lemma HeldRowStays(first: State, s: State, w: WorkerId, id: RowId, max: int)
    requires id in first.rows && Holds(first.rows[id], w) && OthersLead(first, s, w, max)
    ensures id in s.rows && (s.rows[id] == first.rows[id] || first.rows[id].attempts < s.rows[id].attempts)
  {
    var seen := first.rows[id];
    var p := (u: State) => id in u.rows && (u.rows[id] == seen || seen.attempts < u.rows[id].attempts);
    forall u, step, v | p(u) && OthersStep(w, max)(u, step, v) ensures p(v) {
      assert Next(max)(u, step, v);
      OthersLeaveHeldRow(u, step, w, id, max);
    }
    Runs.ConnectsKeeps(OthersStep(w, max), p, first, s);
  }

  /** The write against the fenced update, for one table. */
  lemma WriteBackIs(rows: Rows, id: RowId, seen: Row, w: WorkerId, max: int, error: string)
    requires id in rows && RowOk(rows[id], max) && Holds(seen, w)
    requires rows[id] == seen || (seen.attempts < rows[id].attempts && !Holds(rows[id], w))
    ensures FailWriteBack(rows, id, seen, max, error) == FailUpdate(rows, id, w, max, error)
            <==> || rows[id].attempts == seen.attempts
                 || (rows[id].status == FailedRow(seen, max, error).status
                     && Some(Truncated(error)) in {rows[id].lastError, seen.lastError})
  {
    var row, written := rows[id], FailWriteBack(rows, id, seen, max, error);
    if row.attempts != seen.attempts {
      assert FailUpdate(rows, id, w, max, error) == rows;
      assert written == rows <==> written[id] == row;
    }
  }

  /** Split `_fail`: a worker reads the row it holds in `first`, others go on to `s`, and then it writes back by key.
      That does what the fenced update does exactly when nobody took the lease over, or the row has by now the status
      the write would give it, and the error too unless the write leaves the error out. */
  lemma SplitFailIsFencedIff(first: State, s: State, max: int, w: WorkerId)
    requires Reachable(first, max) && first.PhaseOf(w).Raised? && OthersLead(first, s, w, max)
    requires first.PhaseOf(w).id in first.rows && Holds(first.rows[first.PhaseOf(w).id], w)
    ensures
      var p := first.PhaseOf(w);
      var seen := first.rows[p.id];
      && p.id in s.rows
      && (FailWriteBack(s.rows, p.id, seen, max, p.error) == FailUpdate(s.rows, p.id, w, max, p.error)
          <==> || s.rows[p.id].attempts == seen.attempts
               || (s.rows[p.id].status == FailedRow(seen, max, p.error).status
                   && Some(Truncated(p.error)) in {s.rows[p.id].lastError, seen.lastError}))
  {
    var p := first.PhaseOf(w);
    var seen := first.rows[p.id];
    HeldRowStays(first, s, w, p.id, max);
    OthersKeep(Empty(), first, s, w, max);
    ReachableInv(first, max);
    ReachableInv(s, max);
    assert WorkerInv(first, w) && WorkerInv(s, w) && RowInv(s, p.id, max);
    WriteBackIs(s.rows, p.id, seen, w, max, p.error);
  }

  // ---------------------------------------------------------------------------------------------------------------
  // Runs that refute what one might expect

  lemma InsertFirst(batch: Rows, max: int) returns (s: State)
    requires forall id | id in batch :: batch[id] == NewRow(batch[id].eventId, batch[id].recipient, batch[id].createdAt)
    ensures Reachable(s, max) && s.rows == batch && s.reported == 0 && s.phases == map[]
  {
    LeadsSelf(Empty(), max);
    LeadsOneMore(Empty(), Empty(), Insert(batch), max);
    s := Apply(Empty(), Insert(batch), max);
  }

  /** One worker's select and claim of an eligible row. */
  lemma SelectAndClaim(from: State, s: State, max: int, w: WorkerId, id: RowId, now: int, lease: int) returns (t: State)
    requires Leads(from, s, max) && s.PhaseOf(w).Idle? && Selectable(s.rows, id, now)
    ensures Leads(from, t, max) && t.reported == s.reported
    ensures t.rows == s.rows[id := ClaimedRow(s.rows[id], w, now + lease)]
    ensures t.phases == s.phases[w := Sending(id, s.rows[id].attempts + 1)]
  {
    var chosen := s.Move(w, Chosen(id, now));
    assert chosen.PhaseOf(w) == Chosen(id, now);
    LeadsOneMore(from, s, Select(w, now, Some(id)), max);
    LeadsOneMore(from, chosen, Claim(w, lease), max);
    t := ApplyClaim(chosen, w, id, now, lease);
    assert t.phases == s.phases[w := Sending(id, s.rows[id].attempts + 1)];
  }

  lemma SendReturning(from: State, s: State, max: int, w: WorkerId) returns (t: State)
    requires Leads(from, s, max) && s.PhaseOf(w).Sending?
    ensures Leads(from, t, max) && t.rows == s.rows && t.reported == s.reported
    ensures t.phases == s.phases[w := Sent(s.PhaseOf(w).id, s.PhaseOf(w).claim)]
  {
    LeadsOneMore(from, s, SendReturns(w), max);
    t := Apply(s, SendReturns(w), max);
  }

  lemma SendRaising(from: State, s: State, max: int, w: WorkerId, error: string) returns (t: State)
    requires Leads(from, s, max) && s.PhaseOf(w).Sending?
    ensures Leads(from, t, max) && t.rows == s.rows && t.reported == s.reported
    ensures t.phases == s.phases[w := Raised(s.PhaseOf(w).id, s.PhaseOf(w).claim, error)]
  {
    LeadsOneMore(from, s, SendRaises(w, error), max);
    t := Apply(s, SendRaises(w, error), max);
  }

  lemma Marking(from: State, s: State, max: int, w: WorkerId) returns (t: State)
    requires Leads(from, s, max) && s.PhaseOf(w).Sent?
    ensures Leads(from, t, max) && t.reported == s.reported + 1
    ensures t.rows == MarkUpdate(s.rows, s.PhaseOf(w).id, w) && t.phases == s.phases[w := Idle]
  {
    LeadsOneMore(from, s, Mark(w), max);
    t := Apply(s, Mark(w), max);
  }

  /** Row 7 is claimed by worker 1 until time 10 ... */
  lemma FirstClaim(max: int) returns (s: State)
    ensures Reachable(s, max) && s.rows == map[7 := Row(0, 0, 0, Processing, 1, Some(1), Some(10), None)]
    ensures s.phases == map[1 := Sending(7, 1)] && s.reported == 0
  {
    s := InsertFirst(map[7 := NewRow(0, 0, 0)], max);
    s := SelectAndClaim(Empty(), s, max, 1, 7, 0, 10);
  }

  /** Worker 1 claims the only row. */
  lemma ClaimOnlyRow(s: State, max: int, r: Row, now: int) returns (t: State)
    requires Reachable(s, max) && s.PhaseOf(1).Idle? && s.rows == map[7 := r] && Eligible(r, now)
             && s.phases.Keys == {1}
    ensures Reachable(t, max) && t.rows == map[7 := ClaimedRow(r, 1, now + 10)]
    ensures t.phases == map[1 := Sending(7, r.attempts + 1)]
  {
    t := SelectAndClaim(Empty(), s, max, 1, 7, now, 10);
  }

  /** ... and worker 2 takes it over at time 10. */
  lemma Takeover(max: int) returns (s: State)
    ensures Reachable(s, max) && s.rows == map[7 := Row(0, 0, 0, Processing, 2, Some(2), Some(20), None)]
    ensures s.PhaseOf(1) == Sending(7, 1) && s.PhaseOf(2) == Sending(7, 2) && s.reported == 0
  {
    s := FirstClaim(max);
    s := SelectAndClaim(Empty(), s, max, 2, 7, 10, 10);
  }

  /** `attempts <= max_attempts` is not an invariant: a row whose worker dies on every attempt is claimed any number
      of times, and stays in processing instead of becoming a dead letter. */
  lemma {:induction false} AttemptsCanExceedMax(max: int, n: nat) returns (s: State)
    requires n >= 1
    ensures Reachable(s, max) && s.rows == map[7 := Row(0, 0, 0, Processing, n, Some(1), Some(10 * n), None)]
    ensures s.phases == map[1 := Sending(7, n)]
    decreases n
  {
    if n == 1 {
      s := FirstClaim(max);
    } else {
      s := AttemptsCanExceedMax(max, n - 1);
      LeadsOneMore(Empty(), s, Crash(1), max);
      s := s.Move(1, Idle);
      assert s.PhaseOf(1) == Idle;
      s := ClaimOnlyRow(s, max, Row(0, 0, 0, Processing, n - 1, Some(1), Some(10 * (n - 1)), None), 10 * (n - 1));
    }
  }

  /** The returned counts can exceed the rows delivered. */
  lemma CountsCanExceedDeliveries(max: int) returns (s: State)
    ensures Reachable(s, max) && s.reported == 2 && |DeliveredIds(s.rows)| == 1
  {
    s := Takeover(max);
    s := SendReturning(Empty(), s, max, 1);
    s := SendReturning(Empty(), s, max, 2);
    s := Marking(Empty(), s, max, 1);
    s := Marking(Empty(), s, max, 2);
    assert DeliveredIds(s.rows) == {7};
  }

  /** Split in two statements, `_fail` of a worker that read its own claim in `first` and writes back in `s` turns a
      delivered row into a row to retry; the guarded write would have left it alone. */
  lemma SplitFailRevivesDelivery(max: int, error: string) returns (first: State, s: State)
    requires max > 1
    ensures Reachable(first, max) && Leads(first, s, max)
    ensures first.PhaseOf(1) == s.PhaseOf(1) == Raised(7, 1, error)
    ensures 7 in first.rows && Holds(first.rows[7], 1) && 7 in s.rows && s.rows[7].status.Delivered?
    ensures FailUpdate(s.rows, 7, 1, max, error) == s.rows
    ensures FailWriteBack(s.rows, 7, first.rows[7], max, error)[7].status.Retry?
  {
    first := FirstClaim(max);
    first := SendRaising(Empty(), first, max, 1, error);
    LeadsSelf(first, max);
    s := SelectAndClaim(first, first, max, 2, 7, 10, 10);
    s := SendReturning(first, s, max, 2);
    s := Marking(first, s, max, 2);
  }

  lemma Failing(from: State, s: State, max: int, w: WorkerId) returns (t: State)
    requires Leads(from, s, max) && s.PhaseOf(w).Raised?
    ensures Leads(from, t, max) && t.phases == s.phases[w := Idle]
    ensures t.rows == FailUpdate(s.rows, s.PhaseOf(w).id, w, max, s.PhaseOf(w).error)
  {
    LeadsOneMore(from, s, Fail(w), max);
    t := Apply(s, Fail(w), max);
  }

  /** In the same way it turns a dead letter back into a row to retry. */
  lemma SplitFailRevivesDeadLetter(error: string) returns (first: State, s: State)
    ensures Reachable(first, 2) && Leads(first, s, 2)
    ensures first.PhaseOf(1) == s.PhaseOf(1) == Raised(7, 1, error)
    ensures 7 in first.rows && Holds(first.rows[7], 1) && 7 in s.rows && s.rows[7].status.DeadLetter?
    ensures FailUpdate(s.rows, 7, 1, 2, error) == s.rows
    ensures FailWriteBack(s.rows, 7, first.rows[7], 2, error)[7].status.Retry?
  {
    first := FirstClaim(2);
    first := SendRaising(Empty(), first, 2, 1, error);
    LeadsSelf(first, 2);
    s := SelectAndClaim(first, first, 2, 2, 7, 10, 10);
    s := SendRaising(first, s, 2, 2, error);
    s := Failing(first, s, 2, 2);
  }

  /** The guard of the claim update evaluates eligibility again, so a worker that was overtaken changes no row and
      stops. */
  lemma LateClaimIsNoOp(s: State, max: int, w: WorkerId, id: RowId, now: int, lease: int)
    requires s.PhaseOf(w) == Chosen(id, now) && id in s.rows && !Eligible(s.rows[id], now)
    ensures Apply(s, Claim(w, lease), max) == s.Move(w, Idle)
  {
  }

  /** Of two workers that selected the same row, the first to claim takes it, and the second one's claim matches
      exactly when its clock reading is past the lease the first has just taken; otherwise it changes no row and the
      worker stops. */
  lemma RacingClaims(s: State, max: int, v: WorkerId, w: WorkerId, leaseV: int, leaseW: int)
    requires s.PhaseOf(v).Chosen? && s.PhaseOf(w).Chosen? && v != w && s.PhaseOf(v).id == s.PhaseOf(w).id
    requires s.PhaseOf(v).id in s.rows && Eligible(s.rows[s.PhaseOf(v).id], s.PhaseOf(v).now)
    ensures
      var id, first := s.PhaseOf(v).id, Apply(s, Claim(v, leaseV), max);
      var second := Apply(first, Claim(w, leaseW), max);
      && id in first.rows && Holds(first.rows[id], v) && id in second.rows
      && (Holds(second.rows[id], w) <==> s.PhaseOf(v).now + leaseV <= s.PhaseOf(w).now)
      && (second.rows != first.rows <==> s.PhaseOf(v).now + leaseV <= s.PhaseOf(w).now)
      && (second.PhaseOf(w).Idle? <==> s.PhaseOf(w).now < s.PhaseOf(v).now + leaseV)
  {
    var id, first := s.PhaseOf(v).id, Apply(s, Claim(v, leaseV), max);
    var second := Apply(first, Claim(w, leaseW), max);
    assert first.PhaseOf(w) == s.PhaseOf(w);
    assert first.rows[id] == ClaimedRow(s.rows[id], v, s.PhaseOf(v).now + leaseV);
    if s.PhaseOf(v).now + leaseV <= s.PhaseOf(w).now {
      assert second.rows[id].attempts == first.rows[id].attempts + 1;
    } else {
      LateClaimIsNoOp(first, max, w, id, s.PhaseOf(w).now, leaseW);
    }
  }

  /** `deliver_pending` can stop with work left: worker 2 loses the race for row 7 and returns although row 8 is
      eligible. */
  lemma ContendedWorkerStopsEarly(max: int) returns (s: State)
    ensures Reachable(s, max) && s.PhaseOf(2) == Chosen(7, 0) && Apply(s, Claim(2, 10), max).PhaseOf(2).Idle?
    ensures 8 in s.rows && Eligible(s.rows[8], 0)
  {
    var batch := map[7 := NewRow(0, 0, 0), 8 := NewRow(1, 0, 1)];
    s := InsertFirst(batch, max);
    assert Selectable(batch, 7, 0);
    var chosen := Apply(s, Select(2, 0, Some(7)), max);
    LeadsOneMore(Empty(), s, Select(2, 0, Some(7)), max);
    s := SelectAndClaim(Empty(), chosen, max, 1, 7, 0, 10);
    LateClaimIsNoOp(s, max, 2, 7, 0, 10);
  }
}
