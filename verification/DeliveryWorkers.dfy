/** The delivery worker's own loop, run alone against the table, as the methods of `delivery_worker.py`. */
module DeliveryWorkers {
  import opened Prelude
  import opened Leases

  /** One turn of the loop: the row claimed, the clock reading it was claimed at, and the error its send raised, if
      any. */
  datatype Attempt = Attempt(id: RowId, now: int, error: Option<string>)

  datatype Config = Config(worker: WorkerId, lease: int, max: int)

  /** What one attempt does to the table. */
  function After(rows: Rows, a: Attempt, c: Config): Rows {
    var claimed := ClaimUpdate(rows, a.id, c.worker, a.now, a.now + c.lease);
    if a.error.None? then MarkUpdate(claimed, a.id, c.worker)
    else FailUpdate(claimed, a.id, c.worker, c.max, a.error.value)
  }

  function Replay(rows: Rows, trace: seq<Attempt>, c: Config): Rows
    decreases |trace|
  {
    if trace == [] then rows else After(Replay(rows, trace[..|trace| - 1], c), trace[|trace| - 1], c)
  }

  /** A trace in which every attempt is on a row the select statement may return at that moment. */
  ghost predicate LoneTrace(rows: Rows, trace: seq<Attempt>, c: Config)
    decreases |trace|
  {
    trace == [] ||
    (LoneTrace(rows, trace[..|trace| - 1], c)
     && Selectable(Replay(rows, trace[..|trace| - 1], c), trace[|trace| - 1].id, trace[|trace| - 1].now))
  }

  /** The trace used the readings of `clock` and met the outcomes of `sender`, in order. */
  ghost predicate Follows(trace: seq<Attempt>, clock: nat -> int, sender: nat -> Option<string>) {
    forall i | 0 <= i < |trace| :: trace[i].now == clock(i) && trace[i].error == sender(i)
  }

  lemma FollowsExtends(trace: seq<Attempt>, a: Attempt, clock: nat -> int, sender: nat -> Option<string>)
    requires Follows(trace, clock, sender) && a.now == clock(|trace|) && a.error == sender(|trace|)
    ensures Follows(trace + [a], clock, sender)
  {
  }

  function NormalSends(trace: seq<Attempt>): nat {
    if trace == [] then 0
    else NormalSends(trace[..|trace| - 1]) + (if trace[|trace| - 1].error.None? then 1 else 0)
  }

  // ---------------------------------------------------------------------------------------------------------------
  // Termination measure

  /** How many more attempts a row can take from a worker that is alone. */
  function Weight(r: Row, max: int): nat {
    if Final(r) then 0 else AtLeastOne(max - r.attempts)
  }

  ghost function WeightAt(rows: Rows, max: int): RowId -> int {
    id => if id in rows then Weight(rows[id], max) else 0
  }

  ghost function Load(rows: Rows, max: int): nat {
    TotalNonNegative(rows.Keys, WeightAt(rows, max));
    Total(rows.Keys, WeightAt(rows, max))
  }

  lemma AttemptEffect(rows: Rows, a: Attempt, c: Config)
    requires a.id in rows && Eligible(rows[a.id], a.now)
    ensures
      var r := ClaimedRow(rows[a.id], c.worker, a.now + c.lease);
      After(rows, a, c) == rows[a.id := if a.error.None? then DeliveredRow(r) else FailedRow(r, c.max, a.error.value)]
  {
  }

  lemma AttemptLowersLoad(rows: Rows, a: Attempt, c: Config)
    requires a.id in rows && Eligible(rows[a.id], a.now)
    ensures Load(After(rows, a, c), c.max) < Load(rows, c.max)
  {
    AttemptEffect(rows, a, c);
    var rows' := After(rows, a, c);
    assert rows'.Keys == rows.Keys;
    TotalShift(rows.Keys, WeightAt(rows, c.max), WeightAt(rows', c.max), a.id);
  }

  /** A finished turn extends the trace and lowers the load. */
  lemma TurnExtendsTrace(rows: Rows, trace: seq<Attempt>, a: Attempt, c: Config, before: Rows, mid: Rows, after: Rows)
    requires LoneTrace(rows, trace, c) && before == Replay(rows, trace, c)
    requires Selectable(before, a.id, a.now)
    requires mid == ClaimUpdate(before, a.id, c.worker, a.now, a.now + c.lease)
    requires after == if a.error.None? then MarkUpdate(mid, a.id, c.worker)
                      else FailUpdate(mid, a.id, c.worker, c.max, a.error.value)
    ensures LoneTrace(rows, trace + [a], c) && after == Replay(rows, trace + [a], c)
    ensures NormalSends(trace + [a]) == NormalSends(trace) + (if a.error.None? then 1 else 0)
    ensures Load(after, c.max) < Load(before, c.max)
  {
    assert after == After(before, a, c);
    assert (trace + [a])[..|trace + [a]| - 1] == trace;
    assert Load(after, c.max) < Load(before, c.max) by {
      AttemptLowersLoad(before, a, c);
    }
  }

  // ---------------------------------------------------------------------------------------------------------------
  // The loop among others

  /** One turn under contention, with the table as its three statements see it and as it leaves it. */
  datatype Turn = Turn(id: RowId, now: int, error: Option<string>, seen: Rows, met: Rows, late: Rows, left: Rows)

  /** The k-th turn of a loop, from the table `rows`. `world(3 * k + j, _)` is what others commit before the turn's
      j-th statement: the select, the claim, the finalising write. */
  ghost predicate TurnFrom(turn: Turn, k: nat, rows: Rows, now: int, error: Option<string>, world: (nat, Rows) -> Rows,
                           c: Config) {
    && turn.now == now && turn.error == error
    && turn.seen == world(3 * k, rows) && Selectable(turn.seen, turn.id, now)
    && turn.met == world(3 * k + 1, turn.seen) && turn.id in turn.met && Eligible(turn.met[turn.id], now)
    && turn.late == world(3 * k + 2, ClaimUpdate(turn.met, turn.id, c.worker, now, now + c.lease))
    && turn.left == (if error.None? then MarkUpdate(turn.late, turn.id, c.worker)
                     else FailUpdate(turn.late, turn.id, c.worker, c.max, error.value))
  }

  /** The loop ends here: nothing was eligible, or the selected row was not any more when the claim came. */
  ghost predicate StopsWith(k: nat, rows: Rows, id: Option<RowId>, now: int, world: (nat, Rows) -> Rows, left: Rows) {
    var seen := world(3 * k, rows);
    if id.None? then NoneEligible(seen, now) && left == seen
    else
      && Selectable(seen, id.value, now) && left == world(3 * k + 1, seen)
      && !(id.value in left && Eligible(left[id.value], now))
  }

  ghost predicate StopsAt(k: nat, rows: Rows, now: int, world: (nat, Rows) -> Rows, left: Rows) {
    exists id :: StopsWith(k, rows, id, now, world, left)
  }

  /** The table as the turns leave it. */
  function LeftBy(rows: Rows, trace: seq<Turn>): Rows {
    if trace == [] then rows else trace[|trace| - 1].left
  }

  /** The trace is turns of one loop, one after another. */
  ghost predicate TurnsFrom(rows: Rows, trace: seq<Turn>, clock: nat -> int, sender: nat -> Option<string>,
                            world: (nat, Rows) -> Rows, c: Config)
    decreases |trace|
  {
    trace == [] ||
    (var k, prior := |trace| - 1, trace[..|trace| - 1];
     && TurnsFrom(rows, prior, clock, sender, world, c)
     && TurnFrom(trace[k], k, LeftBy(rows, prior), clock(k), sender(k), world, c))
  }

  function NormalTurns(trace: seq<Turn>): nat {
    if trace == [] then 0
    else NormalTurns(trace[..|trace| - 1]) + (if trace[|trace| - 1].error.None? then 1 else 0)
  }

  lemma TurnsExtend(rows: Rows, trace: seq<Turn>, turn: Turn, clock: nat -> int, sender: nat -> Option<string>,
                    world: (nat, Rows) -> Rows, c: Config)
    requires TurnsFrom(rows, trace, clock, sender, world, c)
    requires TurnFrom(turn, |trace|, LeftBy(rows, trace), clock(|trace|), sender(|trace|), world, c)
    ensures TurnsFrom(rows, trace + [turn], clock, sender, world, c) && LeftBy(rows, trace + [turn]) == turn.left
    ensures NormalTurns(trace + [turn]) == NormalTurns(trace) + (if turn.error.None? then 1 else 0)
  {
    assert (trace + [turn])[..|trace + [turn]| - 1] == trace;
  }

  /** The worker still holds its row when a normal send's write comes. */
  predicate Delivers(turn: Turn, c: Config) {
    turn.error.None? && turn.id in turn.late && Holds(turn.late[turn.id], c.worker)
  }

  /** The rows that the final writes of the turns themselves moved to delivered, whatever others did in between. */
  function MovedToDelivered(trace: seq<Turn>): int {
    if trace == [] then 0
    else
      var last := trace[|trace| - 1];
      MovedToDelivered(trace[..|trace| - 1]) + |DeliveredIds(last.left)| - |DeliveredIds(last.late)|
  }

  lemma MarkMoves(rows: Rows, id: RowId, w: WorkerId)
    ensures |DeliveredIds(MarkUpdate(rows, id, w))| ==
            |DeliveredIds(rows)| + (if id in rows && Holds(rows[id], w) then 1 else 0)
  {
    if id in rows && Holds(rows[id], w) {
      assert DeliveredIds(MarkUpdate(rows, id, w)) == DeliveredIds(rows) + {id};
    }
  }

  lemma FailMovesNone(rows: Rows, id: RowId, w: WorkerId, max: int, error: string)
    ensures DeliveredIds(FailUpdate(rows, id, w, max, error)) == DeliveredIds(rows)
  {
  }

  lemma TurnMoves(turn: Turn, k: nat, rows: Rows, now: int, error: Option<string>, world: (nat, Rows) -> Rows,
                  c: Config)
    requires TurnFrom(turn, k, rows, now, error, world, c)
    ensures |DeliveredIds(turn.left)| == |DeliveredIds(turn.late)| + (if Delivers(turn, c) then 1 else 0)
  {
    if error.None? {
      MarkMoves(turn.late, turn.id, c.worker);
    } else {
      FailMovesNone(turn.late, turn.id, c.worker, c.max, error.value);
    }
  }

  /** Among others the count returned is at least the number of rows that this worker's own writes moved to
      delivered, and just that number exactly when the row was still held at every normal send's write. */
  lemma {:induction false} CountCoversDeliveries(rows: Rows, trace: seq<Turn>, clock: nat -> int,
                                                 sender: nat -> Option<string>, world: (nat, Rows) -> Rows, c: Config)
    requires TurnsFrom(rows, trace, clock, sender, world, c)
    ensures 0 <= MovedToDelivered(trace) <= NormalTurns(trace)
    ensures MovedToDelivered(trace) == NormalTurns(trace)
            <==> forall k | 0 <= k < |trace| && trace[k].error.None? :: Delivers(trace[k], c)
    decreases |trace|
  {
    if trace != [] {
      var k, prior := |trace| - 1, trace[..|trace| - 1];
      CountCoversDeliveries(rows, prior, clock, sender, world, c);
      TurnMoves(trace[k], k, LeftBy(rows, prior), clock(k), sender(k), world, c);
      assert trace == prior + [trace[k]];
    }
  }

  // ---------------------------------------------------------------------------------------------------------------
  // The worker

  class DeliveryTable {
    var rows: Rows

    constructor (rows: Rows)
      ensures this.rows == rows
    {
      this.rows := rows;
    }
  }

  lemma {:induction false} OldestExists(rows: Rows, ids: set<RowId>, now: int, id: RowId) returns (oldest: RowId)
    requires ids <= rows.Keys && id in ids && Eligible(rows[id], now)
    ensures oldest in ids && Eligible(rows[oldest], now)
    ensures forall k | k in ids && Eligible(rows[k], now) :: rows[oldest].createdAt <= rows[k].createdAt
    decreases ids
  {
    if k :| k in ids - {id} && Eligible(rows[k], now) {
      oldest := OldestExists(rows, ids - {id}, now, k);
      if rows[id].createdAt < rows[oldest].createdAt {
        oldest := id;
      }
    } else {
      oldest := id;
    }
  }

  class DeliveryWorker {
    const table: DeliveryTable
    const config: Config

    constructor (table: DeliveryTable, config: Config)
      ensures this.table == table && this.config == config
    {
      this.table := table;
      this.config := config;
    }

    /** `between` is what other sessions commit after the select statement and before the update. */
    method ClaimNext(now: int, between: Rows -> Rows) returns (claimed: Option<RowId>, ghost pick: Option<RowId>)
      modifies table
      ensures pick.None? ==>
                NoneEligible(old(table.rows), now) && claimed.None? && table.rows == old(table.rows)
      ensures pick.Some? ==>
                var rows := between(old(table.rows));
                && Selectable(old(table.rows), pick.value, now)
                && table.rows == ClaimUpdate(rows, pick.value, config.worker, now, now + config.lease)
                && claimed == if pick.value in rows && Eligible(rows[pick.value], now) then pick else None
      ensures pick.None? ==> forall k | k in table.rows :: OutOfReach(table.rows[k], now)
      ensures pick.Some? ==>
                && pick.value in old(table.rows) && !OutOfReach(old(table.rows)[pick.value], now)
                && forall k | k in old(table.rows)
                     && old(table.rows)[k].createdAt < old(table.rows)[pick.value].createdAt ::
                     OutOfReach(old(table.rows)[k], now)
      ensures claimed.Some? ==>
                && claimed.value in table.rows
                && var r := table.rows[claimed.value];
                && r.status == Processing && r.owner == Some(config.worker) && r.expires == Some(now + config.lease)
                && r.attempts >= 1
    {
      var expiresAt := now + config.lease;
      var eligible := set k | k in table.rows && Eligible(table.rows[k], now);
      if eligible == {} {
        assert forall k | k in table.rows :: k !in eligible;
        return None, None;
      }
      ghost var some :| some in eligible;
      ghost var oldest := OldestExists(table.rows, table.rows.Keys, now, some);
      assert oldest in eligible;
      var id :| id in eligible && forall k | k in eligible :: table.rows[id].createdAt <= table.rows[k].createdAt;
      assert forall k | k in table.rows && Eligible(table.rows[k], now) :: k in eligible;
      pick := Some(id);
      table.rows := between(table.rows);
      var matched := id in table.rows && Eligible(table.rows[id], now);
      if matched {
        table.rows := table.rows[id := table.rows[id].(
          status := Processing,
          attempts := table.rows[id].attempts + 1,
          owner := Some(config.worker),
          expires := Some(expiresAt))];
        claimed := Some(id);
      } else {
        claimed := None;
      }
    }

    /** Claiming when nothing is committed between the two statements. */
    method ClaimAlone(now: int) returns (claimed: Option<RowId>)
      modifies table
      ensures claimed.None? ==> NoneEligible(table.rows, now) && table.rows == old(table.rows)
      ensures claimed.Some? ==>
                && Selectable(old(table.rows), claimed.value, now)
                && table.rows == ClaimUpdate(old(table.rows), claimed.value, config.worker, now, now + config.lease)
    {
      ghost var pick;
      claimed, pick := ClaimNext(now, rows => rows);
    }

    method MarkDelivered(id: RowId)
      modifies table
      ensures table.rows == MarkUpdate(old(table.rows), id, config.worker)
      ensures var rows := old(table.rows);
              if id in rows && rows[id].status == Processing && rows[id].owner == Some(config.worker) then
                && id in table.rows && table.rows == rows[id := table.rows[id]]
                && table.rows[id].status == Delivered && table.rows[id].attempts == rows[id].attempts
              else table.rows == rows
    {
      if id in table.rows && table.rows[id].status == Processing && table.rows[id].owner == Some(config.worker) {
        table.rows := table.rows[id := table.rows[id].(
          status := Delivered, owner := None, expires := None, lastError := None)];
      }
    }

    method Fail(id: RowId, error: string)
      modifies table
      ensures table.rows == FailUpdate(old(table.rows), id, config.worker, config.max, error)
      ensures var rows := old(table.rows);
              if id in rows && rows[id].status == Processing && rows[id].owner == Some(config.worker) then
                && id in table.rows && table.rows == rows[id := table.rows[id]]
                && var r := table.rows[id];
                && r.attempts == rows[id].attempts
                && (r.status == DeadLetter <==> r.attempts >= config.max)
                && (r.status == Retry <==> r.attempts < config.max)
                && r.lastError.Some? && r.lastError.value <= error
                && |r.lastError.value| == if |error| < 1000 then |error| else 1000
              else table.rows == rows
    {
      if !(id in table.rows && table.rows[id].status == Processing && table.rows[id].owner == Some(config.worker)) {
        return;
      }
      var delivery := table.rows[id];
      delivery := delivery.(lastError := Some(if |error| <= 1000 then error else error[..1000]));
      delivery := delivery.(status := if delivery.attempts >= config.max then DeadLetter else Retry);
      delivery := delivery.(owner := None);
      delivery := delivery.(expires := None);
      table.rows := table.rows[id := delivery];
    }

    /** One turn of the loop among others. */
    method OneTurn(k: nat, now: int, error: Option<string>, world: (nat, Rows) -> Rows)
        returns (claimed: bool, ghost turn: Turn)
      modifies table
      ensures claimed ==> TurnFrom(turn, k, old(table.rows), now, error, world, config) && table.rows == turn.left
      ensures !claimed ==> StopsAt(k, old(table.rows), now, world, table.rows)
    {
      table.rows := world(3 * k, table.rows);
      ghost var seen := table.rows;
      var row, pick := ClaimNext(now, rows => world(3 * k + 1, rows));
      claimed := row.Some?;
      if claimed {
        table.rows := world(3 * k + 2, table.rows);
        ghost var late := table.rows;
        if error.Some? {
          Fail(row.value, error.value);
        } else {
          MarkDelivered(row.value);
        }
        turn := Turn(row.value, now, error, seen, world(3 * k + 1, seen), late, table.rows);
      } else {
        assert StopsWith(k, old(table.rows), pick, now, world, table.rows);
        turn := Turn(0, now, error, seen, seen, seen, seen);
      }
    }

    /** The loop among others, watched for at most `limit` turns: no bound holds for all of them, since others may go
        on adding rows. */
    method DeliverAmongOthers(limit: nat, clock: nat -> int, sender: nat -> Option<string>, world: (nat, Rows) -> Rows)
        returns (delivered: nat, stopped: bool, ghost trace: seq<Turn>)
      modifies table
      ensures TurnsFrom(old(table.rows), trace, clock, sender, world, config)
      ensures delivered == NormalTurns(trace)
      ensures |trace| <= limit && (!stopped ==> |trace| == limit)
      ensures var before := LeftBy(old(table.rows), trace);
              if stopped then StopsAt(|trace|, before, clock(|trace|), world, table.rows) else table.rows == before
    {
      delivered, stopped, trace := 0, false, [];
      ghost var start := table.rows;
      var k := 0;
      while k < limit && !stopped
        invariant |trace| <= limit && (!stopped ==> k == |trace|)
        invariant TurnsFrom(start, trace, clock, sender, world, config)
        invariant delivered == NormalTurns(trace)
        invariant !stopped ==> table.rows == LeftBy(start, trace)
        invariant stopped ==> StopsAt(|trace|, LeftBy(start, trace), clock(|trace|), world, table.rows)
        decreases limit - k, !stopped
      {
        var error := sender(k);
        var claimed;
        ghost var turn;
        claimed, turn := OneTurn(k, clock(k), error, world);
        if !claimed {
          stopped := true;
        } else {
          TurnsExtend(start, trace, turn, clock, sender, world, config);
          trace := trace + [turn];
          if error.None? {
            delivered := delivered + 1;
          }
          k := k + 1;
        }
      }
    }

    /** The loop of a worker that is alone: `clock(k)` is its k-th clock reading and `sender(k)` the error its k-th send
        raises, or `None` when the send returns normally. */
    method DeliverPending(clock: nat -> int, sender: nat -> Option<string>)
        returns (delivered: nat, ghost trace: seq<Attempt>)
      modifies table
      ensures LoneTrace(old(table.rows), trace, config)
      ensures table.rows == Replay(old(table.rows), trace, config)
      ensures delivered == NormalSends(trace)
      ensures NoneEligible(table.rows, clock(|trace|))
      ensures Follows(trace, clock, sender)
    {
      delivered := 0;
      trace := [];
      var turn := 0;
      ghost var start := table.rows;
      while true
        invariant turn == |trace|
        invariant LoneTrace(start, trace, config)
        invariant table.rows == Replay(start, trace, config)
        invariant delivered == NormalSends(trace)
        invariant Follows(trace, clock, sender)
        decreases Load(table.rows, config.max)
      {
        ghost var before := table.rows;
        var now := clock(turn);
        var claimed := ClaimAlone(now);
        if claimed.None? {
          break;
        }
        ghost var mid := table.rows;
        var error := sender(turn);
        if error.Some? {
          Fail(claimed.value, error.value);
        } else {
          MarkDelivered(claimed.value);
          delivered := delivered + 1;
        }
        ghost var attempt := Attempt(claimed.value, now, error);
        FollowsExtends(trace, attempt, clock, sender);
        TurnExtendsTrace(start, trace, attempt, config, before, mid, table.rows);
        trace := trace + [attempt];
        turn := turn + 1;
      }
    }
  }

  // ---------------------------------------------------------------------------------------------------------------
  // What a lone run guarantees

  /** Sends are bounded by the load the worker found: a lone worker always stops, whatever the sender does. */
  lemma {:induction false} SendsAreBounded(rows: Rows, trace: seq<Attempt>, c: Config)
    requires LoneTrace(rows, trace, c)
    ensures |trace| + Load(Replay(rows, trace, c), c.max) <= Load(rows, c.max)
    ensures |trace| <= Load(rows, c.max)
    decreases |trace|
  {
    if trace != [] {
      SendsAreBounded(rows, trace[..|trace| - 1], c);
      AttemptLowersLoad(Replay(rows, trace[..|trace| - 1], c), trace[|trace| - 1], c);
    }
  }

  /** The count a lone worker returns is the number of rows it moved to delivered. */
  lemma {:induction false} CountIsDeliveries(rows: Rows, trace: seq<Attempt>, c: Config)
    requires LoneTrace(rows, trace, c)
    ensures |DeliveredIds(Replay(rows, trace, c))| == |DeliveredIds(rows)| + NormalSends(trace)
    decreases |trace|
  {
    if trace != [] {
      var prior, a := Replay(rows, trace[..|trace| - 1], c), trace[|trace| - 1];
      CountIsDeliveries(rows, trace[..|trace| - 1], c);
      AttemptEffect(prior, a, c);
      if a.error.None? {
        assert DeliveredIds(After(prior, a, c)) == DeliveredIds(prior) + {a.id};
      } else {
        assert DeliveredIds(After(prior, a, c)) == DeliveredIds(prior);
      }
    }
  }

  ghost predicate NoLeases(rows: Rows) {
    forall k | k in rows :: !rows[k].status.Processing?
  }

  lemma {:induction false} ReplayKeeps(rows: Rows, trace: seq<Attempt>, c: Config)
    requires LoneTrace(rows, trace, c)
    ensures Replay(rows, trace, c).Keys == rows.Keys
    ensures forall k | k in rows :: Replay(rows, trace, c)[k].createdAt == rows[k].createdAt
    ensures NoLeases(rows) ==> NoLeases(Replay(rows, trace, c))
    decreases |trace|
  {
    if trace != [] {
      ReplayKeeps(rows, trace[..|trace| - 1], c);
      AttemptEffect(Replay(rows, trace[..|trace| - 1], c), trace[|trace| - 1], c);
    }
  }

  lemma {:induction false} LonePrefix(rows: Rows, trace: seq<Attempt>, c: Config, j: nat)
    requires LoneTrace(rows, trace, c) && j < |trace|
    ensures LoneTrace(rows, trace[..j], c) && Selectable(Replay(rows, trace[..j], c), trace[j].id, trace[j].now)
    decreases |trace|
  {
    if j < |trace| - 1 {
      LonePrefix(rows, trace[..|trace| - 1], c, j);
      assert trace[..|trace| - 1][..j] == trace[..j];
    }
  }

  lemma {:induction false} FinalInReplayStays(rows: Rows, trace: seq<Attempt>, c: Config, i: nat, k: RowId)
    requires LoneTrace(rows, trace, c) && i <= |trace|
    requires k in Replay(rows, trace[..i], c) && Final(Replay(rows, trace[..i], c)[k])
    ensures k in Replay(rows, trace, c) && Final(Replay(rows, trace, c)[k])
    decreases |trace|
  {
    if i == |trace| {
      assert trace[..i] == trace;
    } else {
      assert trace[..|trace| - 1][..i] == trace[..i];
      FinalInReplayStays(rows, trace[..|trace| - 1], c, i, k);
    }
  }

  /** A lone worker leaves no row in processing but those it found there and never touched. */
  lemma {:induction false} ProcessingIsUntouched(rows: Rows, trace: seq<Attempt>, c: Config, k: RowId)
    requires LoneTrace(rows, trace, c) && k in Replay(rows, trace, c) && Replay(rows, trace, c)[k].status.Processing?
    ensures k in rows && Replay(rows, trace, c)[k] == rows[k]
    decreases |trace|
  {
    if trace != [] {
      var prior, a := Replay(rows, trace[..|trace| - 1], c), trace[|trace| - 1];
      AttemptEffect(prior, a, c);
      assert k != a.id && prior[k] == Replay(rows, trace, c)[k];
      ProcessingIsUntouched(rows, trace[..|trace| - 1], c, k);
    }
  }

  /** In order of creation, whatever leases the worker finds: when it turns to a row, every older row is delivered or
      dead-lettered, or it is as the worker found it, in processing under a lease that has not run out by that clock
      reading. */
  lemma OlderRowsAreOutOfReach(rows: Rows, trace: seq<Attempt>, c: Config, j: nat, k: RowId)
    requires LoneTrace(rows, trace, c) && j < |trace| && k in rows
    requires trace[j].id in rows && rows[k].createdAt < rows[trace[j].id].createdAt
    ensures k in Replay(rows, trace[..j], c)
    ensures
      var r := Replay(rows, trace[..j], c)[k];
      || r.status == Delivered || r.status == DeadLetter
      || (r == rows[k] && r.status == Processing && (r.expires.None? || r.expires.value > trace[j].now))
  {
    LonePrefix(rows, trace, c, j);
    ReplayKeeps(rows, trace[..j], c);
    SelectableIsOldestInReach(Replay(rows, trace[..j], c), trace[j].id, trace[j].now);
    if Replay(rows, trace[..j], c)[k].status.Processing? {
      ProcessingIsUntouched(rows, trace[..j], c, k);
    }
  }

  /** The attempts on one row. */
  function AttemptsOn(trace: seq<Attempt>, k: RowId): nat {
    if trace == [] then 0
    else AttemptsOn(trace[..|trace| - 1], k) + (if trace[|trace| - 1].id == k then 1 else 0)
  }

  lemma {:induction false} AttemptsAndWeight(rows: Rows, trace: seq<Attempt>, c: Config, k: RowId)
    requires LoneTrace(rows, trace, c) && k in rows
    ensures k in Replay(rows, trace, c)
    ensures AttemptsOn(trace, k) + Weight(Replay(rows, trace, c)[k], c.max) <= Weight(rows[k], c.max)
    decreases |trace|
  {
    if trace != [] {
      AttemptsAndWeight(rows, trace[..|trace| - 1], c, k);
      AttemptEffect(Replay(rows, trace[..|trace| - 1], c), trace[|trace| - 1], c);
    }
  }

  /** A lone worker attempts no finished row, and any other at most as often as it has attempts left, but at least
      once. */
  lemma AttemptsPerRow(rows: Rows, trace: seq<Attempt>, c: Config, k: RowId)
    requires LoneTrace(rows, trace, c) && k in rows
    ensures AttemptsOn(trace, k) <=
            (if rows[k].status == Delivered || rows[k].status == DeadLetter then 0
             else if rows[k].attempts < c.max then c.max - rows[k].attempts else 1)
  {
    AttemptsAndWeight(rows, trace, c, k);
  }

  /** First in, first out: when a lone worker that found no leases turns to a row, every older row is delivered or
      dead-lettered, and stays so for the rest of the loop. */
  lemma OlderRowsAreFinished(rows: Rows, trace: seq<Attempt>, c: Config, j: nat, k: RowId)
    requires LoneTrace(rows, trace, c) && NoLeases(rows) && j < |trace| && k in rows
    requires trace[j].id in rows && rows[k].createdAt < rows[trace[j].id].createdAt
    ensures k in Replay(rows, trace[..j], c) && Final(Replay(rows, trace[..j], c)[k])
    ensures k in Replay(rows, trace, c) && Final(Replay(rows, trace, c)[k])
    ensures forall m | j <= m < |trace| :: trace[m].id != k
  {
    LonePrefix(rows, trace, c, j);
    ReplayKeeps(rows, trace[..j], c);
    FinalInReplayStays(rows, trace, c, j, k);
    forall m | j <= m < |trace| ensures trace[m].id != k {
      LonePrefix(rows, trace, c, m);
      assert trace[..m][..j] == trace[..j];
      FinalInReplayStays(rows, trace[..m], c, j, k);
    }
  }

  /** With distinct creation times the attempts on a row are consecutive and rows are taken in order of creation. */
  lemma AttemptsAreInOrder(rows: Rows, trace: seq<Attempt>, c: Config, i: nat, j: nat)
    requires LoneTrace(rows, trace, c) && NoLeases(rows) && i < j < |trace|
    requires forall k, l | k in rows && l in rows && rows[k].createdAt == rows[l].createdAt :: k == l
    ensures trace[i].id in rows && trace[j].id in rows
    ensures rows[trace[i].id].createdAt <= rows[trace[j].id].createdAt
    ensures trace[i].id == trace[j].id ==> forall m | i <= m <= j :: trace[m].id == trace[i].id
  {
    forall m | i <= m <= j ensures trace[m].id in rows {
      LonePrefix(rows, trace, c, m);
      ReplayKeeps(rows, trace[..m], c);
    }
    forall m, n | i <= m < n <= j ensures rows[trace[m].id].createdAt <= rows[trace[n].id].createdAt {
      if rows[trace[n].id].createdAt < rows[trace[m].id].createdAt {
        OlderRowsAreFinished(rows, trace, c, m, trace[n].id);
      }
    }
  }

  /** What the loop leaves behind: nothing but finished rows and other workers' unexpired leases. */
  lemma OnlyForeignLeasesRemain(rows: Rows, trace: seq<Attempt>, c: Config, now: int, k: RowId)
    requires LoneTrace(rows, trace, c) && NoneEligible(Replay(rows, trace, c), now) && k in rows
    ensures k in Replay(rows, trace, c)
    ensures var r := Replay(rows, trace, c)[k];
            Final(r) || (r.status.Processing? && (r.expires.Some? ==> r.expires.value > now))
    ensures NoLeases(rows) ==> Final(Replay(rows, trace, c)[k])
  {
    ReplayKeeps(rows, trace, c);
  }

  /** One turn of the loop is select, claim, send and finalise, by a worker that nobody interrupts. */
  lemma TurnIsFourSteps(from: State, s: State, a: Attempt, c: Config) returns (t: State)
    requires Leads(from, s, c.max) && s.PhaseOf(c.worker).Idle? && Selectable(s.rows, a.id, a.now)
    ensures Leads(from, t, c.max) && t.rows == After(s.rows, a, c) && t.PhaseOf(c.worker).Idle?
    ensures t.reported == s.reported + (if a.error.None? then 1 else 0)
  {
    var claimed := SelectAndClaim(from, s, c.max, c.worker, a.id, a.now, c.lease);
    var send := if a.error.None? then SendReturns(c.worker) else SendRaises(c.worker, a.error.value);
    LeadsOneMore(from, claimed, send, c.max);
    var sent := Apply(claimed, send, c.max);
    assert sent.rows == claimed.rows;
    var final := if a.error.None? then Mark(c.worker) else Leases.Fail(c.worker);
    LeadsOneMore(from, sent, final, c.max);
    t := Apply(sent, final, c.max);
  }

  /** A lone worker's whole loop is a run of the protocol, so whatever holds of every reachable state holds after it;
      its return value is its share of the reports. */
  lemma {:induction false} LoneRunIsProtocolRun(s: State, trace: seq<Attempt>, c: Config) returns (t: State)
    requires s.PhaseOf(c.worker).Idle? && LoneTrace(s.rows, trace, c)
    ensures Leads(s, t, c.max) && t.rows == Replay(s.rows, trace, c) && t.PhaseOf(c.worker).Idle?
    ensures t.reported == s.reported + NormalSends(trace)
    decreases |trace|
  {
    if trace == [] {
      LeadsSelf(s, c.max);
      t := s;
    } else {
      var prior := LoneRunIsProtocolRun(s, trace[..|trace| - 1], c);
      t := TurnIsFourSteps(s, prior, trace[|trace| - 1], c);
    }
  }
}
