/** The contended loop against the protocol: whatever other workers and the publisher do between its statements, it
    is a run of the protocol with the same tables and reports. */
module Contention {
  import opened Prelude
  import opened Leases
  import opened DeliveryWorkers

  /** `env(j, _)` is what others do before the worker's j-th statement, from whatever state that meets: any steps of the
      protocol but the worker's own. */
  ghost predicate OnlyOthers(env: (nat, State) -> State, c: Config) {
    forall j, s {:trigger env(j, s)} :: OthersLead(s, env(j, s), c.worker, c.max)
  }

  // ---------------------------------------------------------------------------------------------------------------
  // The states a turn goes through

  ghost function Seen(s: State, k: nat, env: (nat, State) -> State): State {
    env(3 * k, s)
  }

  ghost function Met(s: State, k: nat, id: RowId, now: int, env: (nat, State) -> State, c: Config): State {
    env(3 * k + 1, Apply(Seen(s, k, env), Select(c.worker, now, Some(id)), c.max))
  }

  function SendStep(error: Option<string>, c: Config): Step {
    if error.None? then SendReturns(c.worker) else SendRaises(c.worker, error.value)
  }

  function FinalStep(error: Option<string>, c: Config): Step {
    if error.None? then Mark(c.worker) else Leases.Fail(c.worker)
  }

  ghost function Late(s: State, k: nat, id: RowId, now: int, error: Option<string>, env: (nat, State) -> State,
                      c: Config): State
  {
    var claimed := Apply(Met(s, k, id, now, env, c), Claim(c.worker, c.lease), c.max);
    env(3 * k + 2, Apply(claimed, SendStep(error, c), c.max))
  }

  ghost function Left(s: State, k: nat, id: RowId, now: int, error: Option<string>, env: (nat, State) -> State,
                      c: Config): State
  {
    Apply(Late(s, k, id, now, error, env, c), FinalStep(error, c), c.max)
  }

  /** The tables of a turn are those that `env` leads to from `s`. */
  ghost predicate Meets(s: State, turn: Turn, k: nat, env: (nat, State) -> State, c: Config) {
    && turn.seen == Seen(s, k, env).rows
    && turn.met == Met(s, k, turn.id, turn.now, env, c).rows
    && turn.late == Late(s, k, turn.id, turn.now, turn.error, env, c).rows
  }

  /** The state after the turns of a trace. */
  ghost function After(s: State, trace: seq<Turn>, env: (nat, State) -> State, c: Config): State
    decreases |trace|
  {
    if trace == [] then s
    else
      var k := |trace| - 1;
      Left(After(s, trace[..k], env, c), k, trace[k].id, trace[k].now, trace[k].error, env, c)
  }

  ghost predicate MeetsAll(s: State, trace: seq<Turn>, env: (nat, State) -> State, c: Config)
    decreases |trace|
  {
    trace == [] ||
    (var k, prior := |trace| - 1, trace[..|trace| - 1];
     MeetsAll(s, prior, env, c) && Meets(After(s, prior, env, c), trace[k], k, env, c))
  }

  // ---------------------------------------------------------------------------------------------------------------
  // Turns are runs

  /** The worker is at `p` after some run from `start`. */
  ghost predicate At(start: State, s: State, p: Phase, c: Config) {
    Leads(start, s, c.max) && s.PhaseOf(c.worker) == p
  }

  lemma OthersMove(start: State, s: State, j: nat, p: Phase, env: (nat, State) -> State, c: Config)
    requires At(start, s, p, c) && OnlyOthers(env, c)
    ensures At(start, env(j, s), p, c) && env(j, s).reported >= s.reported
  {
    OthersKeep(start, s, env(j, s), c.worker, c.max);
  }

  lemma SelectMoves(start: State, s: State, id: RowId, now: int, c: Config)
    requires At(start, s, Idle, c) && Selectable(s.rows, id, now)
    ensures
      var t := Apply(s, Select(c.worker, now, Some(id)), c.max);
      At(start, t, Chosen(id, now), c) && t.rows == s.rows && t.reported == s.reported
  {
    LeadsOneMore(start, s, Select(c.worker, now, Some(id)), c.max);
  }

  lemma ClaimMoves(start: State, s: State, id: RowId, now: int, c: Config)
    requires At(start, s, Chosen(id, now), c) && id in s.rows && Eligible(s.rows[id], now)
    ensures
      var t := Apply(s, Claim(c.worker, c.lease), c.max);
      && At(start, t, Sending(id, s.rows[id].attempts + 1), c) && t.reported == s.reported
      && t.rows == ClaimUpdate(s.rows, id, c.worker, now, now + c.lease)
  {
    LeadsOneMore(start, s, Claim(c.worker, c.lease), c.max);
  }

  lemma LostClaimMoves(start: State, s: State, id: RowId, now: int, c: Config)
    requires At(start, s, Chosen(id, now), c) && !(id in s.rows && Eligible(s.rows[id], now))
    ensures
      var t := Apply(s, Claim(c.worker, c.lease), c.max);
      At(start, t, Idle, c) && t.rows == s.rows && t.reported == s.reported
  {
    LeadsOneMore(start, s, Claim(c.worker, c.lease), c.max);
  }

  function AfterSend(id: RowId, claim: nat, error: Option<string>): Phase {
    if error.None? then Sent(id, claim) else Raised(id, claim, error.value)
  }

  lemma SendMoves(start: State, s: State, id: RowId, claim: nat, error: Option<string>, c: Config)
    requires At(start, s, Sending(id, claim), c)
    ensures
      var t := Apply(s, SendStep(error, c), c.max);
      At(start, t, AfterSend(id, claim, error), c) && t.rows == s.rows && t.reported == s.reported
  {
    LeadsOneMore(start, s, SendStep(error, c), c.max);
  }

  /** The final write of a turn. */
  function Finished(rows: Rows, id: RowId, error: Option<string>, c: Config): Rows {
    if error.None? then MarkUpdate(rows, id, c.worker) else FailUpdate(rows, id, c.worker, c.max, error.value)
  }

  lemma FinalMoves(start: State, s: State, id: RowId, claim: nat, error: Option<string>, c: Config)
    requires At(start, s, AfterSend(id, claim, error), c)
    ensures
      var t := Apply(s, FinalStep(error, c), c.max);
      && At(start, t, Idle, c) && t.rows == Finished(s.rows, id, error, c)
      && t.reported == s.reported + (if error.None? then 1 else 0)
  {
    LeadsOneMore(start, s, FinalStep(error, c), c.max);
  }

  /** The first half of a turn, up to the claim. */
  lemma ClaimIsProtocolRun(start: State, s: State, turn: Turn, k: nat, env: (nat, State) -> State, c: Config)
    requires At(start, s, Idle, c) && OnlyOthers(env, c) && Meets(s, turn, k, env, c)
    requires Selectable(turn.seen, turn.id, turn.now) && turn.id in turn.met && Eligible(turn.met[turn.id], turn.now)
    ensures
      var t := Apply(Met(s, k, turn.id, turn.now, env, c), Claim(c.worker, c.lease), c.max);
      && At(start, t, Sending(turn.id, turn.met[turn.id].attempts + 1), c) && t.reported >= s.reported
      && t.rows == ClaimUpdate(turn.met, turn.id, c.worker, turn.now, turn.now + c.lease)
  {
    var seen, id, now := Seen(s, k, env), turn.id, turn.now;
    OthersMove(start, s, 3 * k, Idle, env, c);
    SelectMoves(start, seen, id, now, c);
    OthersMove(start, Apply(seen, Select(c.worker, now, Some(id)), c.max), 3 * k + 1, Chosen(id, now), env, c);
    ClaimMoves(start, Met(s, k, id, now, env, c), id, now, c);
  }

  /** One contended turn is select, claim, send and finalise, with any steps of others in between, and ends in the same
      table with a report for a normal send. */
  lemma TurnIsProtocolRun(start: State, s: State, turn: Turn, k: nat, now: int, error: Option<string>,
                          world: (nat, Rows) -> Rows, env: (nat, State) -> State, c: Config)
    requires At(start, s, Idle, c) && OnlyOthers(env, c) && Meets(s, turn, k, env, c)
    requires TurnFrom(turn, k, s.rows, now, error, world, c)
    ensures
      var t := Left(s, k, turn.id, now, error, env, c);
      At(start, t, Idle, c) && t.rows == turn.left && t.reported >= s.reported + (if error.None? then 1 else 0)
  {
    var id, claim := turn.id, turn.met[turn.id].attempts + 1;
    var claimed := Apply(Met(s, k, id, now, env, c), Claim(c.worker, c.lease), c.max);
    ClaimIsProtocolRun(start, s, turn, k, env, c);
    SendMoves(start, claimed, id, claim, error, c);
    OthersMove(start, Apply(claimed, SendStep(error, c), c.max), 3 * k + 2, AfterSend(id, claim, error), env, c);
    FinalMoves(start, Late(s, k, id, now, error, env, c), id, claim, error, c);
  }

  /** So is the end of the loop, by either of its two reasons. */
  lemma StopIsProtocolRun(start: State, s: State, k: nat, id: Option<RowId>, now: int, world: (nat, Rows) -> Rows,
                          left: Rows, env: (nat, State) -> State, c: Config) returns (t: State)
    requires At(start, s, Idle, c) && OnlyOthers(env, c)
    requires StopsWith(k, s.rows, id, now, world, left) && world(3 * k, s.rows) == Seen(s, k, env).rows
    requires id.Some? ==> world(3 * k + 1, Seen(s, k, env).rows) == Met(s, k, id.value, now, env, c).rows
    ensures At(start, t, Idle, c) && t.rows == left && t.reported >= s.reported
  {
    var seen := Seen(s, k, env);
    OthersMove(start, s, 3 * k, Idle, env, c);
    if id.None? {
      t := seen;
    } else {
      var chosen, met := Apply(seen, Select(c.worker, now, id), c.max), Met(s, k, id.value, now, env, c);
      SelectMoves(start, seen, id.value, now, c);
      OthersMove(start, chosen, 3 * k + 1, Chosen(id.value, now), env, c);
      LostClaimMoves(start, met, id.value, now, c);
      t := Apply(met, Claim(c.worker, c.lease), c.max);
    }
  }

  /** The contended loop, watched for any number of turns, is a run of the protocol: when the tables that its statements
      meet are those that the others' steps lead to, it ends in the table that the method leaves, and all that it counts
      is reported. */
  lemma {:induction false} LoopIsProtocolRun(s: State, trace: seq<Turn>, clock: nat -> int,
                                             sender: nat -> Option<string>, world: (nat, Rows) -> Rows,
                                             env: (nat, State) -> State, c: Config)
    requires s.PhaseOf(c.worker).Idle? && OnlyOthers(env, c) && MeetsAll(s, trace, env, c)
    requires TurnsFrom(s.rows, trace, clock, sender, world, c)
    ensures
      var t := After(s, trace, env, c);
      At(s, t, Idle, c) && t.rows == LeftBy(s.rows, trace) && t.reported >= s.reported + NormalTurns(trace)
    decreases |trace|
  {
    if trace == [] {
      LeadsSelf(s, c.max);
    } else {
      var k, prior := |trace| - 1, trace[..|trace| - 1];
      LoopIsProtocolRun(s, prior, clock, sender, world, env, c);
      TurnIsProtocolRun(s, After(s, prior, env, c), trace[k], k, clock(k), sender(k), world, env, c);
    }
  }

  // ---------------------------------------------------------------------------------------------------------------
  // Every environment is met

  /** What a turn needs of its own tables. */
  ghost predicate Claims(turn: Turn, now: int, error: Option<string>, c: Config) {
    && turn.now == now && turn.error == error && Selectable(turn.seen, turn.id, now)
    && turn.id in turn.met && Eligible(turn.met[turn.id], now)
    && turn.left == Finished(turn.late, turn.id, error, c)
  }

  /** The table that the j-th statement of a trace meets. */
  function ShownAt(trace: seq<Turn>, j: nat, rows: Rows): Rows {
    if j / 3 >= |trace| then rows
    else if j % 3 == 0 then trace[j / 3].seen
    else if j % 3 == 1 then trace[j / 3].met
    else trace[j / 3].late
  }

  function WorldOf(trace: seq<Turn>): (nat, Rows) -> Rows {
    (j, rows) => ShownAt(trace, j, rows)
  }

  lemma ShownInTurn(trace: seq<Turn>, k: nat, a: Rows, b: Rows, c: Rows)
    requires k < |trace|
    ensures WorldOf(trace)(3 * k, a) == trace[k].seen
    ensures WorldOf(trace)(3 * k + 1, b) == trace[k].met
    ensures WorldOf(trace)(3 * k + 2, c) == trace[k].late
  {
  }

  lemma TurnIsShown(trace: seq<Turn>, k: nat, rows: Rows, now: int, error: Option<string>, c: Config)
    requires k < |trace| && Claims(trace[k], now, error, c)
    ensures TurnFrom(trace[k], k, rows, now, error, WorldOf(trace), c)
  {
    var turn := trace[k];
    ShownInTurn(trace, k, rows, turn.seen, ClaimUpdate(turn.met, turn.id, c.worker, now, now + c.lease));
  }

  lemma {:induction false} ShownIsWorld(rows: Rows, trace: seq<Turn>, n: nat, clock: nat -> int,
                                        sender: nat -> Option<string>, c: Config)
    requires n <= |trace| && forall k | 0 <= k < |trace| :: Claims(trace[k], clock(k), sender(k), c)
    ensures TurnsFrom(rows, trace[..n], clock, sender, WorldOf(trace), c)
    decreases n
  {
    if n > 0 {
      ShownIsWorld(rows, trace, n - 1, clock, sender, c);
      assert trace[..n][..n - 1] == trace[..n - 1];
      TurnIsShown(trace, n - 1, LeftBy(rows, trace[..n - 1]), clock(n - 1), sender(n - 1), c);
    }
  }

  /** No behaviour of the others is left out: whatever tables their steps lead to, there is a world that shows the
      loop just these tables, so the method's contract speaks about the run. */
  lemma EveryEnvironmentIsAWorld(s: State, trace: seq<Turn>, clock: nat -> int, sender: nat -> Option<string>,
                                 env: (nat, State) -> State, c: Config) returns (world: (nat, Rows) -> Rows)
    requires s.PhaseOf(c.worker).Idle? && OnlyOthers(env, c) && MeetsAll(s, trace, env, c)
    requires forall k | 0 <= k < |trace| :: Claims(trace[k], clock(k), sender(k), c)
    ensures TurnsFrom(s.rows, trace, clock, sender, world, c)
    ensures
      var t := After(s, trace, env, c);
      At(s, t, Idle, c) && t.rows == LeftBy(s.rows, trace) && t.reported >= s.reported + NormalTurns(trace)
  {
    world := WorldOf(trace);
    ShownIsWorld(s.rows, trace, |trace|, clock, sender, c);
    assert trace[..|trace|] == trace;
    LoopIsProtocolRun(s, trace, clock, sender, world, env, c);
  }
}
