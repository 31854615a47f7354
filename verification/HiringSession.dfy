/** The handlers as the source writes them: repositories over one database session, inserts buffered until the
    commit. */
module HiringSession {
  import opened Prelude
  import opened CandidateWorkflow
  import opened OfferApproval
  import opened Hiring

  datatype Insert =
    | InsertCandidate(row: CandidateCase)
    | InsertOffer(offer: Offer)
    | InsertDecision(d: Decision)
    | InsertEvent(e: Event)

  function InsertRow(t: Tables, i: Insert): Outcome<Tables> {
    match i
    case InsertCandidate(row) => CommitOpen(t, row)
    case InsertOffer(offer) =>
      if offer.id in t.offers || HasOffer(t.offers, offer.candidate) then Failure(UniqueViolation)
      else Success(t.(offers := t.offers[offer.id := offer]))
    case InsertDecision(d) =>
      if Decided(t.decisions, d.offer, d.step) then Failure(UniqueViolation)
      else Success(t.(decisions := t.decisions + [d]))
    case InsertEvent(e) => Success(t.(outbox := t.outbox + [e]))
  }

  /** The buffered inserts, executed in order. */
  function Flush(t: Tables, inserts: seq<Insert>): Outcome<Tables>
    decreases |inserts|
  {
    if inserts == [] then Success(t)
    else
      var prior :- Flush(t, inserts[..|inserts| - 1]);
      InsertRow(prior, inserts[|inserts| - 1])
  }

  lemma {:induction false} FlushStops(t: Tables, inserts: seq<Insert>, k: nat)
    requires k <= |inserts| && Flush(t, inserts[..k]).Failure?
    ensures Flush(t, inserts).Failure?
    decreases |inserts| - k
  {
    if k == |inserts| {
      assert inserts[..k] == inserts;
    } else {
      assert inserts[..k + 1][..k] == inserts[..k];
      FlushStops(t, inserts, k + 1);
    }
  }

  /** `view` is the transaction's own view after its update statements; `added` are the objects added to the session,
      which with autoflush off reach the database only at the commit. */
  class Session {
    var committed: Tables
    var view: Tables
    var added: seq<Insert>

    ghost predicate Clean()
      reads this
    {
      view == committed && added == []
    }

    constructor (tables: Tables)
      ensures Clean() && committed == tables
    {
      committed, view, added := tables, tables, [];
    }

    method Rollback()
      modifies this
      ensures Clean() && committed == old(committed)
    {
      view, added := committed, [];
    }

    method TransitionCandidate(m: Move, now: int) returns (ok: bool)
      modifies this`view
      ensures ok <==> CandidateGuard(old(view), m)
      ensures view == if ok then WriteCandidate(old(view), m, now) else old(view)
      ensures ok ==>
                && m.next.id in view.candidates
                && var before, after := old(view).candidates[m.next.id], view.candidates[m.next.id];
                && after.record == before.record.(stage := m.next.stage, version := m.next.version)
                && after.terminalAt == (if m.next.stage in {Stage.Rejected, Withdrawn} then Some(now) else None)
                && view == old(view).(candidates := old(view).candidates[m.next.id := after])
    {
      if m.next.id !in view.candidates {
        return false;
      }
      var stored := view.candidates[m.next.id].record;
      if stored.tenant != m.next.tenant || stored.version != m.read.version {
        return false;
      }
      var terminalAt := if m.next.stage == Stage.Rejected || m.next.stage == Withdrawn then Some(now) else None;
      var record := stored.(stage := m.next.stage, version := m.next.version);
      view := view.(candidates := view.candidates[m.next.id := CandidateRow(record, terminalAt)]);
      ok := true;
    }

    method UpdateOffer(offer: Offer, expected: int) returns (ok: bool)
      modifies this`view
      ensures ok <==> OfferGuard(old(view), offer, expected)
      ensures view == if ok then WriteOffer(old(view), offer, expected) else old(view)
    {
      ok := && offer.id in view.offers
            && view.offers[offer.id].tenant == offer.tenant
            && view.offers[offer.id].version == expected;
      if ok {
        var stored := view.offers[offer.id].(status := offer.status, step := offer.step, version := offer.version);
        view := view.(offers := view.offers[offer.id := stored]);
      }
    }

    method Add(i: Insert)
      modifies this`added
      ensures added == old(added) + [i]
    {
      added := added + [i];
    }

    /** Flush and commit, or roll everything back when a unique key is violated. */
    method Commit() returns (ok: bool)
      modifies this
      ensures Clean()
      ensures ok <==> Flush(old(view), old(added)).Success?
      ensures committed == if ok then Flush(old(view), old(added)).value else old(committed)
    {
      var flushed := view;
      for k := 0 to |added|
        invariant view == old(view) && added == old(added) && committed == old(committed)
        invariant Flush(view, added[..k]) == Success(flushed)
      {
        assert added[..k + 1][..k] == added[..k];
        var result := InsertRow(flushed, added[k]);
        if result.Failure? {
          FlushStops(view, added, k + 1);
          Rollback();
          return false;
        }
        flushed := result.value;
      }
      assert added[..|added|] == added;
      committed, view, added := flushed, flushed, [];
      ok := true;
    }
  }

  lemma FlushOne(t: Tables, i: Insert)
    ensures Flush(t, [i]) == InsertRow(t, i)
  {
    assert [i][..0] == [];
  }

  lemma FlushTwo(t: Tables, i: Insert, j: Insert)
    ensures Flush(t, [i, j]) ==
            if InsertRow(t, i).Success? then InsertRow(InsertRow(t, i).value, j) else Failure(InsertRow(t, i).error)
  {
    assert [i, j][..1] == [i];
    FlushOne(t, i);
  }

  /** Rows are stored under their own primary keys. */
  ghost predicate Keyed(t: Tables) {
    && (forall id | id in t.candidates :: t.candidates[id].record.id == id)
    && (forall id | id in t.offers :: t.offers[id].id == id)
  }

  /** The tables after a handler: the committed result, or what was there. */
  function Settled(t: Tables, result: Outcome<Tables>): Tables {
    if result.Success? then result.value else t
  }

  method HandleTransition(session: Session, cmd: Command, ghost policy: ApprovalPolicy)
    returns (r: Outcome<CandidateCase>)
    requires session.Clean() && Keyed(session.committed) && cmd.TransitionCandidate?
    modifies session
    ensures session.committed == Settled(old(session.committed), Handle(old(session.committed), cmd, policy))
    ensures r.Success? <==> Handle(old(session.committed), cmd, policy).Success?
    ensures r.Success? ==> session.Clean() && cmd.candidate in session.committed.candidates
                           && session.committed.candidates[cmd.candidate].record == r.value
    ensures r.Failure? ==> Handle(old(session.committed), cmd, policy) == Failure(r.error)
  {
    var candidate := GetCandidate(session.view, cmd.candidate, cmd.tenant);
    if candidate.None? {
      return Failure(NotFound);
    }
    if candidate.value.version != cmd.expected {
      return Failure(Conflict);
    }
    if cmd.target.None? {
      return Failure(UnknownStage);
    }
    var transitioned := candidate.value.Transition(cmd.target.value);
    if transitioned.None? {
      return Failure(InvalidTransition);
    }
    var ok := session.TransitionCandidate(Move(candidate.value, transitioned.value), cmd.now);
    if !ok {
      return Failure(Conflict);
    }
    var _ := session.Commit();
    return Success(transitioned.value);
  }

  method HandleCreateOffer(session: Session, cmd: Command, ghost policy: ApprovalPolicy) returns (r: Outcome<Offer>)
    requires session.Clean() && Keyed(session.committed) && cmd.CreateOffer?
    modifies session
    ensures session.committed == Settled(old(session.committed), Handle(old(session.committed), cmd, policy))
    ensures r.Success? <==> Handle(old(session.committed), cmd, policy).Success?
    ensures r.Success? ==> session.Clean() && r.value.id == cmd.offerId
                           && cmd.offerId in session.committed.offers
                              && session.committed.offers[cmd.offerId] == r.value
    ensures r.Failure? ==> Handle(old(session.committed), cmd, policy) == Failure(r.error)
  {
    var candidate := GetCandidate(session.view, cmd.candidate, cmd.tenant);
    if candidate.None? || candidate.value.stage != Interviewing {
      return Failure(NotEligible);
    }
    var offer := PendingOffer(cmd.offerId, cmd.tenant, candidate.value.id);
    var transitioned := candidate.value.Transition(OfferPendingApproval).value;
    var ok := session.TransitionCandidate(Move(candidate.value, transitioned), cmd.now);
    if !ok {
      return Failure(Conflict);
    }
    session.Add(InsertOffer(offer));
    FlushOne(session.view, InsertOffer(offer));
    assert session.added == [InsertOffer(offer)];
    var done := session.Commit();
    if !done {
      return Failure(UniqueViolation);
    }
    return Success(offer);
  }

  /** The two inserts of a decision and the commit. */
  method RecordAndCommit(session: Session, decision: Decision, event: Event) returns (ok: bool)
    requires session.added == []
    modifies session
    ensures session.Clean()
    ensures ok <==> !Decided(old(session.view.decisions), decision.offer, decision.step)
    ensures session.committed ==
            if ok then old(session.view).(decisions := old(session.view.decisions) + [decision],
                                          outbox := old(session.view.outbox) + [event])
            else old(session.committed)
  {
    session.Add(InsertDecision(decision));
    session.Add(InsertEvent(event));
    FlushTwo(session.view, InsertDecision(decision), InsertEvent(event));
    assert session.added == [InsertDecision(decision), InsertEvent(event)];
    ok := session.Commit();
  }

  method HandleDecideOffer(session: Session, cmd: Command, policy: ApprovalPolicy) returns (r: Outcome<Offer>)
    requires session.Clean() && Keyed(session.committed) && cmd.DecideOffer?
    modifies session
    ensures session.committed == Settled(old(session.committed), Handle(old(session.committed), cmd, policy))
    ensures r.Success? <==> Handle(old(session.committed), cmd, policy).Success?
    ensures r.Success? ==> session.Clean() && cmd.offerId in session.committed.offers
                           && session.committed.offers[cmd.offerId] == r.value
    ensures r.Failure? ==> Handle(old(session.committed), cmd, policy) == Failure(r.error)
  {
    var offer := GetOffer(session.view, cmd.offerId, cmd.tenant);
    if offer.None? {
      return Failure(NotFound);
    }
    if offer.value.version != cmd.expected {
      return Failure(Conflict);
    }
    var decided := Decide(offer.value, cmd.decision, cmd.role, policy);
    if decided.Failure? {
      return Failure(decided.error);
    }
    var outcome := decided.value;
    var ok := session.UpdateOffer(outcome.offer, cmd.expected);
    if !ok {
      return Failure(Conflict);
    }
    if outcome.candidateTarget.Some? {
      var candidate := GetCandidate(session.view, offer.value.candidate, cmd.tenant);
      if candidate.None? {
        return Failure(Conflict);
      }
      var transitioned := candidate.value.Transition(outcome.candidateTarget.value);
      if transitioned.None? {
        return Failure(InvalidTransition);
      }
      ok := session.TransitionCandidate(Move(candidate.value, transitioned.value), cmd.now);
      if !ok {
        return Failure(Conflict);
      }
    }
    var decision := Decision(offer.value.id, outcome.step, cmd.actor, outcome.decision, cmd.role);
    var event := Event(offer.value.id, outcome.decision, cmd.actor);
    var done := RecordAndCommit(session, decision, event);
    if !done {
      return Failure(UniqueViolation);
    }
    return Success(outcome.offer);
  }
}
