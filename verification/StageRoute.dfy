/** The free stage route against the offers: it may move a candidate into or out of every stage the offers use, and
    the run itself tells exactly when it has. */
module StageRoute {
  import opened Prelude
  import opened CandidateWorkflow
  import opened OfferApproval
  import opened Hiring
  import opened HiringInvariants
  import opened HiringHistory
  import opened HiringOutcomes
  import I = Interleaving
  import Runs

  predicate Moves(cmd: Command, candidate: Id) {
    cmd.TransitionCandidate? && cmd.candidate == candidate
  }

  // ---------------------------------------------------------------------------------------------------------------
  // Approved candidates

  /** The stage route moved the candidate to the approved stage. */
  predicate RoutedToApproved(cmds: seq<Command>, candidate: Id) {
    exists i :: 0 <= i < |cmds| && Moves(cmds[i], candidate) && cmds[i].target == Some(OfferApproved)
  }

  predicate HasApprovedOffer(offers: map<Id, Offer>, candidate: Id) {
    exists o | o in offers :: offers[o].candidate == candidate && offers[o].status.Approved?
  }

  /** What the run so far says about a candidate's approved offer. */
  ghost predicate ApprovalTraced(cmds: seq<Command>, t: Tables, id: Id) {
    && (RoutedToApproved(cmds, id) ==>
          && id in t.candidates
          && t.candidates[id].record.stage in {OfferApproved, Hired, Withdrawn}
          && !HasApprovedOffer(t.offers, id))
    && (id in t.candidates && t.candidates[id].record.stage in {OfferApproved, Hired} ==>
          HasApprovedOffer(t.offers, id) || RoutedToApproved(cmds, id))
  }

  lemma RoutedGrows(cmds: seq<Command>, cmd: Command, id: Id)
    ensures RoutedToApproved(cmds + [cmd], id) <==>
            RoutedToApproved(cmds, id) || (Moves(cmd, id) && cmd.target == Some(OfferApproved))
  {
    assert (cmds + [cmd])[|cmds|] == cmd;
    if RoutedToApproved(cmds, id) {
      var i :| 0 <= i < |cmds| && Moves(cmds[i], id) && cmds[i].target == Some(OfferApproved);
      assert (cmds + [cmd])[i] == cmds[i];
    }
  }

  /** An approved offer's candidate is no longer waiting for the approval. */
  lemma WaitingHasNoApprovedOffer(t: Tables, id: Id)
    requires Inv(t) && id in t.candidates && t.candidates[id].record.stage !in {OfferApproved, Hired, Withdrawn}
    ensures !HasApprovedOffer(t.offers, id)
  {
    forall o | o in t.offers && t.offers[o].candidate == id ensures !t.offers[o].status.Approved? {
      assert OfferOk(t, o);
    }
  }

  lemma OpenKeepsTraced(cmds: seq<Command>, t: Tables, cmd: Command, policy: ApprovalPolicy, id: Id)
    requires Inv(t) && ApprovalTraced(cmds, t, id) && cmd.OpenCandidate? && Handle(t, cmd, policy).Success?
    ensures ApprovalTraced(cmds + [cmd], Handle(t, cmd, policy).value, id)
  {
    RoutedGrows(cmds, cmd, id);
  }

  lemma RouteKeepsTraced(cmds: seq<Command>, t: Tables, cmd: Command, policy: ApprovalPolicy, id: Id)
    requires Inv(t) && ApprovalTraced(cmds, t, id) && cmd.TransitionCandidate? && Handle(t, cmd, policy).Success?
    ensures ApprovalTraced(cmds + [cmd], Handle(t, cmd, policy).value, id)
  {
    RoutedGrows(cmds, cmd, id);
    assert CandidateOk(cmd.candidate, t.candidates[cmd.candidate]);
    if cmd.candidate == id && cmd.target == Some(OfferApproved) {
      WaitingHasNoApprovedOffer(t, id);
    }
  }

  lemma CreateKeepsTraced(cmds: seq<Command>, t: Tables, cmd: Command, policy: ApprovalPolicy, id: Id)
    requires Inv(t) && ApprovalTraced(cmds, t, id) && cmd.CreateOffer? && Handle(t, cmd, policy).Success?
    ensures ApprovalTraced(cmds + [cmd], Handle(t, cmd, policy).value, id)
  {
    RoutedGrows(cmds, cmd, id);
    CreateEffect(t, cmd, policy);
    assert CandidateOk(cmd.candidate, t.candidates[cmd.candidate]);
    var t' := Handle(t, cmd, policy).value;
    if o :| o in t.offers && t.offers[o].candidate == id && t.offers[o].status.Approved? {
      assert t'.offers[o] == t.offers[o];
    }
  }

  /** A current move to a decided stage starts at the waiting stage and changes that candidate alone. */
  lemma MoveToDecided(t: Tables, m: Move, now: int)
    requires Current(t, m) && m.next.stage in {OfferApproved, OfferRejected}
    ensures t.candidates[m.next.id].record.stage == OfferPendingApproval
    ensures
      var written := WriteCandidate(t, m, now).candidates;
      && written.Keys == t.candidates.Keys && written[m.next.id].record.stage == m.next.stage
      && forall c | c in t.candidates && c != m.next.id :: written[c] == t.candidates[c]
  {
  }

  lemma CommitDecideMoves(t: Tables, plan: Plan, policy: ApprovalPolicy)
    requires CurrentDecision(t, plan, policy) && CommitDecide(t, plan).Success?
    ensures
      var written := CommitDecide(t, plan).value.candidates;
      if plan.candidateMove.None? then written == t.candidates
      else
        && plan.candidateMove.value.next.stage in {OfferApproved, OfferRejected}
        && written == WriteCandidate(t, plan.candidateMove.value, plan.cmd.now).candidates
  {
  }

  /** Where a decision leaves the candidates. */
  lemma DecideMoves(t: Tables, cmd: Command, policy: ApprovalPolicy) returns (outcome: OfferDecision)
    requires Inv(t) && cmd.DecideOffer? && Handle(t, cmd, policy).Success?
    ensures cmd.offerId in t.offers && !Finished(t.offers[cmd.offerId])
    ensures outcome.offer.candidate == t.offers[cmd.offerId].candidate && outcome.offer.candidate in t.candidates
    ensures outcome.offer.status.Approved? <==> outcome.candidateTarget == Some(OfferApproved)
    ensures outcome.offer.status.PendingApproval? <==> outcome.candidateTarget.None?
    ensures
      var t', moved := Handle(t, cmd, policy).value, outcome.offer.candidate;
      && t'.offers == t.offers[cmd.offerId := outcome.offer]
      && t'.candidates.Keys == t.candidates.Keys
      && (forall c | c in t.candidates && (c != moved || outcome.candidateTarget.None?) ::
            t'.candidates[c] == t.candidates[c])
      && (outcome.candidateTarget.Some? ==>
            && t.candidates[moved].record.stage == OfferPendingApproval
            && outcome.candidateTarget.value in {OfferApproved, OfferRejected}
            && t'.candidates[moved].record.stage == outcome.candidateTarget.value)
  {
    var plan := DecidePlanned(t, cmd, policy);
    outcome := plan.outcome;
    assert OfferOk(t, plan.offer.id);
    DecidedOfferWasPending(t, plan, policy);
    CommitDecideEffect(t, plan, policy);
    CommitDecideMoves(t, plan, policy);
    if plan.candidateMove.Some? {
      MoveToDecided(t, plan.candidateMove.value, cmd.now);
    }
  }

  lemma ApprovedOfferAfterWrite(offers: map<Id, Offer>, o: Id, offer: Offer, candidate: Id)
    requires o in offers && !offers[o].status.Approved?
    ensures HasApprovedOffer(offers[o := offer], candidate) <==>
            HasApprovedOffer(offers, candidate) || (offer.candidate == candidate && offer.status.Approved?)
  {
    var written := offers[o := offer];
    if k :| k in offers && offers[k].candidate == candidate && offers[k].status.Approved? {
      assert written[k] == offers[k];
    }
    if offer.candidate == candidate && offer.status.Approved? {
      assert written[o] == offer;
    }
  }

  lemma DecisionIsTraced(cmds: seq<Command>, cmd: Command, t: Tables, t': Tables, outcome: OfferDecision, id: Id)
    requires ApprovalTraced(cmds, t, id) && t'.candidates.Keys == t.candidates.Keys
             && outcome.offer.candidate in t.candidates
    requires RoutedToApproved(cmds + [cmd], id) <==> RoutedToApproved(cmds, id)
    requires HasApprovedOffer(t'.offers, id) <==>
             HasApprovedOffer(t.offers, id) || (outcome.offer.candidate == id && outcome.offer.status.Approved?)
    requires outcome.offer.status.Approved? <==> outcome.candidateTarget == Some(OfferApproved)
    requires forall c | c in t.candidates && (c != outcome.offer.candidate || outcome.candidateTarget.None?) ::
               t'.candidates[c] == t.candidates[c]
    requires outcome.candidateTarget.Some? ==>
               && t.candidates[outcome.offer.candidate].record.stage == OfferPendingApproval
               && t'.candidates[outcome.offer.candidate].record.stage == outcome.candidateTarget.value
               && outcome.candidateTarget.value in {OfferApproved, OfferRejected}
    ensures ApprovalTraced(cmds + [cmd], t', id)
  {
  }

  lemma DecideKeepsTraced(cmds: seq<Command>, t: Tables, cmd: Command, policy: ApprovalPolicy, id: Id)
    requires Inv(t) && ApprovalTraced(cmds, t, id) && cmd.DecideOffer? && Handle(t, cmd, policy).Success?
    ensures ApprovalTraced(cmds + [cmd], Handle(t, cmd, policy).value, id)
  {
    RoutedGrows(cmds, cmd, id);
    var outcome := DecideMoves(t, cmd, policy);
    ApprovedOfferAfterWrite(t.offers, cmd.offerId, outcome.offer, id);
    DecisionIsTraced(cmds, cmd, t, Handle(t, cmd, policy).value, outcome, id);
  }

  lemma HandleKeepsTraced(cmds: seq<Command>, t: Tables, cmd: Command, policy: ApprovalPolicy, id: Id)
    requires Inv(t) && ApprovalTraced(cmds, t, id) && Handle(t, cmd, policy).Success?
    ensures ApprovalTraced(cmds + [cmd], Handle(t, cmd, policy).value, id)
  {
    match cmd
    case OpenCandidate(_, _, _) => OpenKeepsTraced(cmds, t, cmd, policy, id);
    case TransitionCandidate(_, _, _, _, _) => RouteKeepsTraced(cmds, t, cmd, policy, id);
    case CreateOffer(_, _, _, _) => CreateKeepsTraced(cmds, t, cmd, policy, id);
    case DecideOffer(_, _, _, _, _, _, _) => DecideKeepsTraced(cmds, t, cmd, policy, id);
  }

  /** In every run, a candidate that is approved or hired has an approved offer exactly when the stage route did not
      move the candidate to the approved stage. */
  lemma ApprovedOfferIffNotRouted(cmds: seq<Command>, t: Tables, policy: ApprovalPolicy, id: Id)
    requires Leads(NoTables(), cmds, t, policy)
    requires id in t.candidates && t.candidates[id].record.stage in {OfferApproved, Hired}
    ensures HasApprovedOffer(t.offers, id) <==> !RoutedToApproved(cmds, id)
  {
    var p := (past: seq<Command>, u: Tables) => Inv(u) && ApprovalTraced(past, u, id);
    EmptyTablesInv();
    forall past, u, cmd, v | p(past, u) && Next(policy)(u, cmd, v) ensures p(past + [cmd], v) {
      HandleKeepsInv(u, cmd, policy);
      HandleKeepsTraced(past, u, cmd, policy, id);
    }
    Runs.LeadsKeepsWithPast(Next(policy), p, NoTables(), cmds, t);
  }

  // ---------------------------------------------------------------------------------------------------------------
  // Waiting candidates

  predicate Creates(cmd: Command, offer: Id) {
    cmd.CreateOffer? && cmd.offerId == offer
  }

  predicate Created(cmds: seq<Command>, offer: Id) {
    exists i :: 0 <= i < |cmds| && Creates(cmds[i], offer)
  }

  /** The stage route moved the candidate after the offer was created. */
  predicate MovedSince(cmds: seq<Command>, offer: Id, candidate: Id) {
    exists i, j :: 0 <= i < j < |cmds| && Creates(cmds[i], offer) && Moves(cmds[j], candidate)
  }

  lemma CreatedGrows(cmds: seq<Command>, cmd: Command, offer: Id)
    ensures Created(cmds + [cmd], offer) <==> Created(cmds, offer) || Creates(cmd, offer)
  {
    assert (cmds + [cmd])[|cmds|] == cmd;
    if i :| 0 <= i < |cmds| && Creates(cmds[i], offer) {
      assert (cmds + [cmd])[i] == cmds[i];
    }
  }

  lemma MovedSinceGrows(cmds: seq<Command>, cmd: Command, offer: Id, candidate: Id)
    ensures MovedSince(cmds + [cmd], offer, candidate) <==>
            MovedSince(cmds, offer, candidate) || (Created(cmds, offer) && Moves(cmd, candidate))
  {
    var longer := cmds + [cmd];
    assert longer[|cmds|] == cmd;
    if i, j :| 0 <= i < j < |cmds| && Creates(cmds[i], offer) && Moves(cmds[j], candidate) {
      assert longer[i] == cmds[i] && longer[j] == cmds[j];
    }
    if i :| 0 <= i < |cmds| && Creates(cmds[i], offer) {
      assert longer[i] == cmds[i];
    }
  }

  /** What the run so far says about a pending offer's candidate. */
  ghost predicate WaitingTraced(cmds: seq<Command>, t: Tables, id: Id) {
    && (Created(cmds, id) <==> id in t.offers)
    && (id in t.offers && !Finished(t.offers[id]) ==>
          && t.offers[id].candidate in t.candidates
          && (t.candidates[t.offers[id].candidate].record.stage == OfferPendingApproval <==>
                !MovedSince(cmds, id, t.offers[id].candidate)))
  }

  lemma OpenKeepsWaiting(cmds: seq<Command>, t: Tables, cmd: Command, policy: ApprovalPolicy, id: Id)
    requires Inv(t) && WaitingTraced(cmds, t, id) && cmd.OpenCandidate? && Handle(t, cmd, policy).Success?
    ensures WaitingTraced(cmds + [cmd], Handle(t, cmd, policy).value, id)
  {
    CreatedGrows(cmds, cmd, id);
    if id in t.offers {
      MovedSinceGrows(cmds, cmd, id, t.offers[id].candidate);
    }
  }

  lemma RouteKeepsWaiting(cmds: seq<Command>, t: Tables, cmd: Command, policy: ApprovalPolicy, id: Id)
    requires Inv(t) && WaitingTraced(cmds, t, id) && cmd.TransitionCandidate? && Handle(t, cmd, policy).Success?
    ensures WaitingTraced(cmds + [cmd], Handle(t, cmd, policy).value, id)
  {
    CreatedGrows(cmds, cmd, id);
    assert CandidateOk(cmd.candidate, t.candidates[cmd.candidate]);
    if id in t.offers {
      assert OfferOk(t, id);
      MovedSinceGrows(cmds, cmd, id, t.offers[id].candidate);
    }
  }

  lemma CreateKeepsWaiting(cmds: seq<Command>, t: Tables, cmd: Command, policy: ApprovalPolicy, id: Id)
    requires Inv(t) && WaitingTraced(cmds, t, id) && cmd.CreateOffer? && Handle(t, cmd, policy).Success?
    ensures WaitingTraced(cmds + [cmd], Handle(t, cmd, policy).value, id)
  {
    CreatedGrows(cmds, cmd, id);
    CreateEffect(t, cmd, policy);
    assert CandidateOk(cmd.candidate, t.candidates[cmd.candidate]);
    InterviewingHasNoOffer(t, cmd.candidate);
    MovedSinceGrows(cmds, cmd, id, cmd.candidate);
    if id in t.offers {
      MovedSinceGrows(cmds, cmd, id, t.offers[id].candidate);
    } else if MovedSince(cmds, id, cmd.candidate) {
      assert Created(cmds, id);
    }
  }

  lemma DecideKeepsWaiting(cmds: seq<Command>, t: Tables, cmd: Command, policy: ApprovalPolicy, id: Id)
    requires Inv(t) && WaitingTraced(cmds, t, id) && cmd.DecideOffer? && Handle(t, cmd, policy).Success?
    ensures WaitingTraced(cmds + [cmd], Handle(t, cmd, policy).value, id)
  {
    CreatedGrows(cmds, cmd, id);
    var outcome := DecideMoves(t, cmd, policy);
    if id in t.offers {
      MovedSinceGrows(cmds, cmd, id, t.offers[id].candidate);
      if id != cmd.offerId {
        assert t.offers[id].candidate != t.offers[cmd.offerId].candidate;
      }
    }
  }

  lemma HandleKeepsWaiting(cmds: seq<Command>, t: Tables, cmd: Command, policy: ApprovalPolicy, id: Id)
    requires Inv(t) && WaitingTraced(cmds, t, id) && Handle(t, cmd, policy).Success?
    ensures WaitingTraced(cmds + [cmd], Handle(t, cmd, policy).value, id)
  {
    match cmd
    case OpenCandidate(_, _, _) => OpenKeepsWaiting(cmds, t, cmd, policy, id);
    case TransitionCandidate(_, _, _, _, _) => RouteKeepsWaiting(cmds, t, cmd, policy, id);
    case CreateOffer(_, _, _, _) => CreateKeepsWaiting(cmds, t, cmd, policy, id);
    case DecideOffer(_, _, _, _, _, _, _) => DecideKeepsWaiting(cmds, t, cmd, policy, id);
  }

  /** In every run, the candidate of a pending offer still waits for the approval exactly when the stage route has
      not moved the candidate since the offer was created. */
  lemma WaitingIffNotMoved(cmds: seq<Command>, t: Tables, policy: ApprovalPolicy, id: Id)
    requires Leads(NoTables(), cmds, t, policy) && id in t.offers && t.offers[id].status.PendingApproval?
    ensures t.offers[id].candidate in t.candidates
    ensures t.candidates[t.offers[id].candidate].record.stage == OfferPendingApproval
            <==> !MovedSince(cmds, id, t.offers[id].candidate)
  {
    var p := (past: seq<Command>, u: Tables) => Inv(u) && WaitingTraced(past, u, id);
    EmptyTablesInv();
    forall past, u, cmd, v | p(past, u) && Next(policy)(u, cmd, v) ensures p(past + [cmd], v) {
      HandleKeepsInv(u, cmd, policy);
      HandleKeepsWaiting(past, u, cmd, policy, id);
    }
    Runs.LeadsKeepsWithPast(Next(policy), p, NoTables(), cmds, t);
  }

  // ---------------------------------------------------------------------------------------------------------------
  // Terminal times

  /** The stage route rejected or withdrew the candidate at that time. */
  predicate Closes(cmd: Command, candidate: Id, at: int) {
    Moves(cmd, candidate) && cmd.target in {Some(Stage.Rejected), Some(Withdrawn)} && cmd.now == at
  }

  predicate ClosedAt(cmds: seq<Command>, candidate: Id, at: int) {
    exists i :: 0 <= i < |cmds| && Closes(cmds[i], candidate, at)
  }

  lemma ClosedGrows(cmds: seq<Command>, cmd: Command, candidate: Id, at: int)
    ensures ClosedAt(cmds + [cmd], candidate, at) <==> ClosedAt(cmds, candidate, at) || Closes(cmd, candidate, at)
  {
    assert (cmds + [cmd])[|cmds|] == cmd;
    if i :| 0 <= i < |cmds| && Closes(cmds[i], candidate, at) {
      assert (cmds + [cmd])[i] == cmds[i];
    }
  }

  /** The row's terminal time. */
  predicate TerminalSince(t: Tables, id: Id, at: int) {
    id in t.candidates && t.candidates[id].terminalAt == Some(at)
  }

  lemma RouteSetsTerminal(t: Tables, cmd: Command, policy: ApprovalPolicy, id: Id, at: int)
    requires Inv(t) && cmd.TransitionCandidate? && Handle(t, cmd, policy).Success?
    ensures TerminalSince(Handle(t, cmd, policy).value, id, at) <==> TerminalSince(t, id, at) || Closes(cmd, id, at)
  {
    TransitionSucceedsIff(t, cmd, policy);
    assert CandidateOk(cmd.candidate, t.candidates[cmd.candidate]);
  }

  lemma CreateKeepsTerminal(t: Tables, cmd: Command, policy: ApprovalPolicy, id: Id, at: int)
    requires Inv(t) && cmd.CreateOffer? && Handle(t, cmd, policy).Success?
    ensures TerminalSince(Handle(t, cmd, policy).value, id, at) <==> TerminalSince(t, id, at)
  {
    CreateSucceedsIff(t, cmd, policy);
    assert CandidateOk(cmd.candidate, t.candidates[cmd.candidate]);
  }

  lemma DecideKeepsTerminal(t: Tables, cmd: Command, policy: ApprovalPolicy, id: Id, at: int)
    requires Inv(t) && cmd.DecideOffer? && Handle(t, cmd, policy).Success?
    ensures TerminalSince(Handle(t, cmd, policy).value, id, at) <==> TerminalSince(t, id, at)
  {
    var t' := Handle(t, cmd, policy).value;
    assert Inv(t') by {
      HandleKeepsInv(t, cmd, policy);
    }
    var _ := DecideMoves(t, cmd, policy);
    if id in t.candidates {
      assert CandidateOk(id, t.candidates[id]) && CandidateOk(id, t'.candidates[id]);
    }
  }

  /** Only a move of the stage route to the rejected or withdrawn stage sets a terminal time, to its own time; nothing
      changes one. */
  lemma HandleSetsTerminal(t: Tables, cmd: Command, policy: ApprovalPolicy, id: Id, at: int)
    requires Inv(t) && Handle(t, cmd, policy).Success?
    ensures TerminalSince(Handle(t, cmd, policy).value, id, at) <==> TerminalSince(t, id, at) || Closes(cmd, id, at)
  {
    match cmd
    case OpenCandidate(_, _, _) => OpenSucceedsIff(t, cmd, policy);
    case TransitionCandidate(_, _, _, _, _) => RouteSetsTerminal(t, cmd, policy, id, at);
    case CreateOffer(_, _, _, _) => CreateKeepsTerminal(t, cmd, policy, id, at);
    case DecideOffer(_, _, _, _, _, _, _) => DecideKeepsTerminal(t, cmd, policy, id, at);
  }

  /** In every run, a candidate is rejected or withdrawn since exactly the time of the command of the run that moved
      them there. */
  lemma TerminalTimeIsTheMove(cmds: seq<Command>, t: Tables, policy: ApprovalPolicy, id: Id, at: int)
    requires Leads(NoTables(), cmds, t, policy)
    ensures ClosedAt(cmds, id, at) <==> id in t.candidates && t.candidates[id].terminalAt == Some(at)
    ensures id in t.candidates ==>
              (t.candidates[id].terminalAt.Some? <==> t.candidates[id].record.stage in {Stage.Rejected, Withdrawn})
  {
    var p := (past: seq<Command>, u: Tables) => Inv(u) && (ClosedAt(past, id, at) <==> TerminalSince(u, id, at));
    EmptyTablesInv();
    forall past, u, cmd, v | p(past, u) && Next(policy)(u, cmd, v) ensures p(past + [cmd], v) {
      HandleKeepsInv(u, cmd, policy);
      HandleSetsTerminal(u, cmd, policy, id, at);
      ClosedGrows(past, cmd, id, at);
    }
    Runs.LeadsKeepsWithPast(Next(policy), p, NoTables(), cmds, t);
    assert p(cmds, t) && Inv(t);
    if id in t.candidates {
      assert CandidateOk(id, t.candidates[id]);
    }
  }

  // ---------------------------------------------------------------------------------------------------------------
  // Interleaved runs

  ghost predicate StartsEmpty(states: seq<I.Office>) {
    states != [] && states[0] == I.Office(NoTables(), map[])
  }

  lemma CommittedLead(states: seq<I.Office>, steps: seq<I.TaskStep>, policy: ApprovalPolicy)
    requires I.IsRun(states, steps, policy) && StartsEmpty(states)
    ensures Leads(NoTables(), I.Committed(states, steps), states[|states| - 1].tables, policy)
  {
    EmptyTablesInv();
    I.Serialisable(states, steps, policy);
  }

  /** With reads and commits of any number of handlers interleaved, the same holds of the commands that the run
      commits. */
  lemma ApprovedOfferIffNotRoutedInterleaved(states: seq<I.Office>, steps: seq<I.TaskStep>, policy: ApprovalPolicy,
                                             id: Id)
    requires I.IsRun(states, steps, policy) && StartsEmpty(states)
    requires id in states[|states| - 1].tables.candidates
    requires states[|states| - 1].tables.candidates[id].record.stage in {OfferApproved, Hired}
    ensures HasApprovedOffer(states[|states| - 1].tables.offers, id)
            <==> !RoutedToApproved(I.Committed(states, steps), id)
  {
    CommittedLead(states, steps, policy);
    ApprovedOfferIffNotRouted(I.Committed(states, steps), states[|states| - 1].tables, policy, id);
  }

  lemma WaitingIffNotMovedInterleaved(states: seq<I.Office>, steps: seq<I.TaskStep>, policy: ApprovalPolicy, id: Id)
    requires I.IsRun(states, steps, policy) && StartsEmpty(states)
    requires id in states[|states| - 1].tables.offers && states[|states| - 1].tables.offers[id].status.PendingApproval?
    ensures
      var t, cmds := states[|states| - 1].tables, I.Committed(states, steps);
      && t.offers[id].candidate in t.candidates
      && (t.candidates[t.offers[id].candidate].record.stage == OfferPendingApproval
          <==> !MovedSince(cmds, id, t.offers[id].candidate))
  {
    CommittedLead(states, steps, policy);
    WaitingIffNotMoved(I.Committed(states, steps), states[|states| - 1].tables, policy, id);
  }

  lemma TerminalTimeIsTheMoveInterleaved(states: seq<I.Office>, steps: seq<I.TaskStep>, policy: ApprovalPolicy, id: Id,
                                         at: int)
    requires I.IsRun(states, steps, policy) && StartsEmpty(states)
    ensures
      var t := states[|states| - 1].tables;
      ClosedAt(I.Committed(states, steps), id, at) <==> id in t.candidates && t.candidates[id].terminalAt == Some(at)
  {
    CommittedLead(states, steps, policy);
    TerminalTimeIsTheMove(I.Committed(states, steps), states[|states| - 1].tables, policy, id, at);
  }
}
