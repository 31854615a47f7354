/** The candidate stage graph and the versioned candidate case. */
module CandidateWorkflow {
  import opened Prelude

  type Id = nat

  datatype Stage =
    | Applied | Screening | Interviewing | OfferPendingApproval | OfferApproved | OfferRejected
    | Hired | Rejected | Withdrawn

  function AllowedTransitions(stage: Stage): set<Stage> {
    match stage
    case Applied => {Screening, Rejected, Withdrawn}
    case Screening => {Interviewing, Rejected, Withdrawn}
    case Interviewing => {OfferPendingApproval, Rejected, Withdrawn}
    case OfferPendingApproval => {OfferApproved, OfferRejected, Withdrawn}
    case OfferApproved => {Hired, Withdrawn}
    case OfferRejected => {Rejected, Withdrawn}
    case Hired => {}
    case Rejected => {}
    case Withdrawn => {}
  }

  predicate Allowed(current: Stage, target: Stage) {
    target in AllowedTransitions(current)
  }

  datatype CandidateCase = CandidateCase(id: Id, tenant: Id, requisition: Id, stage: Stage, version: nat) {
    static function Open(id: Id, tenant: Id, requisition: Id): CandidateCase {
      CandidateCase(id, tenant, requisition, Applied, 1)
    }

    /** `None` is the source's InvalidTransitionError. */
    function Transition(target: Stage): Option<CandidateCase> {
      if Allowed(stage, target) then Some(this.(stage := target, version := version + 1)) else None
    }
  }

  // ---------------------------------------------------------------------------------------------------------------
  // Paths through the graph

  ghost predicate IsPath(path: seq<Stage>) {
    path != [] && forall i | 0 < i < |path| :: Allowed(path[i - 1], path[i])
  }

  /** The stages a case has been in, oldest first. */
  ghost predicate IsHistory(path: seq<Stage>) {
    IsPath(path) && path[0] == Applied
  }

  /** The versions a case can have in each stage. */
  predicate Fits(stage: Stage, version: nat) {
    match stage
    case Applied => version == 1
    case Screening => version == 2
    case Interviewing => version == 3
    case OfferPendingApproval => version == 4
    case OfferApproved => version == 5
    case OfferRejected => version == 5
    case Hired => version == 6
    case Rejected => version in {2, 3, 4, 6}
    case Withdrawn => 2 <= version <= 6
  }

  lemma {:induction false} HistoryFits(path: seq<Stage>)
    requires IsHistory(path)
    ensures Fits(path[|path| - 1], |path|) && |path| <= 6
    decreases |path|
  {
    if |path| > 1 {
      HistoryFits(path[..|path| - 1]);
      assert Allowed(path[|path| - 2], path[|path| - 1]);
    }
  }

  /** The shortest way to each pair of stage and version. */
  function Witness(stage: Stage, version: nat): seq<Stage> {
    [Applied, Screening, Interviewing, OfferPendingApproval,
     if stage in {OfferApproved, Hired} || (stage == Withdrawn && version == 6) then OfferApproved else OfferRejected]
    [..if version < 1 then 0 else if version > 6 then 5 else version - 1] + [stage]
  }

  /** A case can be in `stage` at `version` exactly when some history of that many stages ends there. */
  lemma FitsIffHistory(stage: Stage, version: nat)
    ensures Fits(stage, version) <==>
            exists path :: IsHistory(path) && |path| == version && path[|path| - 1] == stage
  {
    if Fits(stage, version) {
      var path := Witness(stage, version);
      assert IsHistory(path) && |path| == version && path[|path| - 1] == stage;
    }
    forall path | IsHistory(path) && |path| == version && path[|path| - 1] == stage ensures Fits(stage, version) {
      HistoryFits(path);
    }
  }

  ghost predicate Reaches(from: Stage, to: Stage) {
    exists path :: IsPath(path) && path[0] == from && path[|path| - 1] == to
  }

  lemma ReachesSelf(stage: Stage)
    ensures Reaches(stage, stage)
  {
    assert IsPath([stage]);
  }

  lemma ReachesOneMore(from: Stage, mid: Stage, to: Stage)
    requires Reaches(from, mid) && Allowed(mid, to)
    ensures Reaches(from, to)
  {
    var path :| IsPath(path) && path[0] == from && path[|path| - 1] == mid;
    assert IsPath(path + [to]);
  }

  lemma {:induction false} PathStaysIn(path: seq<Stage>, s: set<Stage>)
    requires IsPath(path) && path[0] in s
    requires forall stage, next | stage in s && next in AllowedTransitions(stage) :: next in s
    ensures path[|path| - 1] in s
    decreases |path|
  {
    if |path| > 1 {
      PathStaysIn(path[..|path| - 1], s);
      assert Allowed(path[|path| - 2], path[|path| - 1]);
    }
  }

  lemma ReachesOnly(from: Stage, to: Stage, s: set<Stage>)
    requires Reaches(from, to) && from in s
    requires forall stage, next | stage in s && next in AllowedTransitions(stage) :: next in s
    ensures to in s
  {
    var path :| IsPath(path) && path[0] == from && path[|path| - 1] == to;
    PathStaysIn(path, s);
  }

  /** The moves of at most two steps, for the other direction of the table. */
  lemma ReachesVia(from: Stage, mid: Stage, to: Stage)
    requires from == mid || Allowed(from, mid)
    ensures mid == to || Allowed(mid, to) ==> Reaches(from, to)
  {
    ReachesSelf(from);
    if from != mid {
      ReachesOneMore(from, from, mid);
    }
    if Allowed(mid, to) {
      ReachesOneMore(from, mid, to);
    }
  }

  /** What lies behind an approved offer, a rejected offer, and any offer. */
  lemma ReachTable(stage: Stage)
    ensures Reaches(OfferApproved, stage) <==> stage in {OfferApproved, Hired, Withdrawn}
    ensures Reaches(OfferRejected, stage) <==> stage in {OfferRejected, Rejected, Withdrawn}
    ensures Reaches(OfferPendingApproval, stage) <==>
            stage in {OfferPendingApproval, OfferApproved, OfferRejected, Hired, Rejected, Withdrawn}
  {
    if Reaches(OfferApproved, stage) {
      ReachesOnly(OfferApproved, stage, {OfferApproved, Hired, Withdrawn});
    }
    if Reaches(OfferRejected, stage) {
      ReachesOnly(OfferRejected, stage, {OfferRejected, Rejected, Withdrawn});
    }
    if Reaches(OfferPendingApproval, stage) {
      ReachesOnly(OfferPendingApproval, stage,
                  {OfferPendingApproval, OfferApproved, OfferRejected, Hired, Rejected, Withdrawn});
    }
    ReachesVia(OfferApproved, OfferApproved, stage);
    ReachesVia(OfferRejected, OfferRejected, stage);
    ReachesVia(OfferPendingApproval, OfferPendingApproval, stage);
    ReachesVia(OfferPendingApproval, OfferApproved, stage);
    ReachesVia(OfferPendingApproval, OfferRejected, stage);
  }
}
