/** What a purge leaves of a person, and when a person is due or on hold, told by the commands of the run alone. */
module RetentionHistory {
  import opened Prelude
  import opened CandidateWorkflow
  import opened Retention
  import H = Hiring
  import OfferApproval
  import I = HiringInvariants
  import S = StageRoute

  // ---------------------------------------------------------------------------------------------------------------
  // What a purge leaves

  lemma DigitsDiffer(a: nat, b: nat)
    requires a < 10 && b < 10 && "0123456789"[a] == "0123456789"[b]
    ensures a == b
  {
  }

  lemma {:induction false} TextIsInjective(a: Id, b: Id)
    requires Text(a) == Text(b)
    ensures a == b
    decreases a
  {
    assert Text(a)[|Text(a)| - 1] == "0123456789"[a % 10] && Text(b)[|Text(b)| - 1] == "0123456789"[b % 10];
    DigitsDiffer(a % 10, b % 10);
    assert |Text(a / 10)| >= 1 && |Text(b / 10)| >= 1;
    if a >= 10 && b >= 10 {
      assert Text(a)[..|Text(a)| - 1] == Text(a / 10) && Text(b)[..|Text(b)| - 1] == Text(b / 10);
      TextIsInjective(a / 10, b / 10);
    }
  }

  /** Two people never get the same redacted email. */
  lemma EmailsDiffer(a: Id, b: Id)
    requires a != b
    ensures RedactedEmail(a) != RedactedEmail(b)
  {
    if RedactedEmail(a) == RedactedEmail(b) {
      assert Text(a) == RedactedEmail(a)[7..|RedactedEmail(a)| - 17];
      assert Text(b) == RedactedEmail(b)[7..|RedactedEmail(b)| - 17];
      TextIsInjective(a, b);
    }
  }

  /** The two registries differ at most in the names and emails of the people due. */
  ghost predicate DifferInDueData(a: Registry, b: Registry, tenant: Id, now: int) {
    && a.(people := b.people) == b && a.people.Keys == b.people.Keys
    && forall id | id in a.people ::
         if Due(a, tenant, now, id) then a.people[id].anonymizedAt == b.people[id].anonymizedAt
         else a.people[id] == b.people[id]
  }

  /** A purge forgets: afterwards nothing tells what the names and emails of the people due were. */
  lemma PurgeForgets(a: Registry, b: Registry, tenant: Id, now: int)
    requires DifferInDueData(a, b, tenant, now)
    ensures Purge(a, tenant, now) == Purge(b, tenant, now)
  {
    assert DueSet(a, tenant, now) == DueSet(b, tenant, now);
    assert AttachmentsOf(a, tenant, DueSet(a, tenant, now)) == AttachmentsOf(b, tenant, DueSet(b, tenant, now));
    assert Purge(a, tenant, now).people == Purge(b, tenant, now).people;
  }

  /** The document is one of the tenant's person due. */
  predicate Taken(reg: Registry, tenant: Id, now: int, a: Id) {
    a in reg.attachments && reg.attachments[a].tenant == tenant && Due(reg, tenant, now, reg.attachments[a].person)
  }

  /** A purge takes exactly the names, emails and documents of the people due. */
  lemma PurgeTakesExactly(reg: Registry, tenant: Id, now: int)
    ensures
      var reg' := Purge(reg, tenant, now);
      && reg'.people.Keys == reg.people.Keys
      && (forall id | id in reg.people ::
            reg'.people[id] ==
            if Due(reg, tenant, now, id)
            then Person("Redacted", "Candidate", "purged+" + Text(id) + "@redacted.invalid", Some(now))
            else reg.people[id])
      && (forall a :: a in reg'.attachments <==> a in reg.attachments && !Taken(reg, tenant, now, a))
      && (forall a | a in reg'.attachments :: reg'.attachments[a] == reg.attachments[a])
      && (forall key :: key in reg'.blobs <==>
            key in reg.blobs && !exists a :: Taken(reg, tenant, now, a) && reg.attachments[a].key == key)
      && (forall key | key in reg'.blobs :: reg'.blobs[key] == reg.blobs[key])
      && reg'.tables == reg.tables && reg'.policies == reg.policies && reg'.holds == reg.holds
  {
    var gone := AttachmentsOf(reg, tenant, DueSet(reg, tenant, now));
    forall a ensures a in gone <==> Taken(reg, tenant, now, a) {
    }
    forall key ensures key in KeysOf(reg.attachments, gone) <==>
                       exists a :: Taken(reg, tenant, now, a) && reg.attachments[a].key == key
    {
      if key in KeysOf(reg.attachments, gone) {
        var a :| a in gone && reg.attachments[a].key == key;
        assert Taken(reg, tenant, now, a);
      }
    }
  }

  // ---------------------------------------------------------------------------------------------------------------
  // Holds

  /** What one request does: nothing for a person the tenant does not have, a hold with the reason given or else the one
      there was or the default, or a release. */
  lemma HoldRequestEffect(reg: Registry, tenant: Id, id: Id, held: bool, reason: Option<string>)
    requires HoldsOk(reg)
    ensures
      var reg' := ApplyHold(reg, tenant, id, held, reason);
      && reg' == reg.(holds := reg'.holds)
      && (forall k | k != id :: k in reg'.holds <==> k in reg.holds)
      && (forall k | k != id && k in reg.holds :: reg'.holds[k] == reg.holds[k])
      && (!PersonExists(reg, tenant, id) ==> reg' == reg)
      && (PersonExists(reg, tenant, id) && !held ==> id !in reg'.holds)
      && (PersonExists(reg, tenant, id) && held ==>
            id in reg'.holds &&
            reg'.holds[id] == Hold(tenant, match reason
                                           case Some(text) =>
                                             if text != "" then text
                                             else if id in reg.holds then reg.holds[id].reason else "Legal hold"
                                           case None =>
                                             if id in reg.holds then reg.holds[id].reason else "Legal hold"))
  {
    assert id in reg.holds ==> PersonExists(reg, reg.holds[id].tenant, id);
  }

  /** The i-th command asks for a hold, or for a release, of a person that the tenant has by then. */
  ghost predicate Asked(cmds: seq<Command>, i: nat, id: Id, held: bool) {
    && i < |cmds| && cmds[i].SetHold? && cmds[i].id == id && cmds[i].held == held
    && PersonExists(Run(NoState(), cmds[..i]).reg, cmds[i].tenant, id)
  }

  /** Some request for a hold has not been followed by a release. */
  ghost predicate OnHold(cmds: seq<Command>, id: Id) {
    exists i: nat :: Asked(cmds, i, id, true) && forall j: nat | i < j :: !Asked(cmds, j, id, false)
  }

  lemma AskedGrows(cmds: seq<Command>, cmd: Command, i: nat, id: Id, held: bool)
    ensures Asked(cmds + [cmd], i, id, held) <==>
            Asked(cmds, i, id, held)
            || (i == |cmds| && cmd.SetHold? && cmd.id == id && cmd.held == held
                && PersonExists(Run(NoState(), cmds).reg, cmd.tenant, id))
  {
    if i <= |cmds| {
      assert (cmds + [cmd])[..i] == cmds[..i];
      assert cmds[..|cmds|] == cmds;
    }
  }

  lemma OnHoldGrows(cmds: seq<Command>, cmd: Command, id: Id)
    ensures
      var asks := cmd.SetHold? && cmd.id == id && PersonExists(Run(NoState(), cmds).reg, cmd.tenant, id);
      OnHold(cmds + [cmd], id) <==> if asks then cmd.held else OnHold(cmds, id)
  {
    var longer := cmds + [cmd];
    var asks := cmd.SetHold? && cmd.id == id && PersonExists(Run(NoState(), cmds).reg, cmd.tenant, id);
    forall i: nat, held: bool
      ensures Asked(longer, i, id, held) <==> Asked(cmds, i, id, held) || (i == |cmds| && asks && cmd.held == held)
    {
      AskedGrows(cmds, cmd, i, id, held);
    }
    if asks && cmd.held {
      assert Asked(longer, |cmds|, id, true);
    } else if asks {
      assert Asked(longer, |cmds|, id, false);
    } else if OnHold(cmds, id) {
      var i: nat :| Asked(cmds, i, id, true) && forall j: nat | i < j :: !Asked(cmds, j, id, false);
      assert Asked(longer, i, id, true);
    }
  }

  lemma HoldStep(s: State, cmd: Command, id: Id)
    requires HoldsOk(s.reg)
    ensures id in Apply(s, cmd).reg.holds <==>
            if cmd.SetHold? && cmd.id == id && PersonExists(s.reg, cmd.tenant, id) then cmd.held else id in s.reg.holds
  {
    if cmd.SetHold? {
      HoldRequestEffect(s.reg, cmd.tenant, cmd.id, cmd.held, cmd.reason);
    }
  }

  /** In every run a person is on hold exactly when the last request for them by their own tenant asked for it. */
  lemma {:induction false} HeldIffAsked(cmds: seq<Command>, id: Id)
    ensures id in Run(NoState(), cmds).reg.holds <==> OnHold(cmds, id)
    decreases |cmds|
  {
    if cmds != [] {
      var prior, cmd := cmds[..|cmds| - 1], cmds[|cmds| - 1];
      assert cmds == prior + [cmd];
      HeldIffAsked(prior, id);
      RunKeepsHoldsOk(NoState(), prior);
      OnHoldGrows(prior, cmd, id);
      HoldStep(Run(NoState(), prior), cmd, id);
    }
  }

  // ---------------------------------------------------------------------------------------------------------------
  // Periods

  /** The i-th command is a successful move of the person to the rejected or withdrawn stage at that time. */
  ghost predicate ClosesAt(cmds: seq<Command>, i: nat, id: Id, at: int) {
    && i < |cmds| && cmds[i].Desk? && S.Closes(cmds[i].cmd, id, at)
    && H.Handle(Run(NoState(), cmds[..i]).reg.tables, cmds[i].cmd, cmds[i].policy).Success?
  }

  ghost predicate Closed(cmds: seq<Command>, id: Id, at: int) {
    exists i: nat :: ClosesAt(cmds, i, id, at)
  }

  lemma ClosedGrows(cmds: seq<Command>, cmd: Command, id: Id, at: int)
    ensures Closed(cmds + [cmd], id, at) <==>
            Closed(cmds, id, at)
            || (cmd.Desk? && S.Closes(cmd.cmd, id, at)
                && H.Handle(Run(NoState(), cmds).reg.tables, cmd.cmd, cmd.policy).Success?)
  {
    var longer := cmds + [cmd];
    assert longer[..|cmds|] == cmds;
    if i: nat :| ClosesAt(longer, i, id, at) && i < |cmds| {
      assert longer[..i] == cmds[..i];
      assert ClosesAt(cmds, i, id, at);
    }
    if i: nat :| ClosesAt(cmds, i, id, at) {
      assert longer[..i] == cmds[..i];
      assert ClosesAt(longer, i, id, at);
    }
    if cmd.Desk? && S.Closes(cmd.cmd, id, at)
       && H.Handle(Run(NoState(), cmds).reg.tables, cmd.cmd, cmd.policy).Success? {
      assert ClosesAt(longer, |cmds|, id, at);
    }
  }

  /** What the run so far says about the terminal time. */
  ghost predicate PeriodTraced(cmds: seq<Command>, t: H.Tables, id: Id, at: int) {
    I.Inv(t) && (Closed(cmds, id, at) <==> S.TerminalSince(t, id, at))
  }

  /** A command changes the shared tables exactly when it is a handler's that succeeds and, opening a candidate,
      finds no such person. */
  lemma TablesStep(s: State, cmd: Command)
    ensures
      Apply(s, cmd).reg.tables ==
      if cmd.Desk? && H.Handle(s.reg.tables, cmd.cmd, cmd.policy).Success?
         && !(cmd.cmd.OpenCandidate? && cmd.cmd.id in s.reg.people)
      then H.Handle(s.reg.tables, cmd.cmd, cmd.policy).value else s.reg.tables
  {
  }

  lemma HandlerStep(t: H.Tables, cmd: H.Command, policy: OfferApproval.ApprovalPolicy, id: Id, at: int)
    requires I.Inv(t) && H.Handle(t, cmd, policy).Success?
    ensures I.Inv(H.Handle(t, cmd, policy).value)
    ensures S.TerminalSince(H.Handle(t, cmd, policy).value, id, at) <==>
            S.TerminalSince(t, id, at) || S.Closes(cmd, id, at)
  {
    I.HandleKeepsInv(t, cmd, policy);
    S.HandleSetsTerminal(t, cmd, policy, id, at);
  }

  lemma PeriodStep(cmds: seq<Command>, cmd: Command, id: Id, at: int)
    requires PeriodTraced(cmds, Run(NoState(), cmds).reg.tables, id, at)
    ensures PeriodTraced(cmds + [cmd], Apply(Run(NoState(), cmds), cmd).reg.tables, id, at)
  {
    ClosedGrows(cmds, cmd, id, at);
    TablesStep(Run(NoState(), cmds), cmd);
    if cmd.Desk? && H.Handle(Run(NoState(), cmds).reg.tables, cmd.cmd, cmd.policy).Success? {
      HandlerStep(Run(NoState(), cmds).reg.tables, cmd.cmd, cmd.policy, id, at);
    }
  }

  lemma {:induction false} PeriodRun(cmds: seq<Command>, id: Id, at: int)
    ensures PeriodTraced(cmds, Run(NoState(), cmds).reg.tables, id, at)
    decreases |cmds|
  {
    if cmds == [] {
      I.EmptyTablesInv();
    } else {
      var prior, cmd := cmds[..|cmds| - 1], cmds[|cmds| - 1];
      assert cmds == prior + [cmd];
      PeriodRun(prior, id, at);
      PeriodStep(prior, cmd, id, at);
    }
  }

  /** A person whom a command of the run rejected or withdrew is due exactly when the tenant's days have passed since
      that command's time, the last request of the tenant about a hold did not ask for one, and they are not
      anonymised yet. */
  lemma DueIff(cmds: seq<Command>, tenant: Id, now: int, id: Id, at: int)
    requires Closed(cmds, id, at)
    ensures
      var reg := Run(NoState(), cmds).reg;
      Due(reg, tenant, now, id) <==>
        && tenant in reg.policies && now >= at + reg.policies[tenant] * 86400
        && PersonExists(reg, tenant, id) && reg.people[id].anonymizedAt.None?
        && !OnHold(cmds, id)
  {
    PeriodRun(cmds, id, at);
    HeldIffAsked(cmds, id);
    RunKeepsHoldsOk(NoState(), cmds);
    var reg := Run(NoState(), cmds).reg;
    assert S.TerminalSince(reg.tables, id, at);
    assert I.CandidateOk(id, reg.tables.candidates[id]);
  }

  /** And nobody else is due. */
  lemma OnlyClosedAreDue(cmds: seq<Command>, tenant: Id, now: int, id: Id) returns (i: nat, at: int)
    requires Due(Run(NoState(), cmds).reg, tenant, now, id)
    ensures ClosesAt(cmds, i, id, at)
  {
    at := Run(NoState(), cmds).reg.tables.candidates[id].terminalAt.value;
    PeriodRun(cmds, id, at);
    i :| ClosesAt(cmds, i, id, at);
  }

  /** The period in force is the one set last. */
  ghost predicate PolicySet(cmds: seq<Command>, i: nat, tenant: Id, days: int) {
    i < |cmds| && cmds[i] == SetPolicy(tenant, days)
    && forall j | i < j < |cmds| :: !(cmds[j].SetPolicy? && cmds[j].tenant == tenant)
  }

  lemma PolicySetGrows(cmds: seq<Command>, cmd: Command, tenant: Id, days: int)
    ensures (exists i: nat :: PolicySet(cmds + [cmd], i, tenant, days)) <==>
            if cmd.SetPolicy? && cmd.tenant == tenant then cmd.days == days
            else exists i: nat :: PolicySet(cmds, i, tenant, days)
  {
    var longer := cmds + [cmd];
    if i: nat :| PolicySet(cmds, i, tenant, days) && !(cmd.SetPolicy? && cmd.tenant == tenant) {
      assert PolicySet(longer, i, tenant, days);
    }
    if i: nat :| PolicySet(longer, i, tenant, days) {
      if i < |cmds| {
        assert longer[|cmds|] == cmd;
        assert forall j | i < j < |cmds| :: cmds[j] == longer[j];
        assert PolicySet(cmds, i, tenant, days);
      }
    }
    if cmd == SetPolicy(tenant, days) {
      assert PolicySet(longer, |cmds|, tenant, days);
    }
  }

  lemma PolicyStep(s: State, cmd: Command)
    ensures Apply(s, cmd).reg.policies ==
            if cmd.SetPolicy? then s.reg.policies[cmd.tenant := cmd.days] else s.reg.policies
  {
  }

  lemma {:induction false} PolicyIsTheLastSet(cmds: seq<Command>, tenant: Id, days: int)
    ensures
      var policies := Run(NoState(), cmds).reg.policies;
      tenant in policies && policies[tenant] == days <==> exists i: nat :: PolicySet(cmds, i, tenant, days)
    decreases |cmds|
  {
    if cmds != [] {
      var prior, cmd := cmds[..|cmds| - 1], cmds[|cmds| - 1];
      assert cmds == prior + [cmd];
      PolicyIsTheLastSet(prior, tenant, days);
      PolicySetGrows(prior, cmd, tenant, days);
      PolicyStep(Run(NoState(), prior), cmd);
    }
  }

  /** Nobody is anonymised early: whoever a run anonymises was rejected or withdrawn by a command of it at some time, a
      purge selected them when the days that their tenant had set by then had passed since, their tenant's last request
      about a hold had not asked for one, and nothing personal is left. */
  lemma AnonymisedAfterThePeriod(cmds: seq<Command>, id: Id) returns (i: nat, j: nat, at: int, days: int)
    requires id in Run(NoState(), cmds).reg.people && Run(NoState(), cmds).reg.people[id].anonymizedAt.Some?
    ensures i < j < |cmds| && ClosesAt(cmds, i, id, at) && cmds[j].SelectPurge?
    ensures (exists k: nat :: PolicySet(cmds[..j], k, cmds[j].tenant, days)) && cmds[j].now >= at + days * 86400
    ensures !OnHold(cmds[..j], id)
    ensures Run(NoState(), cmds).reg.people[id] ==
            Person("Redacted", "Candidate", "purged+" + Text(id) + "@redacted.invalid", Some(cmds[j].now))
  {
    j := OnlyDuePeopleAreAnonymised(NoState(), cmds, id);
    var past := cmds[..j];
    var tenant := cmds[j].tenant;
    i, at := OnlyClosedAreDue(past, tenant, cmds[j].now, id);
    assert past[..i] == cmds[..i];
    DueIff(past, tenant, cmds[j].now, id, at);
    days := Run(NoState(), past).reg.policies[tenant];
    PolicyIsTheLastSet(past, tenant, days);
  }
}
