/** Candidate retention: policies, legal holds, uploads and purges over the database and the attachment store. */
module Retention {
  import opened Prelude
  import opened CandidateWorkflow

  import H = Hiring
  import OfferApproval

  type Key = string

  /** The columns of a candidate that only retention reads and writes; the others are those of `Hiring.CandidateRow`. */
  datatype Person = Person(firstName: string, lastName: string, email: string, anonymizedAt: Option<int>)

  datatype Hold = Hold(tenant: Id, reason: string)

  datatype Attachment = Attachment(tenant: Id, person: Id, key: Key)

  /** The database tables, and the blobs of the attachment storage, which no transaction covers. Times are in
      seconds. */
  datatype Registry = Registry(
    tables: H.Tables,
    people: map<Id, Person>,
    policies: map<Id, int>,
    holds: map<Id, Hold>,
    attachments: map<Id, Attachment>,
    blobs: map<Key, string>)

  const SECONDS_PER_DAY := 86400

  // ---------------------------------------------------------------------------------------------------------------
  // Purging

  predicate Terminal(stage: Stage) {
    stage in {Rejected, Withdrawn}
  }

  predicate PersonExists(reg: Registry, tenant: Id, id: Id) {
    id in reg.people && id in reg.tables.candidates && reg.tables.candidates[id].record.tenant == tenant
  }

  /** The select statement of a purge. */
  predicate Due(reg: Registry, tenant: Id, now: int, id: Id) {
    && tenant in reg.policies
    && PersonExists(reg, tenant, id)
    && var c := reg.tables.candidates[id];
    && Terminal(c.record.stage)
    && reg.people[id].anonymizedAt.None?
    && c.terminalAt.Some? && c.terminalAt.value <= now - reg.policies[tenant] * SECONDS_PER_DAY
    && !(id in reg.holds && reg.holds[id].tenant == tenant)
  }

  function DueSet(reg: Registry, tenant: Id, now: int): set<Id> {
    set id | id in reg.people && Due(reg, tenant, now, id)
  }

  /** The identifier as text. */
  function Text(id: Id): string {
    (if id < 10 then "" else Text(id / 10)) + ["0123456789"[id % 10]]
  }

  function RedactedEmail(id: Id): string {
    "purged+" + Text(id) + "@redacted.invalid"
  }

  function Redacted(id: Id, p: Person, now: int): Person {
    p.(firstName := "Redacted", lastName := "Candidate", email := RedactedEmail(id), anonymizedAt := Some(now))
  }

  function AttachmentsOf(reg: Registry, tenant: Id, ids: set<Id>): set<Id> {
    set a | a in reg.attachments && reg.attachments[a].person in ids && reg.attachments[a].tenant == tenant
  }

  function KeysOf(attachments: map<Id, Attachment>, names: set<Id>): set<Key> {
    set a | a in names && a in attachments :: attachments[a].key
  }

  /** Anonymise these people and delete their attachments, rows and blobs. */
  function PurgePeople(reg: Registry, tenant: Id, ids: set<Id>, now: int): Registry {
    var gone := AttachmentsOf(reg, tenant, ids);
    reg.(people := map id | id in reg.people :: if id in ids then Redacted(id, reg.people[id], now) else reg.people[id],
         attachments := reg.attachments - gone,
         blobs := reg.blobs - KeysOf(reg.attachments, gone))
  }

  function Purge(reg: Registry, tenant: Id, now: int): Registry {
    PurgePeople(reg, tenant, DueSet(reg, tenant, now), now)
  }

  // ---------------------------------------------------------------------------------------------------------------
  // The other commands

  datatype UploadOutcome = Stored | AddFails | AuditFails | CommitFails

  type PurgeId = nat

  /** `Desk` is any command of the hiring handlers; opening a candidate also stores the personal columns. A purge is
      two commands: its select, and the writes by primary key that follow. Nothing guards or locks the rows in
      between. `AbortPurge` is a purge that has deleted the blobs and whose commit then fails. */
  datatype Command =
    | Desk(cmd: H.Command, policy: OfferApproval.ApprovalPolicy, personal: Person)
    | SetPolicy(tenant: Id, days: int)
    | SetHold(tenant: Id, id: Id, held: bool, reason: Option<string>)
    | Upload(tenant: Id, id: Id, attachment: Id, key: Key, content: string, outcome: UploadOutcome)
    | SelectPurge(purge: PurgeId, tenant: Id, now: int)
    | WritePurge(purge: PurgeId)
    | AbortPurge(purge: PurgeId)

  /** A purge that has selected and not written yet. */
  datatype OpenPurge = OpenPurge(tenant: Id, now: int, selected: set<Id>)

  datatype State = State(reg: Registry, purges: map<PurgeId, OpenPurge>)

  predicate KeyInUse(attachments: map<Id, Attachment>, key: Key) {
    exists a | a in attachments :: attachments[a].key == key
  }

  function ReasonOr(reason: Option<string>, other: string): string {
    if reason.Some? && reason.value != "" then reason.value else other
  }

  function ApplyHold(reg: Registry, tenant: Id, id: Id, held: bool, reason: Option<string>): Registry {
    if !PersonExists(reg, tenant, id) then reg
    else if held then
      if id !in reg.holds then reg.(holds := reg.holds[id := Hold(tenant, ReasonOr(reason, "Legal hold"))])
      else reg.(holds := reg.holds[id := reg.holds[id].(reason := ReasonOr(reason, reg.holds[id].reason))])
    else if id in reg.holds && reg.holds[id].tenant == tenant then reg.(holds := reg.holds - {id})
    else reg
  }

  /** Save the blob, then add, audit and commit; on any failure, which includes a violated unique key, roll back and
      delete. */
  function ApplyUpload(reg: Registry, tenant: Id, id: Id, attachment: Id, key: Key, content: string,
                       outcome: UploadOutcome): Registry
  {
    if !PersonExists(reg, tenant, id) then reg
    else if outcome.Stored? && attachment !in reg.attachments && !KeyInUse(reg.attachments, key) then
      reg.(blobs := reg.blobs[key := content],
           attachments := reg.attachments[attachment := Attachment(tenant, id, key)])
    else reg.(blobs := reg.blobs[key := content] - {key})
  }

  function ApplyDesk(reg: Registry, cmd: H.Command, policy: OfferApproval.ApprovalPolicy, personal: Person): Registry {
    var result := H.Handle(reg.tables, cmd, policy);
    if result.Failure? || (cmd.OpenCandidate? && cmd.id in reg.people) then reg
    else if cmd.OpenCandidate? then
      reg.(tables := result.value, people := reg.people[cmd.id := personal.(anonymizedAt := None)])
    else reg.(tables := result.value)
  }

  function ApplyToRegistry(reg: Registry, cmd: Command): Registry {
    match cmd
    case Desk(desk, policy, personal) => ApplyDesk(reg, desk, policy, personal)
    case SetPolicy(tenant, days) => reg.(policies := reg.policies[tenant := days])
    case SetHold(tenant, id, held, reason) => ApplyHold(reg, tenant, id, held, reason)
    case Upload(tenant, id, attachment, key, content, outcome) =>
      ApplyUpload(reg, tenant, id, attachment, key, content, outcome)
    case _ => reg
  }

  /** The registry after the writes of an open purge. */
  function Written(reg: Registry, q: OpenPurge): Registry {
    PurgePeople(reg, q.tenant, q.selected, q.now)
  }

  function Apply(s: State, cmd: Command): State {
    match cmd
    case SelectPurge(p, tenant, now) =>
      if p in s.purges then s else s.(purges := s.purges[p := OpenPurge(tenant, now, DueSet(s.reg, tenant, now))])
    case WritePurge(p) =>
      if p in s.purges then
        State(Written(s.reg, s.purges[p]), s.purges - {p})
      else s
    case AbortPurge(p) =>
      if p in s.purges then
        State(s.reg.(blobs := Written(s.reg, s.purges[p]).blobs), s.purges - {p})
      else s
    case _ => s.(reg := ApplyToRegistry(s.reg, cmd))
  }

  function Run(s: State, cmds: seq<Command>): State
    decreases |cmds|
  {
    if cmds == [] then s else Apply(Run(s, cmds[..|cmds| - 1]), cmds[|cmds| - 1])
  }

  /** A purge that nothing interrupts. */
  lemma UninterruptedPurge(s: State, p: PurgeId, tenant: Id, now: int)
    requires p !in s.purges
    ensures Apply(Apply(s, SelectPurge(p, tenant, now)), WritePurge(p)) == s.(reg := Purge(s.reg, tenant, now))
  {
    assert s.purges[p := OpenPurge(tenant, now, DueSet(s.reg, tenant, now))] - {p} == s.purges;
  }

  // ---------------------------------------------------------------------------------------------------------------
  // Purges compose over time

  /** Equal but for the recorded moment of anonymisation. */
  ghost predicate SameRecords(a: Registry, b: Registry) {
    && a.tables == b.tables && a.people.Keys == b.people.Keys
    && a.policies == b.policies && a.holds == b.holds && a.attachments == b.attachments && a.blobs == b.blobs
    && forall id | id in a.people ::
         && a.people[id].(anonymizedAt := None) == b.people[id].(anonymizedAt := None)
         && (a.people[id].anonymizedAt.Some? <==> b.people[id].anonymizedAt.Some?)
  }

  lemma DueAfterPurge(reg: Registry, tenant: Id, t1: int, t2: int)
    requires t1 <= t2
    ensures DueSet(reg, tenant, t1) <= DueSet(reg, tenant, t2)
    ensures DueSet(Purge(reg, tenant, t1), tenant, t2) == DueSet(reg, tenant, t2) - DueSet(reg, tenant, t1)
  {
    var reg' := Purge(reg, tenant, t1);
    forall id | id in reg.people
      ensures Due(reg, tenant, t1, id) ==> Due(reg, tenant, t2, id)
      ensures Due(reg', tenant, t2, id) <==> Due(reg, tenant, t2, id) && !Due(reg, tenant, t1, id)
    {
      assert id in DueSet(reg, tenant, t1) <==> Due(reg, tenant, t1, id);
      assert reg'.people[id] ==
             if id in DueSet(reg, tenant, t1) then Redacted(id, reg.people[id], t1) else reg.people[id];
    }
  }

  lemma PurgePeopleTwice(reg: Registry, tenant: Id, first: set<Id>, both: set<Id>, t1: int, t2: int)
    requires first <= both
    ensures SameRecords(PurgePeople(PurgePeople(reg, tenant, first, t1), tenant, both - first, t2),
                        PurgePeople(reg, tenant, both, t2))
  {
    var reg1 := PurgePeople(reg, tenant, first, t1);
    var gone1, gone2 := AttachmentsOf(reg, tenant, first), AttachmentsOf(reg1, tenant, both - first);
    var gone := AttachmentsOf(reg, tenant, both);
    assert gone1 + gone2 == gone;
    assert KeysOf(reg.attachments, gone) == KeysOf(reg.attachments, gone1) + KeysOf(reg1.attachments, gone2) by {
      forall a | a in gone2 ensures reg1.attachments[a].key in KeysOf(reg.attachments, gone) {
        assert reg1.attachments[a] == reg.attachments[a];
      }
      forall a | a in gone1 ensures reg.attachments[a].key in KeysOf(reg.attachments, gone) {
      }
      forall a | a in gone
        ensures reg.attachments[a].key in KeysOf(reg.attachments, gone1) + KeysOf(reg1.attachments, gone2)
      {
        if a in gone2 {
          assert reg1.attachments[a] == reg.attachments[a];
        }
      }
    }
  }

  /** Purging at t1 and again at t2 leaves what purging at t2 alone leaves, the counts add up, and a purge repeated
      at once finds nothing. */
  lemma PurgesCompose(reg: Registry, tenant: Id, t1: int, t2: int)
    requires t1 <= t2
    ensures SameRecords(Purge(Purge(reg, tenant, t1), tenant, t2), Purge(reg, tenant, t2))
    ensures |DueSet(reg, tenant, t1)| + |DueSet(Purge(reg, tenant, t1), tenant, t2)| == |DueSet(reg, tenant, t2)|
    ensures DueSet(Purge(reg, tenant, t1), tenant, t1) == {}
  {
    DueAfterPurge(reg, tenant, t1, t2);
    DueAfterPurge(reg, tenant, t1, t1);
    PurgePeopleTwice(reg, tenant, DueSet(reg, tenant, t1), DueSet(reg, tenant, t2), t1, t2);
    assert DueSet(reg, tenant, t2) == DueSet(reg, tenant, t1) + (DueSet(reg, tenant, t2) - DueSet(reg, tenant, t1));
  }

  // ---------------------------------------------------------------------------------------------------------------
  // Legal holds

  /** A hold belongs to the tenant of its person. */
  ghost predicate HoldsOk(reg: Registry) {
    forall id | id in reg.holds :: PersonExists(reg, reg.holds[id].tenant, id)
  }

  /** No handler removes a candidate or moves it to another tenant. */
  lemma HandleKeepsTenant(t: H.Tables, cmd: H.Command, policy: OfferApproval.ApprovalPolicy, id: Id)
    requires H.Handle(t, cmd, policy).Success? && id in t.candidates
    ensures id in H.Handle(t, cmd, policy).value.candidates
    ensures H.Handle(t, cmd, policy).value.candidates[id].record.tenant == t.candidates[id].record.tenant
  {
  }

  lemma StepKeepsPeople(s: State, cmd: Command, id: Id)
    requires id in s.reg.people && id in s.reg.tables.candidates
    ensures id in Apply(s, cmd).reg.people && id in Apply(s, cmd).reg.tables.candidates
    ensures Apply(s, cmd).reg.tables.candidates[id].record.tenant == s.reg.tables.candidates[id].record.tenant
  {
    if cmd.Desk? && H.Handle(s.reg.tables, cmd.cmd, cmd.policy).Success? {
      HandleKeepsTenant(s.reg.tables, cmd.cmd, cmd.policy, id);
    }
  }

  lemma StepAddsHolds(s: State, cmd: Command, id: Id)
    requires id in Apply(s, cmd).reg.holds
    ensures (id in s.reg.holds && s.reg.holds[id].tenant == Apply(s, cmd).reg.holds[id].tenant)
            || (cmd.SetHold? && PersonExists(s.reg, Apply(s, cmd).reg.holds[id].tenant, id))
  {
  }

  lemma StepKeepsHoldsOk(s: State, cmd: Command)
    requires HoldsOk(s.reg)
    ensures HoldsOk(Apply(s, cmd).reg)
  {
    var t := Apply(s, cmd);
    forall id | id in t.reg.holds ensures PersonExists(t.reg, t.reg.holds[id].tenant, id) {
      StepAddsHolds(s, cmd, id);
      StepKeepsPeople(s, cmd, id);
    }
  }

  lemma {:induction false} RunKeepsHoldsOk(s: State, cmds: seq<Command>)
    requires HoldsOk(s.reg)
    ensures HoldsOk(Run(s, cmds).reg)
    decreases |cmds|
  {
    if cmds != [] {
      RunKeepsHoldsOk(s, cmds[..|cmds| - 1]);
      StepKeepsHoldsOk(Run(s, cmds[..|cmds| - 1]), cmds[|cmds| - 1]);
    }
  }

  /** A release of the person's hold by their own tenant; other tenants' requests do not find the person. */
  predicate Releases(cmd: Command, tenant: Id, id: Id) {
    cmd.SetHold? && cmd.tenant == tenant && cmd.id == id && !cmd.held
  }

  /** The personal data and the documents that a purge would take. */
  ghost predicate Preserved(reg: Registry, reg': Registry, id: Id)
    requires id in reg.people
  {
    && id in reg'.people && reg'.people[id] == reg.people[id]
    && forall a | a in reg.attachments && reg.attachments[a].person == id ::
         a in reg'.attachments && reg'.attachments[a] == reg.attachments[a]
  }

  /** The writes of a purge leave a person alone exactly when they were not selected, or there is nothing left to
      take. */
  lemma WritesPreserveIff(reg: Registry, tenant: Id, selected: set<Id>, now: int, id: Id)
    requires id in reg.people
    ensures Preserved(reg, PurgePeople(reg, tenant, selected, now), id) <==>
            (id in selected ==> Redacted(id, reg.people[id], now) == reg.people[id]
                                && AttachmentsOf(reg, tenant, {id}) == {})
  {
    var reg' := PurgePeople(reg, tenant, selected, now);
    if id in selected {
      assert reg'.people[id] == Redacted(id, reg.people[id], now);
      if a :| a in AttachmentsOf(reg, tenant, {id}) {
        assert a !in reg'.attachments;
      }
      forall a | a in reg.attachments && reg.attachments[a].person == id
        ensures a in AttachmentsOf(reg, tenant, {id}) ||
                  (a in reg'.attachments && reg'.attachments[a] == reg.attachments[a])
      {
      }
    }
  }

  /** The purge has written or has been aborted. */
  predicate Ended(cmds: seq<Command>, p: PurgeId) {
    WritePurge(p) in cmds || AbortPurge(p) in cmds
  }

  lemma EndedGrows(cmds: seq<Command>, cmd: Command, p: PurgeId)
    ensures Ended(cmds + [cmd], p) <==> Ended(cmds, p) || cmd == WritePurge(p) || cmd == AbortPurge(p)
  {
  }

  /** The purge writes before anything else ends it. */
  predicate Writes(cmds: seq<Command>, p: PurgeId) {
    cmds != []
    && (Writes(cmds[..|cmds| - 1], p) || (cmds[|cmds| - 1] == WritePurge(p) && !Ended(cmds[..|cmds| - 1], p)))
  }

  lemma WritesGrows(cmds: seq<Command>, cmd: Command, p: PurgeId)
    ensures Writes(cmds + [cmd], p) <==> Writes(cmds, p) || (cmd == WritePurge(p) && !Ended(cmds, p))
  {
    assert (cmds + [cmd])[..|cmds + [cmd]| - 1] == cmds;
  }

  ghost predicate HasSelected(s: State, p: PurgeId, id: Id) {
    p in s.purges && id in s.purges[p].selected
  }

  /** A purge that had selected the person before `s` writes during the run. */
  ghost predicate TakenBy(s: State, cmds: seq<Command>, id: Id) {
    exists p :: HasSelected(s, p, id) && Writes(cmds, p)
  }

  /** The open purges that have selected a held person are those of the beginning that have not ended. */
  ghost predicate OpenSoFar(s: State, cmds: seq<Command>, t: State, id: Id) {
    && (forall p | HasSelected(t, p, id) :: HasSelected(s, p, id) && !Ended(cmds, p))
    && (forall p | HasSelected(s, p, id) && !Ended(cmds, p) :: p in t.purges && t.purges[p] == s.purges[p])
  }

  /** How far a run has got with a held person. */
  ghost predicate HeldSoFar(s: State, cmds: seq<Command>, t: State, id: Id)
    requires id in s.reg.people
  {
    && id in t.reg.holds && id in t.reg.people
    && (TakenBy(s, cmds, id) ==> t.reg.people[id].anonymizedAt.Some?)
    && (!TakenBy(s, cmds, id) ==> Preserved(s.reg, t.reg, id))
  }

  lemma HeldIsNotDue(reg: Registry, tenant: Id, now: int, id: Id)
    requires HoldsOk(reg) && id in reg.holds
    ensures !Due(reg, tenant, now, id)
  {
  }

  lemma OpenStep(s: State, cmds: seq<Command>, t: State, cmd: Command, id: Id)
    requires OpenSoFar(s, cmds, t, id) && HoldsOk(t.reg) && id in t.reg.holds
    ensures OpenSoFar(s, cmds + [cmd], Apply(t, cmd), id)
  {
    var u := Apply(t, cmd);
    forall p | HasSelected(u, p, id) ensures HasSelected(s, p, id) && !Ended(cmds + [cmd], p) {
      if cmd.SelectPurge? {
        HeldIsNotDue(t.reg, cmd.tenant, cmd.now, id);
      }
      assert HasSelected(t, p, id);
      EndedGrows(cmds, cmd, p);
    }
    forall p | HasSelected(s, p, id) && !Ended(cmds + [cmd], p) ensures p in u.purges && u.purges[p] == s.purges[p] {
      EndedGrows(cmds, cmd, p);
    }
  }

  lemma HoldStays(reg: Registry, cmd: Command, id: Id)
    requires HoldsOk(reg) && id in reg.holds && !Releases(cmd, reg.holds[id].tenant, id)
    ensures id in ApplyToRegistry(reg, cmd).holds
    ensures ApplyToRegistry(reg, cmd).holds[id].tenant == reg.holds[id].tenant
  {
  }

  lemma CommandPreserves(reg: Registry, cmd: Command, id: Id)
    requires id in reg.people
    ensures Preserved(reg, ApplyToRegistry(reg, cmd), id)
  {
  }

  lemma PreservedTwice(reg: Registry, reg1: Registry, reg2: Registry, id: Id)
    requires id in reg.people && Preserved(reg, reg1, id) && Preserved(reg1, reg2, id)
    ensures Preserved(reg, reg2, id)
  {
  }

  lemma OtherStep(s: State, cmds: seq<Command>, t: State, cmd: Command, id: Id)
    requires id in s.reg.people && HeldSoFar(s, cmds, t, id) && HoldsOk(t.reg)
    requires !Releases(cmd, t.reg.holds[id].tenant, id) && !cmd.WritePurge?
    ensures HeldSoFar(s, cmds + [cmd], Apply(t, cmd), id)
  {
    var u := Apply(t, cmd);
    assert TakenBy(s, cmds + [cmd], id) <==> TakenBy(s, cmds, id) by {
      forall p ensures Writes(cmds + [cmd], p) <==> Writes(cmds, p) {
        WritesGrows(cmds, cmd, p);
      }
    }
    HoldStays(t.reg, cmd, id);
    assert u.reg.people == t.reg.people || u.reg == ApplyToRegistry(t.reg, cmd);
    assert Preserved(t.reg, u.reg, id) by {
      CommandPreserves(t.reg, cmd, id);
    }
    if !TakenBy(s, cmds, id) {
      PreservedTwice(s.reg, t.reg, u.reg, id);
    }
  }

  lemma PeopleNotSelected(reg: Registry, q: OpenPurge, id: Id)
    requires id in reg.people && id !in q.selected
    ensures Preserved(reg, Written(reg, q), id)
  {
    WritesPreserveIff(reg, q.tenant, q.selected, q.now, id);
  }

  lemma WriteStep(s: State, cmds: seq<Command>, t: State, p: PurgeId, id: Id)
    requires id in s.reg.people && HeldSoFar(s, cmds, t, id) && OpenSoFar(s, cmds, t, id)
    ensures HeldSoFar(s, cmds + [WritePurge(p)], Apply(t, WritePurge(p)), id)
  {
    var longer := cmds + [WritePurge(p)];
    forall q ensures Writes(longer, q) <==> Writes(cmds, q) || (q == p && !Ended(cmds, p)) {
      WritesGrows(cmds, WritePurge(p), q);
    }
    if HasSelected(t, p, id) {
      assert TakenBy(s, longer, id);
    } else if p in t.purges {
      assert Apply(t, WritePurge(p)).reg.people[id] == t.reg.people[id];
      PeopleNotSelected(t.reg, t.purges[p], id);
      if !TakenBy(s, cmds, id) {
        PreservedTwice(s.reg, t.reg, Written(t.reg, t.purges[p]), id);
      }
    }
  }

  lemma {:induction false} HeldRun(s: State, cmds: seq<Command>, id: Id)
    requires HoldsOk(s.reg) && id in s.reg.holds
    requires forall cmd | cmd in cmds :: !Releases(cmd, s.reg.holds[id].tenant, id)
    ensures id in s.reg.people && HeldSoFar(s, cmds, Run(s, cmds), id) && OpenSoFar(s, cmds, Run(s, cmds), id)
    ensures Run(s, cmds).reg.holds[id].tenant == s.reg.holds[id].tenant
    decreases |cmds|
  {
    assert PersonExists(s.reg, s.reg.holds[id].tenant, id);
    if cmds != [] {
      var prior, cmd := cmds[..|cmds| - 1], cmds[|cmds| - 1];
      var t := Run(s, prior);
      assert cmds == prior + [cmd];
      HeldRun(s, prior, id);
      RunKeepsHoldsOk(s, prior);
      HoldStays(t.reg, cmd, id);
      OpenStep(s, prior, t, cmd, id);
      if cmd.WritePurge? {
        WriteStep(s, prior, t, cmd.purge, id);
      } else {
        OtherStep(s, prior, t, cmd, id);
      }
    }
  }

  /** From the hold to its release no command of any tenant changes the held person's names or email, anonymises
      them, or deletes a document row of theirs, unless a purge that had selected them before writes after. For a
      person who was not anonymised before, that is exactly when. */
  lemma HeldPersonIsPreservedIff(s: State, cmds: seq<Command>, id: Id)
    requires HoldsOk(s.reg) && id in s.reg.holds && id in s.reg.people
    requires forall cmd | cmd in cmds :: !Releases(cmd, s.reg.holds[id].tenant, id)
    ensures id in Run(s, cmds).reg.holds
    ensures !TakenBy(s, cmds, id) ==> Preserved(s.reg, Run(s, cmds).reg, id)
    ensures s.reg.people[id].anonymizedAt.None? ==>
              (Preserved(s.reg, Run(s, cmds).reg, id) <==> !TakenBy(s, cmds, id))
  {
    HeldRun(s, cmds, id);
  }

  lemma RunOneMore(s: State, cmds: seq<Command>, cmd: Command)
    ensures Run(s, cmds + [cmd]) == Apply(Run(s, cmds), cmd)
  {
    assert (cmds + [cmd])[..|cmds + [cmd]| - 1] == cmds;
  }

  function NoState(): State {
    State(Registry(H.Tables(map[], map[], [], []), map[], map[], map[], map[], map[]), map[])
  }

  lemma OpenedRun(id: Id, tenant: Id, person: Person) returns (cmds: seq<Command>)
    requires person.anonymizedAt.None?
    ensures
      var tables := H.Tables(map[id := H.CandidateRow(CandidateCase.Open(id, tenant, 0), None)], map[], [], []);
      Run(NoState(), cmds) == State(Registry(tables, map[id := person], map[], map[], map[], map[]), map[])
  {
    var open := Desk(H.OpenCandidate(id, tenant, 0), [], person);
    RunOneMore(NoState(), [], open);
    cmds := [] + [open];
  }

  lemma RejectedRun(id: Id, tenant: Id, person: Person) returns (cmds: seq<Command>)
    requires person.anonymizedAt.None?
    ensures
      var row := H.CandidateRow(CandidateCase(id, tenant, 0, Rejected, 2), Some(0));
      var tables := H.Tables(map[id := row], map[], [], []);
      Run(NoState(), cmds) == State(Registry(tables, map[id := person], map[], map[], map[], map[]), map[])
  {
    cmds := OpenedRun(id, tenant, person);
    var reject := Desk(H.TransitionCandidate(id, tenant, Some(Rejected), 1, 0), [], person);
    RunOneMore(NoState(), cmds, reject);
    cmds := cmds + [reject];
  }

  /** A rejected candidate whom purge 1 has selected. */
  lemma SelectedRun(id: Id, tenant: Id) returns (cmds: seq<Command>)
    ensures
      var s := Run(NoState(), cmds);
      && PersonExists(s.reg, tenant, id) && s.reg.people.Keys == {id} && s.reg.people[id].anonymizedAt.None?
      && s.reg.holds == map[] && s.reg.attachments == map[] && s.reg.blobs == map[]
      && 1 in s.purges && s.purges[1] == OpenPurge(tenant, 0, {id})
  {
    cmds := RejectedRun(id, tenant, Person("Ada", "Byron", "ada@example.org", None));
    RunOneMore(NoState(), cmds, SetPolicy(tenant, 0));
    cmds := cmds + [SetPolicy(tenant, 0)];
    var s := Run(NoState(), cmds);
    assert DueSet(s.reg, tenant, 0) == {id} by {
      assert Due(s.reg, tenant, 0, id);
    }
    RunOneMore(NoState(), cmds, SelectPurge(1, tenant, 0));
    cmds := cmds + [SelectPurge(1, tenant, 0)];
  }

  /** A hold can come too late: a purge has selected the person, the hold is stored, and the purge anonymises them. */
  lemma HoldCanComeTooLate(id: Id, tenant: Id) returns (before: seq<Command>, hold: Command, write: Command)
    ensures var s := Run(NoState(), before + [hold]);
            && id in s.reg.holds && id in s.reg.people && s.reg.people[id].anonymizedAt.None?
            && id in Apply(s, write).reg.holds && id in Apply(s, write).reg.people
            && Apply(s, write).reg.people[id].anonymizedAt.Some?
  {
    before := SelectedRun(id, tenant);
    hold, write := SetHold(tenant, id, true, None), WritePurge(1);
    RunOneMore(NoState(), before, hold);
    var s := Run(NoState(), before + [hold]);
    assert Apply(s, write).reg.people[id] == Redacted(id, s.reg.people[id], 0);
  }

  // ---------------------------------------------------------------------------------------------------------------
  // Who is anonymised

  /** The i-th command of the run is the select of a purge to which the person is due. */
  ghost predicate SelectedAt(s: State, cmds: seq<Command>, i: nat, id: Id) {
    && i < |cmds| && cmds[i].SelectPurge?
    && Due(Run(s, cmds[..i]).reg, cmds[i].tenant, cmds[i].now, id)
  }

  /** Some purge selected the person at that time. */
  ghost predicate Selected(s: State, cmds: seq<Command>, id: Id, now: int) {
    exists i: nat :: SelectedAt(s, cmds, i, id) && cmds[i].now == now
  }

  lemma SelectedGrows(s: State, cmds: seq<Command>, cmd: Command, id: Id, now: int)
    ensures Selected(s, cmds, id, now) ==> Selected(s, cmds + [cmd], id, now)
    ensures cmd.SelectPurge? && cmd.now == now && Due(Run(s, cmds).reg, cmd.tenant, now, id) ==>
              Selected(s, cmds + [cmd], id, now)
  {
    var longer := cmds + [cmd];
    if i: nat :| SelectedAt(s, cmds, i, id) && cmds[i].now == now {
      assert longer[..i] == cmds[..i];
      assert SelectedAt(s, longer, i, id) && longer[i].now == now;
    }
    if cmd.SelectPurge? && cmd.now == now && Due(Run(s, cmds).reg, cmd.tenant, now, id) {
      assert longer[..|cmds|] == cmds;
      assert SelectedAt(s, longer, |cmds|, id) && longer[|cmds|].now == now;
    }
  }

  /** The personal columns say nothing but the identifier and the time. */
  predicate Erased(p: Person, id: Id, now: int) {
    && p.firstName == "Redacted" && p.lastName == "Candidate"
    && p.email == "purged+" + Text(id) + "@redacted.invalid"
    && p.anonymizedAt == Some(now)
  }

  /** Open purges have selected, and anonymised people were selected at the time they carry. */
  ghost predicate AnonymisedSoFar(s: State, cmds: seq<Command>, t: State, id: Id) {
    && (forall p | HasSelected(t, p, id) :: Selected(s, cmds, id, t.purges[p].now))
    && (id in t.reg.people && t.reg.people[id].anonymizedAt.Some? ==>
          var now := t.reg.people[id].anonymizedAt.value;
          Selected(s, cmds, id, now) && Erased(t.reg.people[id], id, now))
  }

  lemma WritesRedact(reg: Registry, q: OpenPurge, id: Id)
    requires id in reg.people
    ensures id in Written(reg, q).people
    ensures if id in q.selected then Erased(Written(reg, q).people[id], id, q.now)
            else Written(reg, q).people[id] == reg.people[id]
  {
  }

  /** Only opening a candidate adds a person, who is not anonymised. */
  lemma CommandAddsPerson(s: State, cmd: Command, id: Id)
    requires id !in s.reg.people && id in Apply(s, cmd).reg.people
    ensures Apply(s, cmd).reg.people[id].anonymizedAt.None?
  {
  }

  lemma StepKeepsSelections(s: State, cmds: seq<Command>, t: State, cmd: Command, id: Id)
    requires AnonymisedSoFar(s, cmds, t, id) && t == Run(s, cmds)
    ensures forall p | HasSelected(Apply(t, cmd), p, id) ::
              Selected(s, cmds + [cmd], id, Apply(t, cmd).purges[p].now)
  {
    var u := Apply(t, cmd);
    forall p | HasSelected(u, p, id) ensures Selected(s, cmds + [cmd], id, u.purges[p].now) {
      SelectedGrows(s, cmds, cmd, id, u.purges[p].now);
      assert HasSelected(t, p, id) || cmd.SelectPurge?;
    }
  }

  lemma AnonymisedStep(s: State, cmds: seq<Command>, t: State, cmd: Command, id: Id)
    requires AnonymisedSoFar(s, cmds, t, id) && t == Run(s, cmds)
    ensures AnonymisedSoFar(s, cmds + [cmd], Apply(t, cmd), id)
  {
    var u := Apply(t, cmd);
    StepKeepsSelections(s, cmds, t, cmd, id);
    if id in u.reg.people && u.reg.people[id].anonymizedAt.Some? {
      if id !in t.reg.people {
        CommandAddsPerson(t, cmd, id);
      } else if cmd.WritePurge? && cmd.purge in t.purges {
        WritesRedact(t.reg, t.purges[cmd.purge], id);
        assert HasSelected(t, cmd.purge, id) <==> id in t.purges[cmd.purge].selected;
      } else {
        CommandPreserves(t.reg, cmd, id);
      }
      SelectedGrows(s, cmds, cmd, id, u.reg.people[id].anonymizedAt.value);
    }
  }

  lemma {:induction false} AnonymisedRun(s: State, cmds: seq<Command>, id: Id)
    requires id in s.reg.people ==> s.reg.people[id].anonymizedAt.None?
    requires forall p :: !HasSelected(s, p, id)
    ensures AnonymisedSoFar(s, cmds, Run(s, cmds), id)
    decreases |cmds|
  {
    if cmds != [] {
      var prior, cmd := cmds[..|cmds| - 1], cmds[|cmds| - 1];
      assert cmds == prior + [cmd];
      AnonymisedRun(s, prior, id);
      AnonymisedStep(s, prior, Run(s, prior), cmd, id);
    }
  }

  /** Whoever was anonymised in a run was rejected or withdrawn, past the tenant's period, and not on hold when some
      purge of their tenant selected; and carries nothing but the redacted names, the redacted email, and the time of
      that select. */
  lemma OnlyDuePeopleAreAnonymised(s: State, cmds: seq<Command>, id: Id) returns (i: nat)
    requires id in s.reg.people ==> s.reg.people[id].anonymizedAt.None?
    requires forall p :: !HasSelected(s, p, id)
    requires id in Run(s, cmds).reg.people && Run(s, cmds).reg.people[id].anonymizedAt.Some?
    ensures i < |cmds| && cmds[i].SelectPurge? && Due(Run(s, cmds[..i]).reg, cmds[i].tenant, cmds[i].now, id)
    ensures Run(s, cmds).reg.people[id] ==
            Person("Redacted", "Candidate", "purged+" + Text(id) + "@redacted.invalid", Some(cmds[i].now))
  {
    AnonymisedRun(s, cmds, id);
    i :| SelectedAt(s, cmds, i, id) && cmds[i].now == Run(s, cmds).reg.people[id].anonymizedAt.value;
  }
}
