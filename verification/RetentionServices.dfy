/** The retention repository, its service and the attachment service as the source writes them: rows and blobs
    changed one at a time. */
module RetentionServices {
  import opened Prelude
  import opened CandidateWorkflow
  import opened Retention
  import H = Hiring

  lemma KeysOfMore(attachments: map<Id, Attachment>, names: set<Id>, a: Id)
    requires a in attachments
    ensures KeysOf(attachments, names + {a}) == KeysOf(attachments, names) + {attachments[a].key}
  {
    assert a in names + {a};
  }

  /** Purging a set of people and then one more. */
  lemma PurgeOneMore(reg: Registry, tenant: Id, done: set<Id>, id: Id, now: int)
    requires id in reg.people && id !in done
    ensures
      var reg1 := PurgePeople(reg, tenant, done, now);
      && id in reg1.people && reg1.people[id] == reg.people[id]
      && PurgePeople(reg, tenant, done + {id}, now) == PurgePeople(reg1, tenant, {id}, now)
  {
    var reg1 := PurgePeople(reg, tenant, done, now);
    var gone, more := AttachmentsOf(reg, tenant, done), AttachmentsOf(reg1, tenant, {id});
    var both := AttachmentsOf(reg, tenant, done + {id});
    assert both == gone + more;
    assert KeysOf(reg.attachments, both) == KeysOf(reg.attachments, gone) + KeysOf(reg1.attachments, more) by {
      forall a | a in more ensures reg1.attachments[a].key in KeysOf(reg.attachments, both) {
        assert reg.attachments[a] == reg1.attachments[a];
      }
    }
    var left, right := PurgePeople(reg, tenant, done + {id}, now), PurgePeople(reg1, tenant, {id}, now);
    assert left.people == right.people;
    assert left.attachments == right.attachments;
    assert left.blobs == right.blobs;
  }

  lemma PurgeNobody(reg: Registry, tenant: Id, now: int)
    ensures PurgePeople(reg, tenant, {}, now) == reg
  {
    assert AttachmentsOf(reg, tenant, {}) == {};
    assert PurgePeople(reg, tenant, {}, now).people == reg.people;
    assert PurgePeople(reg, tenant, {}, now).blobs == reg.blobs;
    assert PurgePeople(reg, tenant, {}, now).attachments == reg.attachments;
  }

  class RetentionStore {
    var tables: H.Tables
    var people: map<Id, Person>
    var policies: map<Id, int>
    var holds: map<Id, Hold>
    var attachments: map<Id, Attachment>
    var blobs: map<Key, string>
    var audited: seq<Id>

    ghost function Contents(): Registry
      reads this
    {
      Registry(tables, people, policies, holds, attachments, blobs)
    }

    constructor (reg: Registry)
      ensures Contents() == reg && audited == []
    {
      tables, people, policies, holds := reg.tables, reg.people, reg.policies, reg.holds;
      attachments, blobs := reg.attachments, reg.blobs;
      audited := [];
    }

    method SetLegalHold(tenant: Id, id: Id, held: bool, reason: Option<string>) returns (found: bool)
      modifies this`holds
      ensures found <==> PersonExists(old(Contents()), tenant, id)
      ensures Contents() == ApplyHold(old(Contents()), tenant, id, held, reason)
      ensures found && held ==> id in holds
      ensures found && !held && (id in old(holds) ==> old(holds)[id].tenant == tenant) ==> id !in holds
      ensures !found ==> holds == old(holds)
    {
      found := id in people && id in tables.candidates && tables.candidates[id].record.tenant == tenant;
      if !found {
        return;
      }
      if held {
        if id !in holds {
          holds := holds[id := Hold(tenant, ReasonOr(reason, "Legal hold"))];
        } else {
          holds := holds[id := holds[id].(reason := ReasonOr(reason, holds[id].reason))];
        }
      } else if id in holds && holds[id].tenant == tenant {
        holds := holds - {id};
      }
    }

    /** The inner loop: one person's documents, blob and row. */
    method DeleteAttachments(tenant: Id, id: Id)
      modifies this`attachments, this`blobs
      ensures attachments == old(attachments) - AttachmentsOf(old(Contents()), tenant, {id})
      ensures blobs == old(blobs) - KeysOf(old(attachments), AttachmentsOf(old(Contents()), tenant, {id}))
    {
      ghost var start := Contents();
      ghost var gone := AttachmentsOf(start, tenant, {id});
      ghost var deleted: set<Id> := {};
      var todo := set a | a in attachments && attachments[a].person == id && attachments[a].tenant == tenant;
      while todo != {}
        invariant deleted + todo == gone && deleted !! todo
        invariant attachments == start.attachments - deleted
        invariant blobs == start.blobs - KeysOf(start.attachments, deleted)
        decreases todo
      {
        var a :| a in todo;
        KeysOfMore(start.attachments, deleted, a);
        blobs := blobs - {attachments[a].key};
        attachments := attachments - {a};
        todo := todo - {a};
        deleted := deleted + {a};
      }
    }

    method AnonymiseOne(tenant: Id, id: Id, now: int)
      requires id in people
      modifies this`people, this`attachments, this`blobs
      ensures Contents() == PurgePeople(old(Contents()), tenant, {id}, now)
      ensures people.Keys == old(people).Keys
      ensures people[id] ==
              Person("Redacted", "Candidate", "purged+" + Text(id) + "@redacted.invalid", Some(now))
      ensures forall k | k in people && k != id :: people[k] == old(people)[k]
    {
      DeleteAttachments(tenant, id);
      var record := people[id];
      record := record.(firstName := "Redacted");
      record := record.(lastName := "Candidate");
      record := record.(email := "purged+" + Text(id) + "@redacted.invalid");
      record := record.(anonymizedAt := Some(now));
      people := people[id := record];
      assert people == PurgePeople(old(Contents()), tenant, {id}, now).people;
    }

    method SelectDue(tenant: Id, now: int) returns (due: set<Id>)
      ensures due == DueSet(Contents(), tenant, now)
    {
      if tenant !in policies {
        return {};
      }
      var cutoff := now - policies[tenant] * SECONDS_PER_DAY;
      due := set id | id in people && id in tables.candidates
                      && tables.candidates[id].record.tenant == tenant
                      && tables.candidates[id].record.stage in {Rejected, Withdrawn}
                      && people[id].anonymizedAt.None?
                      && tables.candidates[id].terminalAt.Some? && tables.candidates[id].terminalAt.value <= cutoff
                      && !(id in holds && holds[id].tenant == tenant);
    }

    /** The outer loop, over the selected records in any order. */
    method PurgeRecords(tenant: Id, records: set<Id>, now: int) returns (ids: seq<Id>)
      requires records <= people.Keys
      modifies this`people, this`attachments, this`blobs
      ensures Contents() == PurgePeople(old(Contents()), tenant, records, now)
      ensures |ids| == |records|
      ensures forall id :: id in ids <==> id in records
    {
      ids := [];
      ghost var start := Contents();
      ghost var done: set<Id> := {};
      var todo := records;
      PurgeNobody(start, tenant, now);
      while todo != {}
        invariant done == records - todo && todo <= records
        invariant Contents() == PurgePeople(start, tenant, done, now)
        invariant |ids| + |todo| == |records|
        invariant forall id :: id in ids <==> id in done
        decreases todo
      {
        var id :| id in todo;
        PurgeOneMore(start, tenant, done, id, now);
        AnonymiseOne(tenant, id, now);
        ids := ids + [id];
        todo := todo - {id};
        assert done + {id} == records - todo;
        done := done + {id};
      }
      assert done == records;
    }

    method PurgeDue(tenant: Id, now: int) returns (ids: seq<Id>)
      modifies this`people, this`attachments, this`blobs
      ensures Contents() == Purge(old(Contents()), tenant, now)
      ensures |ids| == |DueSet(old(Contents()), tenant, now)|
      ensures forall id :: id in ids <==> id in DueSet(old(Contents()), tenant, now)
    {
      var due := SelectDue(tenant, now);
      ids := PurgeRecords(tenant, due, now);
    }

    /** The service: purge, then one audit record to a person. */
    method PurgeAndAudit(tenant: Id, now: int) returns (count: nat)
      modifies this`people, this`attachments, this`blobs, this`audited
      ensures Contents() == Purge(old(Contents()), tenant, now)
      ensures count == |DueSet(old(Contents()), tenant, now)|
      ensures |audited| == |old(audited)| + count && old(audited) <= audited
      ensures forall id :: id in audited[|old(audited)|..] <==> id in DueSet(old(Contents()), tenant, now)
    {
      ghost var before := audited;
      var ids := PurgeDue(tenant, now);
      for k := 0 to |ids|
        invariant Contents() == Purge(old(Contents()), tenant, now)
        invariant audited == before + ids[..k]
      {
        audited := audited + [ids[k]];
        assert ids[..k + 1] == ids[..k] + [ids[k]];
      }
      assert ids[..|ids|] == ids;
      assert audited[|before|..] == ids;
      count := |ids|;
    }

    /** The upload: the blob first, then the transaction, and the compensation when any part of it fails. */
    method Upload(tenant: Id, id: Id, attachment: Id, key: Key, content: string, outcome: UploadOutcome)
        returns (stored: bool)
      modifies this`attachments, this`blobs
      ensures Contents() == ApplyUpload(old(Contents()), tenant, id, attachment, key, content, outcome)
      ensures stored <==>
                && PersonExists(old(Contents()), tenant, id) && outcome == Stored && attachment !in old(attachments)
                && forall a | a in old(attachments) :: old(attachments)[a].key != key
      ensures attachments == if stored then old(attachments)[attachment := Attachment(tenant, id, key)]
                             else old(attachments)
      ensures stored ==> blobs == old(blobs)[key := content]
      ensures !stored ==> blobs == old(blobs) || blobs == old(blobs) - {key}
    {
      if !(id in people && id in tables.candidates && tables.candidates[id].record.tenant == tenant) {
        return false;
      }
      blobs := blobs[key := content];
      var committed := outcome == Stored && attachment !in attachments && !KeyInUse(attachments, key);
      if !committed {
        blobs := blobs - {key};
        return false;
      }
      attachments := attachments[attachment := Attachment(tenant, id, key)];
      stored := true;
    }
  }
}
