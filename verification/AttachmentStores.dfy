/** The two stores: attachment rows in the database, and blobs that no transaction covers. */
module AttachmentStores {
  import opened Prelude
  import opened CandidateWorkflow
  import opened Retention

  // ---------------------------------------------------------------------------------------------------------------
  // Two stores

  ghost predicate UniqueKeys(reg: Registry) {
    forall a, b | a in reg.attachments && b in reg.attachments && reg.attachments[a].key == reg.attachments[b].key ::
      a == b
  }

  /** The stored blobs are exactly those the attachment rows name, one to a row. */
  ghost predicate Agreement(reg: Registry) {
    && reg.blobs.Keys == KeysOf(reg.attachments, reg.attachments.Keys)
    && UniqueKeys(reg)
  }

  lemma PurgeKeepsAgreement(reg: Registry, tenant: Id, ids: set<Id>, now: int)
    requires Agreement(reg)
    ensures Agreement(PurgePeople(reg, tenant, ids, now))
  {
    var gone := AttachmentsOf(reg, tenant, ids);
    var reg' := PurgePeople(reg, tenant, ids, now);
    forall key | key in reg.blobs.Keys
      ensures key in KeysOf(reg'.attachments, reg'.attachments.Keys) <==> key !in KeysOf(reg.attachments, gone)
    {
      var a :| a in reg.attachments && reg.attachments[a].key == key;
      if a !in gone {
        assert reg'.attachments[a].key == key;
      }
    }
    forall a | a in reg'.attachments ensures reg'.attachments[a].key in reg.blobs.Keys {
      assert reg'.attachments[a] == reg.attachments[a];
    }
  }

  /** An upload that passes its checks and its commit stores the row and the blob; one that finds the person and fails
      leaves the rows alone and no blob under its key; one that does not find the person changes nothing. */
  lemma UploadEffect(reg: Registry, tenant: Id, id: Id, attachment: Id, key: Key, content: string,
                     outcome: UploadOutcome)
    ensures
      var reg' := ApplyUpload(reg, tenant, id, attachment, key, content, outcome);
      var known := id in reg.people && id in reg.tables.candidates && reg.tables.candidates[id].record.tenant == tenant;
      var unused := attachment !in reg.attachments && forall a | a in reg.attachments :: reg.attachments[a].key != key;
      && reg' == reg.(attachments := reg'.attachments, blobs := reg'.blobs)
      && (!known ==> reg' == reg)
      && (known && outcome == Stored && unused ==>
            && reg'.attachments == reg.attachments[attachment := Attachment(tenant, id, key)]
            && reg'.blobs == reg.blobs[key := content])
      && (known && !(outcome == Stored && unused) ==>
            reg'.attachments == reg.attachments && reg'.blobs == reg.blobs - {key})
  {
    assert reg.blobs[key := content] - {key} == reg.blobs - {key};
  }

  lemma KeysGrow(attachments: map<Id, Attachment>, name: Id, row: Attachment)
    requires name !in attachments
    ensures KeysOf(attachments[name := row], attachments.Keys + {name}) ==
            KeysOf(attachments, attachments.Keys) + {row.key}
  {
    var grown := attachments[name := row];
    forall key | key in KeysOf(attachments, attachments.Keys) + {row.key}
      ensures key in KeysOf(grown, attachments.Keys + {name})
    {
      if key == row.key {
        assert grown[name].key == key;
      } else {
        var a :| a in attachments && attachments[a].key == key;
        assert grown[a].key == key;
      }
    }
  }

  lemma FreshUploadAgrees(reg: Registry, cmd: Command)
    requires Agreement(reg) && cmd.Upload? && PersonExists(reg, cmd.tenant, cmd.id)
             && !KeyInUse(reg.attachments, cmd.key)
    ensures Agreement(ApplyToRegistry(reg, cmd))
  {
    var reg' := ApplyUpload(reg, cmd.tenant, cmd.id, cmd.attachment, cmd.key, cmd.content, cmd.outcome);
    assert cmd.key !in reg.blobs.Keys;
    if cmd.outcome.Stored? && cmd.attachment !in reg.attachments {
      KeysGrow(reg.attachments, cmd.attachment, Attachment(cmd.tenant, cmd.id, cmd.key));
      assert reg'.attachments.Keys == reg.attachments.Keys + {cmd.attachment};
    } else {
      assert reg'.blobs == reg.blobs && reg'.attachments == reg.attachments;
    }
  }

  lemma UsedKeyBreaksAgreement(reg: Registry, cmd: Command)
    requires cmd.Upload? && PersonExists(reg, cmd.tenant, cmd.id) && KeyInUse(reg.attachments, cmd.key)
    ensures !Agreement(ApplyToRegistry(reg, cmd))
  {
    var reg' := ApplyToRegistry(reg, cmd);
    var a :| a in reg.attachments && reg.attachments[a].key == cmd.key;
    assert reg'.attachments == reg.attachments && cmd.key !in reg'.blobs.Keys;
    assert cmd.key in KeysOf(reg'.attachments, reg'.attachments.Keys);
  }

  /** An upload keeps the stores in agreement exactly when its key is fresh, whatever becomes of it: the compensation
      of a failed upload deletes the blob under its key, and a key in use is one way to fail. */
  lemma UploadKeepsAgreementIff(reg: Registry, cmd: Command)
    requires Agreement(reg) && cmd.Upload? && PersonExists(reg, cmd.tenant, cmd.id)
    ensures Agreement(ApplyToRegistry(reg, cmd)) <==> !KeyInUse(reg.attachments, cmd.key)
  {
    if KeyInUse(reg.attachments, cmd.key) {
      UsedKeyBreaksAgreement(reg, cmd);
    } else {
      FreshUploadAgrees(reg, cmd);
    }
  }

  /** A purge whose commit fails after the blobs are gone. */
  function Aborted(reg: Registry, q: OpenPurge): Registry {
    reg.(blobs := Written(reg, q).blobs)
  }

  /** The stores survive a failed purge commit exactly when nobody the purge had selected has a document by then. */
  lemma AbortedPurgeKeepsAgreementIff(reg: Registry, q: OpenPurge)
    requires Agreement(reg)
    ensures Agreement(Aborted(reg, q)) <==> AttachmentsOf(reg, q.tenant, q.selected) == {}
  {
    var gone := AttachmentsOf(reg, q.tenant, q.selected);
    if a :| a in gone {
      assert reg.attachments[a].key in KeysOf(reg.attachments, gone);
      assert reg.attachments[a].key in KeysOf(reg.attachments, reg.attachments.Keys);
    } else {
      assert gone == {};
      assert reg.blobs - KeysOf(reg.attachments, gone) == reg.blobs;
    }
  }

  /** A command that keeps the stores in agreement: an upload draws a key that no row has, and the commit of a purge
      fails only when nobody it had selected has a document. */
  ghost predicate Harmless(s: State, cmd: Command) {
    match cmd
    case Upload(_, _, _, key, _, _) => !KeyInUse(s.reg.attachments, key)
    case AbortPurge(p) => p in s.purges ==> AttachmentsOf(s.reg, s.purges[p].tenant, s.purges[p].selected) == {}
    case _ => true
  }

  ghost predicate AllHarmless(s: State, cmds: seq<Command>)
    decreases |cmds|
  {
    cmds == []
    || (AllHarmless(s, cmds[..|cmds| - 1]) && Harmless(Run(s, cmds[..|cmds| - 1]), cmds[|cmds| - 1]))
  }

  /** A step from agreement leads to agreement exactly when it is harmless or an upload for a person who does not
      exist. */
  lemma StepKeepsAgreementIff(s: State, cmd: Command)
    requires Agreement(s.reg)
    ensures Agreement(Apply(s, cmd).reg) <==>
            Harmless(s, cmd) || (cmd.Upload? && !PersonExists(s.reg, cmd.tenant, cmd.id))
  {
    match cmd
    case WritePurge(p) =>
      if p in s.purges {
        PurgeKeepsAgreement(s.reg, s.purges[p].tenant, s.purges[p].selected, s.purges[p].now);
      }
    case AbortPurge(p) =>
      if p in s.purges {
        AbortedPurgeKeepsAgreementIff(s.reg, s.purges[p]);
      }
    case Upload(tenant, id, _, _, _, _) =>
      if PersonExists(s.reg, tenant, id) {
        UploadKeepsAgreementIff(s.reg, cmd);
      }
    case _ =>
      assert Apply(s, cmd).reg.blobs == s.reg.blobs && Apply(s, cmd).reg.attachments == s.reg.attachments;
  }

  /** Database and attachment store agree after any sequence of harmless commands: uploads with fresh keys that may
      fail at any point, purges with other commands between their select and their writes, and failed purge commits
      that had nothing to delete. */
  lemma {:induction false} StoresAgree(s: State, cmds: seq<Command>)
    requires Agreement(s.reg) && AllHarmless(s, cmds)
    ensures Agreement(Run(s, cmds).reg)
    decreases |cmds|
  {
    if cmds != [] {
      StoresAgree(s, cmds[..|cmds| - 1]);
      StepKeepsAgreementIff(Run(s, cmds[..|cmds| - 1]), cmds[|cmds| - 1]);
    }
  }

  /** Nobody is due when the commit fails, and the agreement breaks all the same: the purge had selected a person with a
      document, and the hold came after. */
  lemma AbortBreaksAgreement(id: Id, tenant: Id) returns (cmds: seq<Command>)
    ensures
      var s := Run(NoState(), cmds);
      Agreement(s.reg) && DueSet(s.reg, tenant, 0) == {} && !Agreement(Apply(s, AbortPurge(1)).reg)
  {
    cmds := SelectedRun(id, tenant);
    var s := Run(NoState(), cmds);
    var upload := Upload(tenant, id, 5, "k", "cv", Stored);
    UploadKeepsAgreementIff(s.reg, upload);
    RunOneMore(NoState(), cmds, upload);
    cmds := cmds + [upload];
    s := Run(NoState(), cmds);
    var hold := SetHold(tenant, id, true, None);
    RunOneMore(NoState(), cmds, hold);
    cmds := cmds + [hold];
    s := Run(NoState(), cmds);
    HeldIsNotDue(s.reg, tenant, 0, id);
    assert 5 in AttachmentsOf(s.reg, tenant, {id});
    StepKeepsAgreementIff(s, AbortPurge(1));
  }

  // ---------------------------------------------------------------------------------------------------------------
  // The bytes of held documents

  /** Every upload of the run draws a key that no row has. */
  ghost predicate FreshKeys(s: State, cmds: seq<Command>)
    decreases |cmds|
  {
    cmds == [] ||
    (FreshKeys(s, cmds[..|cmds| - 1])
     && var cmd := cmds[|cmds| - 1];
        cmd.Upload? ==> !KeyInUse(Run(s, cmds[..|cmds| - 1]).reg.attachments, cmd.key))
  }

  /** The document's blob is as it was. */
  predicate BytesKept(reg: Registry, reg': Registry, key: Key) {
    (key in reg'.blobs <==> key in reg.blobs) && (key in reg.blobs ==> reg'.blobs[key] == reg.blobs[key])
  }

  /** A purge of the document's tenant that had selected its person before `s` ends during the run, by writing or by a
      failed commit. */
  ghost predicate DocumentTaken(s: State, cmds: seq<Command>, d: Attachment) {
    exists p :: HasSelected(s, p, d.person) && s.purges[p].tenant == d.tenant && Ended(cmds, p)
  }

  predicate DrawnAgain(cmds: seq<Command>, key: Key) {
    exists i :: 0 <= i < |cmds| && cmds[i].Upload? && cmds[i].key == key
  }

  lemma DrawnGrows(cmds: seq<Command>, cmd: Command, key: Key)
    ensures DrawnAgain(cmds + [cmd], key) <==> DrawnAgain(cmds, key) || (cmd.Upload? && cmd.key == key)
  {
    assert (cmds + [cmd])[|cmds|] == cmd;
    if i :| 0 <= i < |cmds| && cmds[i].Upload? && cmds[i].key == key {
      assert (cmds + [cmd])[i] == cmds[i];
    }
  }

  lemma TakenGrows(s: State, cmds: seq<Command>, cmd: Command, d: Attachment)
    ensures DocumentTaken(s, cmds + [cmd], d) <==>
            || DocumentTaken(s, cmds, d)
            || exists p :: HasSelected(s, p, d.person) && s.purges[p].tenant == d.tenant
                           && (cmd == WritePurge(p) || cmd == AbortPurge(p))
  {
    forall p ensures Ended(cmds + [cmd], p) <==> Ended(cmds, p) || cmd == WritePurge(p) || cmd == AbortPurge(p) {
      EndedGrows(cmds, cmd, p);
    }
    if p :| HasSelected(s, p, d.person) && s.purges[p].tenant == d.tenant && Ended(cmds, p) {
      assert Ended(cmds + [cmd], p);
    }
    if p :| HasSelected(s, p, d.person) && s.purges[p].tenant == d.tenant
            && (cmd == WritePurge(p) || cmd == AbortPurge(p))
    {
      assert Ended(cmds + [cmd], p);
    }
  }

  lemma StepKeepsUniqueKeys(s: State, cmd: Command)
    requires UniqueKeys(s.reg)
    ensures UniqueKeys(Apply(s, cmd).reg)
  {
  }

  /** The writes of a purge take a document's row and blob, or neither. */
  lemma WritesTake(reg: Registry, q: OpenPurge, a: Id)
    requires UniqueKeys(reg) && a in reg.attachments
    ensures
      var d := reg.attachments[a];
      if d.person in q.selected && d.tenant == q.tenant then d.key !in Written(reg, q).blobs
      else
        && a in Written(reg, q).attachments && Written(reg, q).attachments[a] == d
        && BytesKept(reg, Written(reg, q), d.key)
  {
    var gone := AttachmentsOf(reg, q.tenant, q.selected);
    var d := reg.attachments[a];
    if a in gone {
      assert d.key in KeysOf(reg.attachments, gone);
    } else {
      assert d.key !in KeysOf(reg.attachments, gone);
    }
  }

  /** How far a run has got with a document of a held person. */
  ghost predicate DocumentSoFar(s: State, cmds: seq<Command>, t: State, a: Id)
    requires a in s.reg.attachments
  {
    var d := s.reg.attachments[a];
    if DocumentTaken(s, cmds, d) then !DrawnAgain(cmds, d.key) ==> d.key !in t.reg.blobs
    else a in t.reg.attachments && t.reg.attachments[a] == d && BytesKept(s.reg, t.reg, d.key)
  }

  lemma PlainStep(s: State, cmds: seq<Command>, t: State, cmd: Command, a: Id)
    requires a in s.reg.attachments && DocumentSoFar(s, cmds, t, a)
    requires cmd.Upload? ==> !KeyInUse(t.reg.attachments, cmd.key)
    requires !cmd.WritePurge? && !cmd.AbortPurge?
    ensures DocumentSoFar(s, cmds + [cmd], Apply(t, cmd), a)
  {
    var d := s.reg.attachments[a];
    TakenGrows(s, cmds, cmd, d);
    DrawnGrows(cmds, cmd, d.key);
  }

  lemma EndStep(s: State, cmds: seq<Command>, t: State, cmd: Command, a: Id)
    requires a in s.reg.attachments && DocumentSoFar(s, cmds, t, a) && UniqueKeys(t.reg)
    requires OpenSoFar(s, cmds, t, s.reg.attachments[a].person) && (cmd.WritePurge? || cmd.AbortPurge?)
    ensures DocumentSoFar(s, cmds + [cmd], Apply(t, cmd), a)
  {
    var d := s.reg.attachments[a];
    TakenGrows(s, cmds, cmd, d);
    DrawnGrows(cmds, cmd, d.key);
    var p := cmd.purge;
    if !DocumentTaken(s, cmds, d) && p in t.purges {
      WritesTake(t.reg, t.purges[p], a);
      assert d.person in t.purges[p].selected ==> HasSelected(t, p, d.person);
    } else {
      assert HasSelected(s, p, d.person) && s.purges[p].tenant == d.tenant && p !in t.purges ==> Ended(cmds, p);
    }
  }

  lemma {:induction false} RunKeepsUniqueKeys(s: State, cmds: seq<Command>)
    requires UniqueKeys(s.reg)
    ensures UniqueKeys(Run(s, cmds).reg)
    decreases |cmds|
  {
    if cmds != [] {
      RunKeepsUniqueKeys(s, cmds[..|cmds| - 1]);
      StepKeepsUniqueKeys(Run(s, cmds[..|cmds| - 1]), cmds[|cmds| - 1]);
    }
  }

  lemma {:induction false} DocumentRun(s: State, cmds: seq<Command>, a: Id)
    requires a in s.reg.attachments && HoldsOk(s.reg) && UniqueKeys(s.reg) && FreshKeys(s, cmds)
    requires s.reg.attachments[a].person in s.reg.holds
    requires forall cmd | cmd in cmds ::
               !Releases(cmd, s.reg.holds[s.reg.attachments[a].person].tenant, s.reg.attachments[a].person)
    ensures DocumentSoFar(s, cmds, Run(s, cmds), a)
    decreases |cmds|
  {
    if cmds != [] {
      var prior, cmd := cmds[..|cmds| - 1], cmds[|cmds| - 1];
      var t := Run(s, prior);
      assert cmds == prior + [cmd];
      DocumentRun(s, prior, a);
      if cmd.WritePurge? || cmd.AbortPurge? {
        HeldRun(s, prior, s.reg.attachments[a].person);
        RunKeepsUniqueKeys(s, prior);
        EndStep(s, prior, t, cmd, a);
      } else {
        PlainStep(s, prior, t, cmd, a);
      }
    }
  }

  /** From the hold to its release the stored bytes of a held person's document stay as they are, unless a purge of its
      tenant that had selected the person before writes, or fails to commit, after; and then they are gone, unless their
      key is drawn again. */
  lemma HeldDocumentsKeepBytesIff(s: State, cmds: seq<Command>, a: Id)
    requires a in s.reg.attachments && HoldsOk(s.reg) && UniqueKeys(s.reg) && FreshKeys(s, cmds)
    requires s.reg.attachments[a].person in s.reg.holds
    requires forall cmd | cmd in cmds ::
               !Releases(cmd, s.reg.holds[s.reg.attachments[a].person].tenant, s.reg.attachments[a].person)
    ensures
      var d, t := s.reg.attachments[a], Run(s, cmds);
      && (!DocumentTaken(s, cmds, d) ==> BytesKept(s.reg, t.reg, d.key))
      && (!DrawnAgain(cmds, d.key) && d.key in s.reg.blobs ==>
            (BytesKept(s.reg, t.reg, d.key) <==> !DocumentTaken(s, cmds, d))
            && (DocumentTaken(s, cmds, d) ==> d.key !in t.reg.blobs))
  {
    DocumentRun(s, cmds, a);
  }
}
