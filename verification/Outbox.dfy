/** The outbox publisher: every pending event becomes one notification delivery, and a lost race aborts the whole batch.

    `published` is the status column of the outbox, as the set of the numbers of the published events. */
module Outbox {
  import opened Prelude
  import opened Hiring
  import opened Leases

  type EventId = nat

  /** The events that have a delivery. */
  function Delivering(rows: Rows): set<EventId> {
    set r | r in rows :: rows[r].eventId
  }

  function PendingEvents(count: nat, published: set<EventId>): set<EventId> {
    set e: EventId | 0 <= e < count && e !in published
  }

  function AsSet(events: seq<EventId>): set<EventId> {
    set e | e in events
  }

  ghost predicate Distinct(events: seq<EventId>) {
    forall i, j | 0 <= i < j < |events| :: events[i] != events[j]
  }

  ghost predicate ByCreation(events: seq<EventId>, createdAt: EventId -> int) {
    forall i, j | 0 <= i < j < |events| :: createdAt(events[i]) <= createdAt(events[j])
  }

  lemma AppendKeepsOrder(events: seq<EventId>, event: EventId, createdAt: EventId -> int)
    requires ByCreation(events, createdAt) && Distinct(events) && event !in events
    requires forall x | x in events :: createdAt(x) <= createdAt(event)
    ensures AsSet(events + [event]) == AsSet(events) + {event}
    ensures Distinct(events + [event]) && ByCreation(events + [event], createdAt)
  {
  }

  lemma LastIsLatest(events: seq<EventId>, createdAt: EventId -> int)
    requires ByCreation(events, createdAt) && Distinct(events) && events != []
    ensures var prior, last := events[..|events| - 1], events[|events| - 1];
            && ByCreation(prior, createdAt) && Distinct(prior) && last !in prior
            && AsSet(events) == AsSet(prior) + {last}
            && (forall x | x in events :: createdAt(x) <= createdAt(last))
  {
    assert events == events[..|events| - 1] + [events[|events| - 1]];
  }

  lemma MembersOnly(events: seq<EventId>, s: set<EventId>)
    requires AsSet(events) == s
    ensures forall x | x in events :: x in s
    ensures forall x | x !in s :: x !in events
  {
    forall x | x in events ensures x in s {
      assert x in AsSet(events);
    }
  }

  /** The event goes behind all that were created no later. */
  function Inserted(events: seq<EventId>, event: EventId, createdAt: EventId -> int): (r: seq<EventId>)
    requires ByCreation(events, createdAt) && Distinct(events) && event !in events
    ensures AsSet(r) == AsSet(events) + {event} && Distinct(r) && ByCreation(r, createdAt)
  {
    if events == [] then [event]
    else
      LastIsLatest(events, createdAt);
      var prior, last := events[..|events| - 1], events[|events| - 1];
      if createdAt(last) <= createdAt(event) then
        AppendKeepsOrder(events, event, createdAt);
        events + [event]
      else
        var r := Inserted(prior, event, createdAt);
        MembersOnly(r, AsSet(prior) + {event});
        AppendKeepsOrder(r, last, createdAt);
        r + [last]
  }

  /** The pending events, oldest first. */
  function PendingInOrder(count: nat, published: set<EventId>, createdAt: EventId -> int): (events: seq<EventId>)
    ensures AsSet(events) == PendingEvents(count, published) && Distinct(events) && ByCreation(events, createdAt)
  {
    if count == 0 then []
    else
      var prior := PendingInOrder(count - 1, published, createdAt);
      if count - 1 in published then
        assert PendingEvents(count, published) == PendingEvents(count - 1, published);
        prior
      else
        assert count - 1 !in AsSet(prior);
        assert PendingEvents(count, published) == PendingEvents(count - 1, published) + {count - 1};
        Inserted(prior, count - 1, createdAt)
  }

  ghost predicate Injective(rows: Rows) {
    forall r, q | r in rows && q in rows && rows[r].eventId == rows[q].eventId :: r == q
  }

  /** `batch` holds new deliveries, one to an event and each addressed to the event's actor. */
  ghost predicate IsBatch(batch: Rows, outbox: seq<Event>) {
    && Injective(batch)
    && forall r | r in batch ::
         && batch[r].eventId < |outbox|
         && batch[r] == NewRow(batch[r].eventId, outbox[batch[r].eventId].actor, batch[r].createdAt)
  }

  lemma InjectiveSize(rows: Rows)
    requires Injective(rows)
    ensures |rows| == |Delivering(rows)|
  {
    var f := (r: RowId) => if r in rows then rows[r].eventId else 0;
    forall e | e in Delivering(rows) ensures exists r :: r in rows.Keys && f(r) == e {
      var r :| r in rows && rows[r].eventId == e;
      assert f(r) == e;
    }
    InjectiveImage(rows.Keys, Delivering(rows), f);
    assert |rows| == |rows.Keys|;
  }

  lemma PrefixGrows(events: seq<EventId>, k: nat)
    requires k < |events| && Distinct(events)
    ensures AsSet(events[..k + 1]) == AsSet(events[..k]) + {events[k]} && events[k] !in AsSet(events[..k])
  {
    assert events[..k + 1] == events[..k] + [events[k]];
  }

  /** The events among the first k for which a publisher finds no delivery, when its i-th check sees the table
      `views[i]`. */
  function Wanted(events: seq<EventId>, views: seq<Rows>, k: nat): set<EventId>
    requires k <= |events| && k <= |views|
  {
    if k == 0 then {}
    else Wanted(events, views, k - 1) + (if events[k - 1] in Delivering(views[k - 1]) then {} else {events[k - 1]})
  }

  lemma {:induction false} WantedIsAmong(events: seq<EventId>, views: seq<Rows>, k: nat, e: EventId)
    requires k <= |events| && k <= |views| && e in Wanted(events, views, k)
    ensures e in events[..k]
  {
    if e in Wanted(events, views, k - 1) {
      WantedIsAmong(events, views, k - 1, e);
      assert events[..k] == events[..k - 1] + [events[k - 1]];
    }
  }

  /** The k-th event is wanted exactly when the k-th check finds no delivery of it; no other event is. */
  lemma {:induction false} WantedIff(events: seq<EventId>, views: seq<Rows>, n: nat)
    requires Distinct(events) && n <= |events| && n <= |views|
    ensures forall k | 0 <= k < n ::
              events[k] in Wanted(events, views, n) <==> forall r | r in views[k] :: views[k][r].eventId != events[k]
    ensures Wanted(events, views, n) <= AsSet(events)
    decreases n
  {
    if n > 0 {
      WantedIff(events, views, n - 1);
      var last := events[n - 1];
      if last in Wanted(events, views, n - 1) {
        WantedIsAmong(events, views, n - 1, last);
        assert false;
      }
      assert last in AsSet(events);
    }
  }

  /** What a publishing transaction comes to. Its k-th check sees `views[k]` and its commit the last of the views;
      `marks` are the statuses that other publishers commit in the meantime. It fails as a whole when an event it
      wants to materialise has got a delivery since its check. */
  ghost predicate PublishOutcome(outbox: seq<Event>, events: seq<EventId>, views: seq<Rows>, marks: set<EventId>,
                                 batch: Rows, published: set<EventId>,
                                 result: Option<nat>, published': set<EventId>, rows': Rows)
    requires |views| == |events| + 1
  {
    var wanted, last := Wanted(events, views, |events|), views[|events|];
    && IsBatch(batch, outbox) && Delivering(batch) == wanted
    && if Delivering(last) !! wanted then
         result == Some(|wanted|) && published' == published + marks + AsSet(events) && rows' == last + batch
       else
         result.None? && published' == published + marks && rows' == last
  }

  predicate Served(batch: Rows, e: EventId) {
    exists r | r in batch :: batch[r].eventId == e
  }

  lemma ServedIff(batch: Rows, e: EventId)
    ensures Served(batch, e) <==> e in Delivering(batch)
  {
  }

  lemma DisjointIff(rows: Rows, batch: Rows)
    ensures Delivering(rows) !! Delivering(batch) <==>
            forall r, q | r in batch && q in rows :: batch[r].eventId != rows[q].eventId
  {
    if r, q :| r in batch && q in rows && batch[r].eventId == rows[q].eventId {
      assert rows[q].eventId in Delivering(rows) && batch[r].eventId in Delivering(batch);
    }
  }

  /** A publishing transaction in terms of rows alone: it inserts one row for each selected event whose check finds
      none, and none for any other; it succeeds exactly when no row for one of them has come up by the commit; if so it
      returns the number of rows inserted and marks all selected events, and otherwise it changes nothing. */
  lemma OutcomeMeans(outbox: seq<Event>, events: seq<EventId>, views: seq<Rows>, marks: set<EventId>, batch: Rows,
                     published: set<EventId>, result: Option<nat>, published': set<EventId>, rows': Rows)
    requires |views| == |events| + 1 && Distinct(events)
    requires PublishOutcome(outbox, events, views, marks, batch, published, result, published', rows')
    ensures forall r, q | r in batch && q in batch && batch[r].eventId == batch[q].eventId :: r == q
    ensures forall r | r in batch :: batch[r].eventId in events
    ensures forall k | 0 <= k < |events| ::
              Served(batch, events[k]) <==> forall r | r in views[k] :: views[k][r].eventId != events[k]
    ensures result.Some? <==>
            forall r, q | r in batch && q in views[|events|] :: batch[r].eventId != views[|events|][q].eventId
    ensures result.Some? ==> result.value == |batch| && rows' == views[|events|] + batch
    ensures forall e :: e in published' <==> e in published || e in marks || (result.Some? && e in events)
    ensures result.None? ==> rows' == views[|events|]
  {
    WantedIff(events, views, |events|);
    InjectiveSize(batch);
    DisjointIff(views[|events|], batch);
    forall r | r in batch ensures batch[r].eventId in events {
      assert batch[r].eventId in Delivering(batch);
    }
    forall k | 0 <= k < |events|
      ensures Served(batch, events[k]) <==> forall r | r in views[k] :: views[k][r].eventId != events[k]
    {
      ServedIff(batch, events[k]);
    }
  }

  /** The table as the k-th statement sees it, when `between(k, _)` is what others commit before it. */
  function ViewAt(rows: Rows, between: (nat, Rows) -> Rows, k: nat): Rows {
    between(k, if k == 0 then rows else ViewAt(rows, between, k - 1))
  }

  ghost function Views(rows: Rows, between: (nat, Rows) -> Rows, n: nat): (views: seq<Rows>)
    ensures |views| == n && forall k | 0 <= k < n :: views[k] == ViewAt(rows, between, k)
  {
    if n == 0 then [] else Views(rows, between, n - 1) + [ViewAt(rows, between, n - 1)]
  }

  lemma WantedMiss(events: seq<EventId>, views: seq<Rows>, k: nat)
    requires k < |events| && k < |views| && Distinct(events) && events[k] !in Delivering(views[k])
    ensures Wanted(events, views, k + 1) == Wanted(events, views, k) + {events[k]}
    ensures events[k] !in Wanted(events, views, k)
  {
    if events[k] in Wanted(events, views, k) {
      WantedIsAmong(events, views, k, events[k]);
      assert false;
    }
  }

  lemma Appended(events: seq<EventId>, event: EventId)
    requires Distinct(events) && event !in AsSet(events)
    ensures Distinct(events + [event]) && AsSet(events + [event]) == AsSet(events) + {event}
  {
    assert forall i | 0 <= i < |events| :: events[i] in AsSet(events);
  }

  lemma {:induction false} DistinctSize(events: seq<EventId>)
    requires Distinct(events)
    ensures |AsSet(events)| == |events|
    decreases |events|
  {
    if events != [] {
      var prior, last := events[..|events| - 1], events[|events| - 1];
      DistinctSize(prior);
      assert events == prior + [last];
      assert AsSet(events) == AsSet(prior) + {last};
    }
  }

  predicate Known(events: seq<EventId>, outbox: seq<Event>) {
    forall i | 0 <= i < |events| :: events[i] < |outbox|
  }

  lemma SelectedAreKnown(events: seq<EventId>, outbox: seq<Event>, published: set<EventId>)
    requires AsSet(events) == PendingEvents(|outbox|, published)
    ensures Known(events, outbox)
  {
    forall i | 0 <= i < |events| ensures events[i] < |outbox| {
      assert events[i] in AsSet(events);
    }
  }

  lemma DeliveringGrows(rows: Rows, id: RowId, row: Row)
    requires id !in rows
    ensures Delivering(rows[id := row]) == Delivering(rows) + {row.eventId}
  {
    var rows' := rows[id := row];
    forall e | e in Delivering(rows) + {row.eventId} ensures e in Delivering(rows') {
      if e == row.eventId {
        assert rows'[id].eventId == e;
      } else {
        var r :| r in rows && rows[r].eventId == e;
        assert rows'[r].eventId == e;
      }
    }
  }

  lemma BatchGrows(batch: Rows, outbox: seq<Event>, id: RowId, row: Row)
    requires IsBatch(batch, outbox) && id !in batch && row.eventId !in Delivering(batch) && row.eventId < |outbox|
    requires row == NewRow(row.eventId, outbox[row.eventId].actor, row.createdAt)
    ensures IsBatch(batch[id := row], outbox)
    ensures Delivering(batch[id := row]) == Delivering(batch) + {row.eventId}
    ensures |batch[id := row]| == |batch| + 1
  {
    DeliveringGrows(batch, id, row);
    forall r | r in batch ensures batch[r].eventId in Delivering(batch) {
    }
    assert batch[id := row].Keys == batch.Keys + {id};
  }

  /** The rows of the buffered inserts, with the identifiers generated for them. */
  function BatchOf(added: seq<EventId>, outbox: seq<Event>, firstId: RowId, now: int): Rows
    requires Known(added, outbox)
  {
    if added == [] then map[]
    else
      var prior, e := added[..|added| - 1], added[|added| - 1];
      BatchOf(prior, outbox, firstId, now)[firstId + |prior| := NewRow(e, outbox[e].actor, now)]
  }

  lemma {:induction false} BatchIds(added: seq<EventId>, outbox: seq<Event>, firstId: RowId, now: int)
    requires Known(added, outbox)
    ensures forall r | r in BatchOf(added, outbox, firstId, now) ::
              firstId <= r < firstId + |added| && BatchOf(added, outbox, firstId, now)[r].createdAt == now
    decreases |added|
  {
    if added != [] {
      BatchIds(added[..|added| - 1], outbox, firstId, now);
    }
  }

  lemma BatchAppends(batch: Rows, outbox: seq<Event>, prior: seq<EventId>, e: EventId, id: RowId, row: Row)
    requires IsBatch(batch, outbox) && Delivering(batch) == AsSet(prior) && id !in batch && Distinct(prior + [e])
    requires e < |outbox| && row == NewRow(e, outbox[e].actor, row.createdAt)
    ensures IsBatch(batch[id := row], outbox) && Delivering(batch[id := row]) == AsSet(prior + [e])
  {
    assert e !in AsSet(prior) by {
      assert forall i | 0 <= i < |prior| :: (prior + [e])[i] == prior[i];
      assert (prior + [e])[|prior|] == e;
    }
    assert AsSet(prior + [e]) == AsSet(prior) + {e};
    BatchGrows(batch, outbox, id, row);
  }

  lemma {:induction false} BatchOfIs(added: seq<EventId>, outbox: seq<Event>, firstId: RowId, now: int)
    requires Distinct(added) && Known(added, outbox)
    ensures IsBatch(BatchOf(added, outbox, firstId, now), outbox)
    ensures Delivering(BatchOf(added, outbox, firstId, now)) == AsSet(added)
    decreases |added|
  {
    if added == [] {
      assert AsSet(added) == {};
    } else {
      var prior, e := added[..|added| - 1], added[|added| - 1];
      assert added == prior + [e];
      BatchOfIs(prior, outbox, firstId, now);
      BatchIds(prior, outbox, firstId, now);
      var batch, id, row := BatchOf(prior, outbox, firstId, now), firstId + |prior|, NewRow(e, outbox[e].actor, now);
      assert BatchOf(added, outbox, firstId, now) == batch[id := row];
      BatchAppends(batch, outbox, prior, e, id, row);
    }
  }

  /** No row has an identifier that is generated later. */
  ghost predicate FreshFrom(firstId: RowId, rows: Rows) {
    forall r | r in rows :: r < firstId
  }

  class OutboxPublisher {
    const outbox: seq<Event>
    const createdAt: EventId -> int
    var published: set<EventId>
    var rows: Rows

    constructor (outbox: seq<Event>, createdAt: EventId -> int, published: set<EventId>, rows: Rows)
      ensures this.outbox == outbox && this.createdAt == createdAt && this.published == published && this.rows == rows
    {
      this.outbox, this.createdAt := outbox, createdAt;
      this.published, this.rows := published, rows;
    }

    /** The loop over the selected events, with the inserts buffered; `views` are the tables that its checks and the
        commit see. */
    method CheckEvents(events: seq<EventId>, between: (nat, Rows) -> Rows, ghost views: seq<Rows>)
        returns (added: seq<EventId>)
      requires Distinct(events) && Known(events, outbox) && views == Views(rows, between, |events| + 1)
      modifies this`rows
      ensures rows == views[|events|]
      ensures Distinct(added) && Known(added, outbox) && AsSet(added) == Wanted(events, views, |events|)
    {
      added := [];
      for k := 0 to |events|
        invariant rows == if k == 0 then old(rows) else views[k - 1]
        invariant Distinct(added) && Known(added, outbox) && AsSet(added) == Wanted(events, views, k)
      {
        rows := between(k, rows);
        assert rows == views[k];
        if events[k] !in Delivering(rows) {
          WantedMiss(events, views, k);
          Appended(added, events[k]);
          added := added + [events[k]];
        }
      }
      rows := between(|events|, rows);
    }

    /** The commit, which the unique key turns into a rollback. */
    method EndTransaction(inserts: Rows, marked: set<EventId>, marks: set<EventId>) returns (ok: bool)
      modifies this`published, this`rows
      ensures ok <==> Delivering(old(rows)) !! Delivering(inserts)
      ensures rows == if ok then old(rows) + inserts else old(rows)
      ensures published == old(published) + marks + if ok then marked else {}
    {
      ok := Delivering(rows) !! Delivering(inserts);
      published := published + marks;
      if ok {
        rows := rows + inserts;
        published := published + marked;
      }
    }

    /** ORDER BY created_at. */
    method SelectPending() returns (events: seq<EventId>)
      ensures events == PendingInOrder(|outbox|, published, createdAt)
      ensures Distinct(events) && Known(events, outbox)
    {
      events := PendingInOrder(|outbox|, published, createdAt);
      SelectedAreKnown(events, outbox, published);
    }

    /** The inserts as the flush executes them. */
    method Flushed(added: seq<EventId>, firstId: RowId, now: int) returns (inserts: Rows)
      requires Distinct(added) && Known(added, outbox)
      ensures IsBatch(inserts, outbox) && Delivering(inserts) == AsSet(added) && |AsSet(added)| == |added|
      ensures forall r | r in inserts :: r >= firstId && inserts[r].createdAt == now
    {
      inserts := BatchOf(added, outbox, firstId, now);
      BatchOfIs(added, outbox, firstId, now);
      BatchIds(added, outbox, firstId, now);
      DistinctSize(added);
    }

    /** The flush and the commit, at the table that the last of the views shows. */
    method CommitBatch(events: seq<EventId>, added: seq<EventId>, firstId: RowId, now: int, marks: set<EventId>,
                       ghost views: seq<Rows>)
        returns (result: Option<nat>, ghost batch: Rows)
      requires |views| == |events| + 1 && rows == views[|events|] && FreshFrom(firstId, rows)
      requires Distinct(added) && Known(added, outbox) && AsSet(added) == Wanted(events, views, |events|)
      modifies this`published, this`rows
      ensures batch.Keys !! views[|events|].Keys && forall r | r in batch :: batch[r].createdAt == now
      ensures PublishOutcome(outbox, events, views, marks, batch, old(published), result, published, rows)
    {
      var inserts := Flushed(added, firstId, now);
      batch := inserts;
      var ok := EndTransaction(inserts, AsSet(events), marks);
      result := if ok then Some(|added|) else None;
    }

    /** One publishing transaction; generated row identifiers start at `firstId`. `None` is the abort on the unique
        key. */
    method PublishPending(firstId: RowId, now: int, between: (nat, Rows) -> Rows, marks: set<EventId>)
        returns (result: Option<nat>, ghost events: seq<EventId>, ghost views: seq<Rows>, ghost batch: Rows)
      requires FreshFrom(firstId, ViewAt(rows, between, |PendingInOrder(|outbox|, published, createdAt)|))
      modifies this`published, this`rows
      ensures events == PendingInOrder(|outbox|, old(published), createdAt)
      ensures views == Views(old(rows), between, |events| + 1)
      ensures batch.Keys !! views[|events|].Keys
      ensures PublishOutcome(outbox, events, views, marks, batch, old(published), result, published, rows)
      ensures forall r | r in batch ::
                && r !in views[|events|] && batch[r].eventId < |outbox|
                && batch[r] == Row(batch[r].eventId, outbox[batch[r].eventId].actor, now, Pending, 0, None, None, None)
      ensures result.Some? ==> forall e: EventId | e < |outbox| :: e in published
      ensures result.None? ==> published == old(published) + marks && rows == views[|events|]
    {
      var selected := SelectPending();
      events := selected;
      views := Views(rows, between, |events| + 1);
      var added := CheckEvents(selected, between, views);
      result, batch := CommitBatch(selected, added, firstId, now, marks, views);
    }
  }
}
