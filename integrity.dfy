/** Document invariants across the handlers: references resolve, keys are unique, ticket ids
    increase along the collection. Also two documents showing where the handlers, as written,
    lose these guarantees. */
module Integrity {
  import opened Model
  import opened Lookups
  import opened TicketRoutes

  /** A reference is `null` or names an entry of the table. */
  predicate Resolves(r: Option<Key>, es: seq<Entry>) {
    r.None? || exists e :: e in es && e.key == r.value
  }

  /** Every ticket's status and category resolve in their tables. */
  predicate RefsResolve(d: Doc) {
    forall t, axis :: t in d.tickets ==> Resolves(RefOf(t, axis), Lookup(d, axis))
  }

  /** No two entries of a table share a key. */
  predicate UniqueKeys(es: seq<Entry>) {
    forall i, j :: 0 <= i < j < |es| ==> es[i].key != es[j].key
  }

  predicate WellFormed(d: Doc) {
    RefsResolve(d) && UniqueKeys(d.statuses) && UniqueKeys(d.categories)
  }

  /** Ticket ids grow along the collection. */
  predicate IncreasingIds(ts: seq<Ticket>) {
    forall i, j :: 0 <= i < j < |ts| ==> ts[i].id < ts[j].id
  }

  // Status and category handlers

  lemma {:induction false} WithoutKeyKeepsUnique(es: seq<Entry>, key: Key)
    requires UniqueKeys(es)
    ensures UniqueKeys(WithoutKey(es, key))
  {
    if |es| > 0 {
      assert UniqueKeys(es[1..]) by {
        forall i, j | 0 <= i < j < |es| - 1 ensures es[1..][i].key != es[1..][j].key {
          assert es[1..][i] == es[i + 1] && es[1..][j] == es[j + 1];
        }
      }
      WithoutKeyKeepsUnique(es[1..], key);
      var rest := WithoutKey(es[1..], key);
      if es[0].key != key {
        forall j | 0 <= j < |rest| ensures es[0].key != rest[j].key {
          assert rest[j] in rest;
          var k :| 0 <= k < |es[1..]| && es[1..][k] == rest[j];
          assert es[k + 1] == rest[j];
        }
        var r := [es[0]] + rest;
        forall i, j | 0 <= i < j < |r| ensures r[i].key != r[j].key {
          assert r[j] == rest[j - 1];
          if i > 0 {
            assert r[i] == rest[i - 1];
          }
        }
      }
    }
  }

  /** POST with a fresh key keeps the document well formed. */
  lemma CreateEntryKeepsWellFormed(d: Doc, axis: Axis, key: Key, name: Option<string>)
    requires WellFormed(d)
    requires forall e :: e in Lookup(d, axis) ==> e.key != key
    ensures WellFormed(CreateEntry(d, axis, key, name).doc)
  {
  }

  /** DELETE keeps the document well formed: the cascade nulls every reference to the key
      before the entries with it are filtered out. */
  lemma DeleteEntryKeepsWellFormed(d: Doc, axis: Axis, key: Key)
    requires WellFormed(d) && DeleteEntry(d, axis, key).Ok?
    ensures WellFormed(DeleteEntry(d, axis, key).value)
  {
    var d' := DeleteEntry(d, axis, key).value;
    var es := Lookup(d, axis);
    WithoutKeyKeepsUnique(es, key);
    forall t, ax | t in d'.tickets ensures Resolves(RefOf(t, ax), Lookup(d', ax)) {
      var i :| 0 <= i < |d'.tickets| && d'.tickets[i] == t;
      assert d.tickets[i] in d.tickets;
      assert Resolves(RefOf(d.tickets[i], ax), Lookup(d, ax));
      if ax == axis {
        if RefOf(t, ax).Some? {
          assert RefOf(t, ax) == RefOf(d.tickets[i], ax) != Some(key);
          var e :| e in es && e.key == RefOf(t, ax).value;
          assert e in Lookup(d', ax);
        }
      } else {
        assert ax == axis.Other();
      }
    }
    assert UniqueKeys(d'.statuses) && UniqueKeys(d'.categories) by {
      match axis
      case StatusAxis =>
      case CategoryAxis =>
    }
  }

  /** PUT keeps the document well formed when the body's key is null or names an entry of the
      table (the client sends the entry's own key). */
  lemma UpdateEntryKeepsWellFormed(d: Doc, axis: Axis, key: Key, body: EntryBody)
    requires WellFormed(d) && UpdateEntry(d, axis, key, body).Ok?
    requires Resolves(body.key, Lookup(d, axis))
    ensures WellFormed(UpdateEntry(d, axis, key, body).value.doc)
  {
  }

  /** PUT with a body key that no entry has breaks reference integrity: the tickets are moved to
      the new key but the entry keeps the old one. */
  lemma UpdateEntryToNewKeyDangles()
    ensures var d := Doc([NewTicket([], EmptyBody.(category := Present(Some("a"))), 0)], [], [Entry("a", None)]);
      && WellFormed(d)
      && UpdateEntry(d, CategoryAxis, "a", EntryBody(Some("b"), None)).Ok?
      && !RefsResolve(UpdateEntry(d, CategoryAxis, "a", EntryBody(Some("b"), None)).value.doc)
  {
  }

  // Ticket handlers

  /** POST without an `id` in the body keeps ids increasing, and the new id is unused. */
  lemma CreateKeepsIdsIncreasing(ts: seq<Ticket>, body: TicketBody, now: Timestamp)
    requires IncreasingIds(ts) && body.id.Absent?
    ensures IncreasingIds(ts + [NewTicket(ts, body, now)])
    ensures forall t :: t in ts ==> t.id < NewTicket(ts, body, now).id
  {
  }

  /** DELETE keeps ids increasing. */
  lemma DeleteKeepsIdsIncreasing(ts: seq<Ticket>, id: int)
    requires IncreasingIds(ts) && DeletedTickets(ts, id).Ok?
    ensures IncreasingIds(DeletedTickets(ts, id).value)
  {
  }

  /** PUT without an `id` in the body keeps every ticket's id, hence keeps ids increasing. */
  lemma UpdateKeepsIdsIncreasing(ts: seq<Ticket>, id: int, body: TicketBody)
    requires IncreasingIds(ts) && body.id.Absent? && UpdatedTickets(ts, id, body).Ok?
    ensures IncreasingIds(UpdatedTickets(ts, id, body).value)
  {
  }

  /** The next id follows the last ticket, not the largest id: after a PUT whose body moves the
      last ticket's id down, POST hands out an id that is already taken. */
  lemma IdOverrideThenCreateDuplicatesId()
    ensures var t1 := NewTicket([], EmptyBody, 0);
      var t2 := NewTicket([t1], EmptyBody, 0);
      var ts := UpdatedTickets([t1, t2], 2, EmptyBody.(id := Present(0))).value;
      var t3 := NewTicket(ts, EmptyBody, 0);
      t1.id == 1 && t2.id == 2 && ts[0].id == 1 && t3.id == 1
  {
  }

  /** POST keeps references resolving when the body's status and category resolve. */
  lemma CreateKeepsRefsResolving(d: Doc, body: TicketBody, now: Timestamp)
    requires RefsResolve(d)
    requires body.status.Present? ==> Resolves(body.status.value, d.statuses)
    requires body.category.Present? ==> Resolves(body.category.value, d.categories)
    ensures RefsResolve(d.(tickets := d.tickets + [NewTicket(d.tickets, body, now)]))
  {
  }

  /** PUT keeps references resolving when the body's status and category resolve. */
  lemma UpdateKeepsRefsResolving(d: Doc, id: int, body: TicketBody)
    requires RefsResolve(d) && UpdatedTickets(d.tickets, id, body).Ok?
    requires body.status.Present? ==> Resolves(body.status.value, d.statuses)
    requires body.category.Present? ==> Resolves(body.category.value, d.categories)
    ensures RefsResolve(d.(tickets := UpdatedTickets(d.tickets, id, body).value))
  {
    var ts := UpdatedTickets(d.tickets, id, body).value;
    var d' := d.(tickets := ts);
    var k := IndexOf(d.tickets, TicketId, id).value;
    forall t, ax | t in ts ensures Resolves(RefOf(t, ax), Lookup(d', ax)) {
      var i :| 0 <= i < |ts| && ts[i] == t;
      assert d.tickets[i] in d.tickets;
      assert Resolves(RefOf(d.tickets[i], ax), Lookup(d, ax));
    }
  }

  /** DELETE of a ticket keeps references resolving: tickets are only ever the referencing side. */
  lemma DeleteKeepsRefsResolving(d: Doc, id: int)
    requires RefsResolve(d) && DeletedTickets(d.tickets, id).Ok?
    ensures RefsResolve(d.(tickets := DeletedTickets(d.tickets, id).value))
  {
  }
}
