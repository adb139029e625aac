/** What the status and category handlers do to the document, as functions on its value.
    Both lookup tables behave alike, so every operation takes the `Axis` it works on. */
module Lookups {
  import opened Model

  /** `es.filter(e => e.key !== key)`. */
  function WithoutKey(es: seq<Entry>, key: Key): (r: seq<Entry>)
    ensures forall e :: e in r <==> e in es && e.key != key
  {
    if |es| == 0 then []
    else if es[0].key == key then WithoutKey(es[1..], key)
    else [es[0]] + WithoutKey(es[1..], key)
  }

  /** The body of the cascade loop for one ticket. */
  function RetargetTicket(t: Ticket, axis: Axis, from: Key, to: Option<Key>): Ticket {
    if RefOf(t, axis) == Some(from) then WithRef(t, axis, to) else t
  }

  /** Every ticket that references `from` on `axis` now references `to`; nothing else changes. */
  function RetargetAll(ts: seq<Ticket>, axis: Axis, from: Key, to: Option<Key>): (r: seq<Ticket>)
    ensures |r| == |ts|
    ensures forall i :: 0 <= i < |ts| ==>
      RefOf(r[i], axis) == (if RefOf(ts[i], axis) == Some(from) then to else RefOf(ts[i], axis))
    ensures forall i :: 0 <= i < |ts| ==> RefOf(r[i], axis.Other()) == RefOf(ts[i], axis.Other())
    ensures forall i :: 0 <= i < |ts| ==> r[i] == WithRef(ts[i], axis, RefOf(r[i], axis))
  {
    if |ts| == 0 then []
    else [RetargetTicket(ts[0], axis, from, to)] + RetargetAll(ts[1..], axis, from, to)
  }

  /** Each ticket of `RetargetAll` is the loop body applied to the ticket at the same position. */
  lemma RetargetAllAt(ts: seq<Ticket>, axis: Axis, from: Key, to: Option<Key>, i: int)
    requires 0 <= i < |ts|
    ensures RetargetAll(ts, axis, from, to)[i] == RetargetTicket(ts[i], axis, from, to)
  {
  }

  /** POST: the new entry `{key, label}` goes at the end of the table. */
  function CreateEntry(d: Doc, axis: Axis, key: Key, name: Option<string>): (r: Reply<Entry>)
    ensures r.answer == Entry(key, name)
    ensures Lookup(r.doc, axis) == Lookup(d, axis) + [r.answer]
    ensures r.doc.tickets == d.tickets && Lookup(r.doc, axis.Other()) == Lookup(d, axis.Other())
  {
    var e := Entry(key, name);
    Reply(WithLookup(d, axis, Lookup(d, axis) + [e]), e)
  }

  /** PUT /:key: the first entry with `key` gets the body's label and keeps its key; every ticket
      that references `key` on this axis is made to reference the body's key. */
  function UpdateEntry(d: Doc, axis: Axis, key: Key, body: EntryBody): (r: Result<Reply<Entry>>)
    ensures r.Err? <==> forall e :: e in Lookup(d, axis) ==> e.key != key
    ensures r.Ok? ==> r.value.answer == Entry(key, body.name)
    ensures r.Ok? ==> r.value.doc.tickets == RetargetAll(d.tickets, axis, key, body.key)
    ensures r.Ok? ==> Lookup(r.value.doc, axis.Other()) == Lookup(d, axis.Other())
    ensures r.Ok? ==>
      var (before, after) := (Lookup(d, axis), Lookup(r.value.doc, axis));
      var i := IndexOf(before, EntryKey, key).value;
      |after| == |before| && after[i] == r.value.answer
      && (forall j :: 0 <= j < |before| ==> after[j].key == before[j].key)
      && (forall j :: 0 <= j < |before| && j != i ==> after[j] == before[j])
  {
    var es := Lookup(d, axis);
    match IndexOf(es, EntryKey, key)
    case None => Err(NotFound)
    case Some(i) =>
      var e := es[i].(name := body.name);
      var d' := d.(tickets := RetargetAll(d.tickets, axis, es[i].key, body.key));
      Ok(Reply(WithLookup(d', axis, es[i := e]), e))
  }

  /** DELETE /:key: tickets that reference `key` on this axis get `null`, and every entry with
      `key` leaves the table. */
  function DeleteEntry(d: Doc, axis: Axis, key: Key): (r: Result<Doc>)
    ensures r.Err? <==> forall e :: e in Lookup(d, axis) ==> e.key != key
    ensures r.Ok? ==> r.value.tickets == RetargetAll(d.tickets, axis, key, None)
    ensures r.Ok? ==> Lookup(r.value, axis) == WithoutKey(Lookup(d, axis), key)
    ensures r.Ok? ==> Lookup(r.value, axis.Other()) == Lookup(d, axis.Other())
  {
    var es := Lookup(d, axis);
    match IndexOf(es, EntryKey, key)
    case None => Err(NotFound)
    case Some(i) =>
      var d' := d.(tickets := RetargetAll(d.tickets, axis, es[i].key, None));
      Ok(WithLookup(d', axis, WithoutKey(es, key)))
  }

  // Properties of the cascade and the filter

  /** After the null-out cascade no ticket references the deleted key, and exactly the tickets
      that referenced it now hold `null`. */
  lemma NullOutClearsKey(ts: seq<Ticket>, axis: Axis, key: Key)
    ensures forall t :: t in RetargetAll(ts, axis, key, None) ==> RefOf(t, axis) != Some(key)
    ensures forall i :: 0 <= i < |ts| && RefOf(ts[i], axis) == Some(key) ==>
      RefOf(RetargetAll(ts, axis, key, None)[i], axis).None?
  {
  }

  /** The cascade changes exactly the tickets that referenced `from` (when `to` differs). */
  lemma RetargetChangesExactlyReferencing(ts: seq<Ticket>, axis: Axis, from: Key, to: Option<Key>, i: int)
    requires 0 <= i < |ts| && to != Some(from)
    ensures RetargetAll(ts, axis, from, to)[i] != ts[i] <==> RefOf(ts[i], axis) == Some(from)
  {
  }

  /** Rewriting a key to itself, which is what the client sends, leaves every ticket as it was. */
  lemma RetargetToSameKeyIsIdentity(ts: seq<Ticket>, axis: Axis, key: Key)
    ensures RetargetAll(ts, axis, key, Some(key)) == ts
  {
  }

  /** Cascades on the two axes never interact: they commute. */
  lemma CascadesCommute(ts: seq<Ticket>, a: Key, b: Option<Key>, c: Key, d: Option<Key>)
    ensures RetargetAll(RetargetAll(ts, StatusAxis, a, b), CategoryAxis, c, d)
         == RetargetAll(RetargetAll(ts, CategoryAxis, c, d), StatusAxis, a, b)
  {
  }

  /** The filter keeps the other entries in their order: it distributes over concatenation. */
  lemma {:induction false} WithoutKeyAppend(xs: seq<Entry>, ys: seq<Entry>, key: Key)
    ensures WithoutKey(xs + ys, key) == WithoutKey(xs, key) + WithoutKey(ys, key)
  {
    if |xs| > 0 {
      assert (xs + ys)[0] == xs[0] && (xs + ys)[1..] == xs[1..] + ys;
      WithoutKeyAppend(xs[1..], ys, key);
    } else {
      assert xs + ys == ys;
    }
  }

  /** Filtering out a key that no entry has leaves the table as it was. */
  lemma {:induction false} WithoutAbsentKey(es: seq<Entry>, key: Key)
    requires forall e :: e in es ==> e.key != key
    ensures WithoutKey(es, key) == es
  {
    if |es| > 0 {
      assert es[0] in es;
      WithoutAbsentKey(es[1..], key);
      assert [es[0]] + es[1..] == es;
    }
  }
}
