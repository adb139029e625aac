/** The resident document the route handlers read and change (`db.data`), and the scans and the
    cascade loop the handlers run over it. */
module Store {
  import opened Model
  import opened Lookups

  /** The in-memory copy of the persisted JSON document. */
  class Document {
    var tickets: seq<Ticket>
    var statuses: seq<Entry>
    var categories: seq<Entry>

    /** The document's value. */
    function State(): Doc
      reads this
    {
      Doc(tickets, statuses, categories)
    }

    /** The document as read from its file. */
    constructor (d: Doc)
      ensures State() == d
    {
      tickets, statuses, categories := d.tickets, d.statuses, d.categories;
    }

    /** The `forEach` cascade: every ticket whose reference on `axis` is `from` is set to `to`. */
    method Retarget(axis: Axis, from: Key, to: Option<Key>)
      modifies this
      ensures tickets == RetargetAll(old(tickets), axis, from, to)
      ensures statuses == old(statuses) && categories == old(categories)
    {
      var i := 0;
      while i < |tickets|
        invariant 0 <= i <= |tickets| == |old(tickets)|
        invariant statuses == old(statuses) && categories == old(categories)
        invariant forall j :: 0 <= j < i ==> tickets[j] == RetargetTicket(old(tickets)[j], axis, from, to)
        invariant forall j :: i <= j < |tickets| ==> tickets[j] == old(tickets)[j]
      {
        if RefOf(tickets[i], axis) == Some(from) {
          tickets := tickets[i := WithRef(tickets[i], axis, to)];
        }
        i := i + 1;
      }
      forall j | 0 <= j < |tickets|
        ensures tickets[j] == RetargetAll(old(tickets), axis, from, to)[j]
      {
        RetargetAllAt(old(tickets), axis, from, to, j);
      }
    }
  }

  /** The `find` / `findIndex` scan: the position of the first element whose key is `k`. */
  method Find<T, K(==)>(s: seq<T>, keyOf: T -> K, k: K) returns (r: Option<nat>)
    ensures r == IndexOf(s, keyOf, k)
  {
    var i := 0;
    while i < |s|
      invariant 0 <= i <= |s|
      invariant forall j :: 0 <= j < i ==> keyOf(s[j]) != k
    {
      if keyOf(s[i]) == k {
        return Some(i);
      }
      i := i + 1;
    }
    return None;
  }
}
