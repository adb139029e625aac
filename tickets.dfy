/** The ticket routes: list, get one, create, update and delete. */
module TicketRoutes {
  import opened Model
  import opened Ordering
  import opened Store

  /** The sort key of the ticket list. */
  function TicketCreatedAt(t: Ticket): int { t.createdAt }

  /** The sort key of a ticket's comments. */
  function CommentCreatedAt(c: Comment): int { c.createdAt }

  /** GET /: every ticket, newest first; tickets created at the same time keep their order. */
  function ListTickets(ts: seq<Ticket>): (r: seq<Ticket>)
    ensures multiset(r) == multiset(ts)
    ensures NewestFirst(r, TicketCreatedAt)
    ensures forall k :: Stamped(r, TicketCreatedAt, k) == Stamped(ts, TicketCreatedAt, k)
  {
    var r := SortNewestFirst(ts, TicketCreatedAt);
    assert forall k :: Stamped(r, TicketCreatedAt, k) == Stamped(ts, TicketCreatedAt, k) by {
      forall k { SortIsStable(ts, TicketCreatedAt, k); }
    }
    r
  }

  /** GET /:id: the first ticket with `id`, its comments newest first. */
  function GetTicket(ts: seq<Ticket>, id: int): (r: Result<Ticket>)
    ensures r.Err? <==> forall t :: t in ts ==> t.id != id
    ensures r.Ok? ==>
      var t := ts[IndexOf(ts, TicketId, id).value];
      && r.value.(comments := t.comments) == t
      && multiset(r.value.comments) == multiset(t.comments)
      && NewestFirst(r.value.comments, CommentCreatedAt)
      && forall k :: Stamped(r.value.comments, CommentCreatedAt, k) == Stamped(t.comments, CommentCreatedAt, k)
  {
    match IndexOf(ts, TicketId, id)
    case None => Err(NotFound)
    case Some(i) =>
      var cs := ts[i].comments;
      assert forall k :: Stamped(SortNewestFirst(cs, CommentCreatedAt), CommentCreatedAt, k)
                      == Stamped(cs, CommentCreatedAt, k) by {
        forall k { SortIsStable(cs, CommentCreatedAt, k); }
      }
      Ok(ts[i].(comments := SortNewestFirst(cs, CommentCreatedAt)))
  }

  /** The id a new ticket gets unless the body names one: one more than the LAST ticket's id,
      or 1 when there is no ticket. */
  function NextId(ts: seq<Ticket>): int {
    var lastId := if |ts| > 0 then ts[|ts| - 1].id else 0;
    lastId + 1
  }

  /** `{id: lastId + 1, ...body, createdAt: now, comments: []}`. */
  function NewTicket(ts: seq<Ticket>, body: TicketBody, now: Timestamp): (t: Ticket)
    ensures t.createdAt == now && t.comments == []
    ensures body.id.Absent? ==> t.id == (if |ts| > 0 then ts[|ts| - 1].id + 1 else 1)
    ensures body.id.Present? ==> t.id == body.id.value
    ensures t.status == (if body.status.Present? then body.status.value else None)
    ensures t.category == (if body.category.Present? then body.category.value else None)
    ensures t.user == body.user.Or(None) && t.title == body.title.Or(None)
    ensures t.description == body.description.Or(None) && t.priority == body.priority.Or(None)
  {
    var base := Ticket(NextId(ts), None, None, None, None, None, None, now, []);
    Merge(base, body).(createdAt := now, comments := [])
  }

  /** PUT /:id as a function of the ticket list: the first ticket with `id` is merged with the
      body, every other ticket stays where and as it was. */
  function UpdatedTickets(ts: seq<Ticket>, id: int, body: TicketBody): (r: Result<seq<Ticket>>)
    ensures r.Err? <==> forall t :: t in ts ==> t.id != id
    ensures r.Ok? ==>
      var i := IndexOf(ts, TicketId, id).value;
      && |r.value| == |ts|
      && r.value[i] == Merge(ts[i], body)
      && forall j :: 0 <= j < |ts| && j != i ==> r.value[j] == ts[j]
  {
    match IndexOf(ts, TicketId, id)
    case None => Err(NotFound)
    case Some(i) => Ok(ts[i := Merge(ts[i], body)])
  }

  /** DELETE /:id as a function of the ticket list: the first ticket with `id` is removed and
      the others keep their order. */
  function DeletedTickets(ts: seq<Ticket>, id: int): (r: Result<seq<Ticket>>)
    ensures r.Err? <==> forall t :: t in ts ==> t.id != id
    ensures r.Ok? ==>
      var i := IndexOf(ts, TicketId, id).value;
      && |r.value| == |ts| - 1
      && (forall j :: 0 <= j < i ==> r.value[j] == ts[j])
      && (forall j :: i <= j < |r.value| ==> r.value[j] == ts[j + 1])
      && multiset(r.value) + multiset{ts[i]} == multiset(ts)
  {
    match IndexOf(ts, TicketId, id)
    case None => Err(NotFound)
    case Some(i) =>
      assert ts == ts[..i] + [ts[i]] + ts[i + 1..];
      Ok(ts[..i] + ts[i + 1..])
  }

  /** POST /: appends the new ticket; nothing else in the document changes. */
  method Create(db: Document, body: TicketBody, now: Timestamp) returns (t: Ticket)
    modifies db
    ensures t == NewTicket(old(db.tickets), body, now)
    ensures db.tickets == old(db.tickets) + [t]
    ensures db.statuses == old(db.statuses) && db.categories == old(db.categories)
  {
    t := NewTicket(db.tickets, body, now);
    db.tickets := db.tickets + [t];
  }

  /** PUT /:id: not found changes nothing; otherwise the merged ticket replaces the first match. */
  method Update(db: Document, id: int, body: TicketBody) returns (r: Result<Ticket>)
    modifies db
    ensures var spec := UpdatedTickets(old(db.tickets), id, body);
      if spec.Err? then r == Err(NotFound) && db.tickets == old(db.tickets)
      else db.tickets == spec.value && r == Ok(db.tickets[IndexOf(old(db.tickets), TicketId, id).value])
    ensures db.statuses == old(db.statuses) && db.categories == old(db.categories)
  {
    var i := Find(db.tickets, TicketId, id);
    if i.None? {
      return Err(NotFound);
    }
    var updated := Merge(db.tickets[i.value], body);
    db.tickets := db.tickets[i.value := updated];
    r := Ok(updated);
  }

  /** DELETE /:id: not found changes nothing; otherwise `splice` removes the first match. */
  method Delete(db: Document, id: int) returns (r: Result<()>)
    modifies db
    ensures var spec := DeletedTickets(old(db.tickets), id);
      if spec.Err? then r == Err(NotFound) && db.tickets == old(db.tickets)
      else r == Ok(()) && db.tickets == spec.value
    ensures db.statuses == old(db.statuses) && db.categories == old(db.categories)
  {
    var i := Find(db.tickets, TicketId, id);
    if i.None? {
      return Err(NotFound);
    }
    db.tickets := db.tickets[..i.value] + db.tickets[i.value + 1..];
    r := Ok(());
  }
}
