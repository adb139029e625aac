/** The persisted ticket document and the request bodies the route handlers receive.
    A JSON property that is null, undefined or missing is `None`; a request-body property
    that may be left out is a `Field`, so that "absent" and "present with null" stay apart. */
module Model {

  datatype Option<+T> = None | Some(value: T)

  /** One property of a JSON request body: left out, or given a value. */
  datatype Field<+T> = Absent | Present(value: T) {
    /** The value an object spread `{...base, ...body}` leaves for this property. */
    function Or(base: T): T {
      match this
      case Absent => base
      case Present(v) => v
    }
  }

  /** The only failure the handlers report: the id or key in the path matches nothing (HTTP 404). */
  datatype Error = NotFound

  datatype Result<+T> = Ok(value: T) | Err(error: Error)

  /** Opaque token that identifies a status or a category. */
  type Key = string

  /** Milliseconds since the epoch: the numeric value of a `createdAt` date. */
  type Timestamp = int

  datatype Comment = Comment(id: string, author: string, content: string, createdAt: Timestamp)

  datatype Ticket = Ticket(
    id: int,
    user: Option<string>,
    title: Option<string>,
    description: Option<string>,
    priority: Option<string>,
    status: Option<Key>,
    category: Option<Key>,
    createdAt: Timestamp,
    comments: seq<Comment>)

  /** The JSON body of a ticket create or update request; every property may be left out. */
  datatype TicketBody = TicketBody(
    id: Field<int>,
    user: Field<Option<string>>,
    title: Field<Option<string>>,
    description: Field<Option<string>>,
    priority: Field<Option<string>>,
    status: Field<Option<Key>>,
    category: Field<Option<Key>>,
    createdAt: Field<Timestamp>,
    comments: Field<seq<Comment>>)

  /** A status or a category: both lookup tables hold entries of this shape. `name` is the
      JSON property `label` (`label` is a reserved word here). */
  datatype Entry = Entry(key: Key, name: Option<string>)

  /** The JSON body of a status or category request: `key` and `label` (as `name`), each possibly missing. */
  datatype EntryBody = EntryBody(key: Option<Key>, name: Option<string>)

  /** The whole persisted document: the three top-level collections. */
  datatype Doc = Doc(tickets: seq<Ticket>, statuses: seq<Entry>, categories: seq<Entry>)

  /** A handler's effect: the document it leaves behind and the value it answers with. */
  datatype Reply<+T> = Reply(doc: Doc, answer: T)

  /** The two reference axes of a ticket: its `status` and its `category`. */
  datatype Axis = StatusAxis | CategoryAxis {
    function Other(): Axis {
      if StatusAxis? then CategoryAxis else StatusAxis
    }
  }

  /** The reference a ticket holds on one axis. */
  function RefOf(t: Ticket, axis: Axis): Option<Key> {
    match axis
    case StatusAxis => t.status
    case CategoryAxis => t.category
  }

  /** The ticket with its reference on one axis replaced. */
  function WithRef(t: Ticket, axis: Axis, r: Option<Key>): Ticket {
    match axis
    case StatusAxis => t.(status := r)
    case CategoryAxis => t.(category := r)
  }

  /** The lookup table of one axis. */
  function Lookup(d: Doc, axis: Axis): seq<Entry> {
    match axis
    case StatusAxis => d.statuses
    case CategoryAxis => d.categories
  }

  /** The document with the lookup table of one axis replaced. */
  function WithLookup(d: Doc, axis: Axis, es: seq<Entry>): Doc {
    match axis
    case StatusAxis => d.(statuses := es)
    case CategoryAxis => d.(categories := es)
  }

  /** The identity a ticket is looked up by. */
  function TicketId(t: Ticket): int { t.id }

  /** The identity an entry is looked up by. */
  function EntryKey(e: Entry): Key { e.key }

  /** Position of the first element whose key is `k` (`find`, `findIndex`), if any. */
  function IndexOf<T, K(==)>(s: seq<T>, keyOf: T -> K, k: K): (r: Option<nat>)
    ensures r.None? <==> forall j :: 0 <= j < |s| ==> keyOf(s[j]) != k
    ensures r.Some? ==> r.value < |s| && keyOf(s[r.value]) == k
                        && forall j :: 0 <= j < r.value ==> keyOf(s[j]) != k
  {
    if |s| == 0 then None
    else if keyOf(s[0]) == k then Some(0)
    else match IndexOf(s[1..], keyOf, k)
         case None => None
         case Some(i) => Some(i + 1)
  }

  /** Shallow merge `{...t, ...b}`: every property present in the body overwrites the ticket's. */
  function Merge(t: Ticket, b: TicketBody): Ticket {
    Ticket(
      b.id.Or(t.id),
      b.user.Or(t.user),
      b.title.Or(t.title),
      b.description.Or(t.description),
      b.priority.Or(t.priority),
      b.status.Or(t.status),
      b.category.Or(t.category),
      b.createdAt.Or(t.createdAt),
      b.comments.Or(t.comments))
  }

  /** A body with every property left out. */
  const EmptyBody := TicketBody(Absent, Absent, Absent, Absent, Absent, Absent, Absent, Absent, Absent)

  /** Spreading a body keeps a property of the ticket exactly when the body leaves it out, and
      takes the body's value otherwise; an empty body leaves the ticket as it was. */
  lemma MergeOverwritesPresentFields(t: Ticket, b: TicketBody)
    ensures Merge(t, b).id == (if b.id.Present? then b.id.value else t.id)
    ensures Merge(t, b).user == (if b.user.Present? then b.user.value else t.user)
    ensures Merge(t, b).title == (if b.title.Present? then b.title.value else t.title)
    ensures Merge(t, b).description == (if b.description.Present? then b.description.value else t.description)
    ensures Merge(t, b).priority == (if b.priority.Present? then b.priority.value else t.priority)
    ensures Merge(t, b).status == (if b.status.Present? then b.status.value else t.status)
    ensures Merge(t, b).category == (if b.category.Present? then b.category.value else t.category)
    ensures Merge(t, b).createdAt == (if b.createdAt.Present? then b.createdAt.value else t.createdAt)
    ensures Merge(t, b).comments == (if b.comments.Present? then b.comments.value else t.comments)
    ensures Merge(t, EmptyBody) == t
    ensures Merge(Merge(t, b), b) == Merge(t, b)
  {
  }
}
