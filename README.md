# Ticket tracker document logic, in Dafny

This project models the server side of a small ticket tracker. One JSON document holds three
collections: `tickets`, `statuses` and `categories`. A ticket references a status and a category
by key. Each Express route handler reads the document; POST, PUT and DELETE change it and write it
back. The model keeps what a handler does to the document and drops the HTTP framing and the file
I/O.

- `model.dfy` (module `Model`): the document (`Doc`), tickets, comments, lookup entries, request
  bodies, and the `find` / `findIndex` lookup (`IndexOf`). A JSON property that is `null`,
  `undefined` or missing is `None`. A body property that may be left out is a `Field` (`Absent` or
  `Present`), so the object spread `{...ticket, ...body}` is modelled exactly by `Merge`. The
  JSON property `label` is called `name`, because `label` is a reserved word in Dafny.
- `ordering.dfy` (module `Ordering`): the stable newest-first sort that `Array.prototype.sort` runs
  with the comparator `(a, b) => new Date(b.createdAt) - new Date(a.createdAt)`. The model's
  integer timestamps stand for those `Date` values.
- `lookups.dfy` (module `Lookups`): what creating, updating and deleting a status or category does
  to the document, as functions of an `Axis` (status or category). This module also holds the
  reference cascade (`RetargetAll`) and the filter (`WithoutKey`).
- `store.dfy` (module `Store`): the resident document as a class `Document` whose fields the
  handlers reassign. It holds the cascade `forEach` loop (`Document.Retarget`) and the
  `find` / `findIndex` scan (`Find`).
- `tickets.dfy`, `categories.dfy`, `statuses.dfy`: one module per route file. List and get-one are
  pure functions. Create, update and delete are methods on a `Document`, each proved to leave
  exactly the document that the matching specification function describes.
- `integrity.dfy` (module `Integrity`): invariants across handlers. Every reference resolves, keys
  are unique within a table, and ticket ids increase along the collection. The module also has two
  concrete documents on which the handlers, as written, lose one of these guarantees.

The model follows the handlers as written, including these behaviours:
- The next ticket id is the last ticket's id plus one (1 when there are no tickets), whatever the
  largest id is. A body `id` overrides it. `IdOverrideThenCreateDuplicatesId` shows a
  reachable document on which a create hands out an id that is already taken.
- Create checks no required fields. Update lets the body overwrite `id` and `createdAt`.
- Updating a status or category sets only its label. Its key stays, while the tickets that
  referenced the key are moved to the body's `key`. The client sends the entry's own key, and then
  the rewrite changes nothing (`RetargetToSameKeyIsIdentity`). When the body's key is null or names
  an existing entry, the invariants hold (`UpdateEntryKeepsWellFormed`). With any other key,
  references dangle (`UpdateEntryToNewKeyDangles`).

## Model

| member | source | states |
|---|---|---|
| `TicketRoutes.ListTickets` | server/routes/tickets.js:84-87 | the list is a permutation of the tickets in non-increasing `createdAt` order, and tickets with equal `createdAt` keep their relative order |
| `TicketRoutes.GetTicket` | server/routes/tickets.js:111-123 | not found exactly when no ticket has the id; otherwise the first ticket with the id, unchanged except that its comments are the same multiset in non-increasing `createdAt` order, comments with equal `createdAt` keeping their relative order |
| `Model.IndexOf` | server/routes/tickets.js:205 | `findIndex` / `find`: none exactly when no element has the id or key, otherwise the first position holding it |
| `Store.Find` | server/routes/categories.js:114 | the scan loop returns exactly the first position with the id or key, or none |
| `TicketRoutes.NewTicket` | server/routes/tickets.js:161-168 | the new ticket has `createdAt = now` and no comments whatever the body says; its id is the body's id if given, else the last ticket's id plus one, or 1 for an empty collection; user, title, description, priority, status and category come from the body or are null |
| `TicketRoutes.UpdatedTickets` | server/routes/tickets.js:205-216 | not found exactly when no ticket has the id; otherwise same length, the first match becomes the merge of it with the body, all other tickets unchanged |
| `TicketRoutes.DeletedTickets` | server/routes/tickets.js:241-247 | not found exactly when no ticket has the id; otherwise exactly the first match is removed and the other tickets keep their order |
| `TicketRoutes.Create` | server/routes/tickets.js:158-173 | appends exactly the new ticket at the end; earlier tickets, statuses and categories unchanged |
| `TicketRoutes.Update` | server/routes/tickets.js:203-219 | unknown id: not found, document unchanged; otherwise the ticket list becomes `UpdatedTickets` and the reply is the merged ticket |
| `TicketRoutes.Delete` | server/routes/tickets.js:239-250 | unknown id: not found, document unchanged; otherwise the ticket list becomes `DeletedTickets` |
| `Model.MergeOverwritesPresentFields` | server/routes/tickets.js:211-214 | each of the nine body properties overwrites the ticket's property when present and leaves it when absent; an empty body changes nothing; merging twice equals merging once |
| `Ordering.SortNewestFirst` | server/routes/tickets.js:86 | the sort returns a permutation in non-increasing timestamp order |
| `Ordering.SortIsStable` | server/routes/tickets.js:120 | the sort keeps the relative order of elements with equal timestamps |
| `Ordering.SortKeepsOrderedInput` | server/routes/tickets.js:86 | a sequence already newest first comes back unchanged |
| `Lookups.RetargetAll` | server/routes/categories.js:119-123 | every ticket whose reference on the axis equals the old key gets the new reference, every other ticket keeps it, the other axis is never touched, and nothing else in a ticket changes |
| `Store.Document.Retarget` | server/routes/statuses.js:121-125 | the `forEach` loop leaves exactly the tickets `RetargetAll` describes and does not touch the lookup tables |
| `Lookups.RetargetChangesExactlyReferencing` | server/routes/statuses.js:121-125 | when the new reference differs from the old key, a ticket changes exactly when it referenced the old key |
| `Lookups.RetargetToSameKeyIsIdentity` | server/routes/categories.js:119-123 | rewriting a key to itself changes no ticket |
| `Lookups.CascadesCommute` | server/routes/statuses.js:121-125 | a status cascade and a category cascade commute: the two axes never interact |
| `Lookups.NullOutClearsKey` | server/routes/categories.js:154-158 | after the null-out no ticket references the deleted key, and every ticket that referenced it now holds null |
| `Lookups.WithoutKey` | server/routes/categories.js:160 | the filter keeps exactly the entries whose key differs |
| `Lookups.WithoutKeyAppend` | server/routes/statuses.js:162 | the filter distributes over concatenation, so the surviving entries keep their order |
| `Integrity.WithoutKeyKeepsUnique` | server/routes/statuses.js:162 | filtering a table whose keys are unique leaves a table whose keys are unique |
| `Lookups.WithoutAbsentKey` | server/routes/categories.js:160 | filtering out a key that no entry has leaves the table unchanged |
| `Lookups.CreateEntry` | server/routes/categories.js:73-83 | the reply is `{key, label}`, appended at the end of its table; tickets and the other table unchanged |
| `Lookups.UpdateEntry` | server/routes/categories.js:112-128 | not found exactly when no entry has the key; otherwise the tickets are the cascade to the body's key, the first matching entry gets the body's label, every entry keeps its key, other entries and the other table are unchanged |
| `Lookups.DeleteEntry` | server/routes/categories.js:147-163 | not found exactly when no entry has the key; otherwise the tickets are the null-out cascade, the table is the filter, and the other table is unchanged |
| `CategoryRoutes.List` | server/routes/categories.js:47-50 | returns the categories as stored |
| `CategoryRoutes.Create` | server/routes/categories.js:73-83 | with a fresh key, the document becomes `CreateEntry` on the category axis and the reply is the new entry |
| `CategoryRoutes.Update` | server/routes/categories.js:112-128 | unknown key: not found, document unchanged; otherwise the document and reply of `UpdateEntry` on the category axis |
| `CategoryRoutes.Delete` | server/routes/categories.js:147-163 | unknown key: not found, document unchanged; otherwise the document of `DeleteEntry` on the category axis |
| `StatusRoutes.List` | server/routes/statuses.js:49-52 | returns the statuses as stored |
| `StatusRoutes.Create` | server/routes/statuses.js:75-85 | with a fresh key, the document becomes `CreateEntry` on the status axis and the reply is the new entry |
| `StatusRoutes.Update` | server/routes/statuses.js:114-130 | unknown key: not found, document unchanged; otherwise the document and reply of `UpdateEntry` on the status axis |
| `StatusRoutes.Delete` | server/routes/statuses.js:149-165 | unknown key: not found, document unchanged; otherwise the document of `DeleteEntry` on the status axis |
| `Store.Document.constructor` | server/db.js:20 | the resident document is the one read from the file |
| `Integrity.CreateEntryKeepsWellFormed` | server/routes/statuses.js:77-82 | creating an entry with a fresh key keeps references resolving and keys unique |
| `Integrity.DeleteEntryKeepsWellFormed` | server/routes/statuses.js:156-162 | deleting an entry keeps references resolving and keys unique |
| `Integrity.UpdateEntryKeepsWellFormed` | server/routes/categories.js:119-125 | updating an entry keeps the document well formed when the body's key is null or names an existing entry |
| `Integrity.UpdateEntryToNewKeyDangles` | server/routes/categories.js:119-125 | a well-formed document where an update with a new body key leaves a ticket referencing a key no category has |
| `Integrity.CreateKeepsIdsIncreasing` | server/routes/tickets.js:161-170 | create without a body id keeps ids increasing, and the new id exceeds every existing id |
| `Integrity.DeleteKeepsIdsIncreasing` | server/routes/tickets.js:247 | delete keeps ids increasing |
| `Integrity.UpdateKeepsIdsIncreasing` | server/routes/tickets.js:211-216 | update without a body id keeps ids increasing |
| `Integrity.IdOverrideThenCreateDuplicatesId` | server/routes/tickets.js:161-164 | creating two tickets, moving ticket 2's id to 0 by update, and creating again yields a second ticket with id 1 |
| `Integrity.CreateKeepsRefsResolving` | server/routes/tickets.js:163-170 | create keeps references resolving when the body's status and category resolve |
| `Integrity.UpdateKeepsRefsResolving` | server/routes/tickets.js:211-216 | update keeps references resolving when the body's status and category resolve |
| `Integrity.DeleteKeepsRefsResolving` | server/routes/tickets.js:247 | deleting a ticket keeps references resolving |

## Left out

- HTTP routing, status codes and JSON responses. A 404 is the `Err(NotFound)` result; a handler's
  reply is its return value.
- The file reads and writes through lowdb (`init()`, `db.write()`). The document is the model's
  state; a write that fails is not modelled.
- The bootstrap default document (`{tickets: []}`) has no `statuses` or `categories`. On such a
  document the lookup GET handlers answer with an undefined body, while POST (`push`), PUT and
  DELETE (`find`) throw. The model always has all three collections.
- `nanoid()`: the generated key is a parameter, and the create methods require it to be fresh.
- `new Date()` and ISO date strings: timestamps are integers supplied by the caller. Invalid dates,
  which make the sort comparator return NaN, are not modelled.
- Ids are integers. The loose `==` between the path string and the id is equality on integers,
  and a body `id` of another JSON type is not modelled.
- Body properties other than the ticket fields are dropped. The spread would copy them into the
  ticket. A body setting `comments` to null, which `comments?.sort` tolerates, is not modelled.
- Tickets and entries are values in sequences. The JS objects that `forEach` and `find` mutate in
  place are not modelled, and neither is their aliasing.
- GET sorts `db.data` in place without writing it, and the next request re-reads the file. List
  and get-one are therefore pure functions.
- Concurrent requests interleaving at `await` points are not modelled; each handler runs as one
  step.
- Persisting and reloading a document is file I/O and is not modelled.
- The client stores, services and router only forward HTTP calls and are not part of this model.
