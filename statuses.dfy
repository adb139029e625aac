/** The status routes: list, create, update (label change plus reference rewrite) and delete
    (null-out cascade plus filter). */
module StatusRoutes {
  import opened Model
  import opened Lookups
  import opened Store

  /** GET /: the statuses exactly as stored. */
  method List(db: Document) returns (r: seq<Entry>)
    ensures r == db.statuses
  {
    r := db.statuses;
  }

  /** POST /: appends `{key, label}`; `key` stands for the generated token, fresh by assumption. */
  method Create(db: Document, key: Key, name: Option<string>) returns (e: Entry)
    requires forall s :: s in db.statuses ==> s.key != key
    modifies db
    ensures var spec := CreateEntry(old(db.State()), StatusAxis, key, name);
      e == spec.answer && db.State() == spec.doc
  {
    e := Entry(key, name);
    db.statuses := db.statuses + [e];
  }

  /** PUT /:key: unknown key changes nothing; otherwise every ticket's `status` equal to the
      key becomes the body's key, and the found status gets the body's label. */
  method Update(db: Document, key: Key, body: EntryBody) returns (r: Result<Entry>)
    modifies db
    ensures var spec := UpdateEntry(old(db.State()), StatusAxis, key, body);
      if spec.Err? then r == Err(NotFound) && db.State() == old(db.State())
      else r == Ok(spec.value.answer) && db.State() == spec.value.doc
  {
    var i := Find(db.statuses, EntryKey, key);
    if i.None? {
      return Err(NotFound);
    }
    var status := db.statuses[i.value];
    db.Retarget(StatusAxis, status.key, body.key);
    status := status.(name := body.name);
    db.statuses := db.statuses[i.value := status];
    r := Ok(status);
  }

  /** DELETE /:key: unknown key changes nothing; otherwise every ticket's `status` equal to
      the key becomes `null` and every status with the key is filtered out. */
  method Delete(db: Document, key: Key) returns (r: Result<()>)
    modifies db
    ensures var spec := DeleteEntry(old(db.State()), StatusAxis, key);
      if spec.Err? then r == Err(NotFound) && db.State() == old(db.State())
      else r == Ok(()) && db.State() == spec.value
  {
    var i := Find(db.statuses, EntryKey, key);
    if i.None? {
      return Err(NotFound);
    }
    var status := db.statuses[i.value];
    db.Retarget(StatusAxis, status.key, None);
    db.statuses := WithoutKey(db.statuses, key);
    r := Ok(());
  }
}
