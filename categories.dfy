/** The category routes: list, create, update (label change plus reference rewrite) and delete
    (null-out cascade plus filter). */
module CategoryRoutes {
  import opened Model
  import opened Lookups
  import opened Store

  /** GET /: the categories exactly as stored. */
  method List(db: Document) returns (r: seq<Entry>)
    ensures r == db.categories
  {
    r := db.categories;
  }

  /** POST /: appends `{key, label}`; `key` stands for the generated token, fresh by assumption. */
  method Create(db: Document, key: Key, name: Option<string>) returns (e: Entry)
    requires forall c :: c in db.categories ==> c.key != key
    modifies db
    ensures var spec := CreateEntry(old(db.State()), CategoryAxis, key, name);
      e == spec.answer && db.State() == spec.doc
  {
    e := Entry(key, name);
    db.categories := db.categories + [e];
  }

  /** PUT /:key: unknown key changes nothing; otherwise every ticket's `category` equal to the
      key becomes the body's key, and the found category gets the body's label. */
  method Update(db: Document, key: Key, body: EntryBody) returns (r: Result<Entry>)
    modifies db
    ensures var spec := UpdateEntry(old(db.State()), CategoryAxis, key, body);
      if spec.Err? then r == Err(NotFound) && db.State() == old(db.State())
      else r == Ok(spec.value.answer) && db.State() == spec.value.doc
  {
    var i := Find(db.categories, EntryKey, key);
    if i.None? {
      return Err(NotFound);
    }
    var category := db.categories[i.value];
    db.Retarget(CategoryAxis, category.key, body.key);
    category := category.(name := body.name);
    db.categories := db.categories[i.value := category];
    r := Ok(category);
  }

  /** DELETE /:key: unknown key changes nothing; otherwise every ticket's `category` equal to
      the key becomes `null` and every category with the key is filtered out. */
  method Delete(db: Document, key: Key) returns (r: Result<()>)
    modifies db
    ensures var spec := DeleteEntry(old(db.State()), CategoryAxis, key);
      if spec.Err? then r == Err(NotFound) && db.State() == old(db.State())
      else r == Ok(()) && db.State() == spec.value
  {
    var i := Find(db.categories, EntryKey, key);
    if i.None? {
      return Err(NotFound);
    }
    var category := db.categories[i.value];
    db.Retarget(CategoryAxis, category.key, None);
    db.categories := WithoutKey(db.categories, key);
    r := Ok(());
  }
}
