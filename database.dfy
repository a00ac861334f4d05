/** The module-level database handle: empty until `initializeDatabase` opens
    the store, after which every call to either function yields that same
    store. Opening the file is outside the model: the freshly opened store is
    a parameter of the first initialisation. */
module Database {
  import opened JsValues
  import opened ProjectStore

  class Connection {
    /** `let db: any = null` */
    var db: Store?

    constructor ()
      ensures db == null
    {
      db := null;
    }

    /** `initializeDatabase`: opens the store only when no handle is set;
        afterwards returns the handle already set and changes nothing. */
    method InitializeDatabase(store: Store) returns (handle: Store)
      modifies this
      ensures old(db) != null ==> handle == old(db) && db == old(db)
      ensures old(db) == null ==> handle == store && db == store
    {
      if db != null {
        return db;
      }
      db := store;
      handle := db;
    }

    /** `getDatabase`: the handle, or the "not initialized" error (None)
        before any initialisation. */
    method GetDatabase() returns (r: Option<Store>)
      ensures r.None? <==> db == null
      ensures r.Some? ==> r.value == db
    {
      if db == null {
        return None;
      }
      return Some(db);
    }
  }

  /** Whatever is opened later, the handle of the first initialisation is the
      one every later call returns. */
  method InitialiseTwice(c: Connection, first: Store, second: Store)
    returns (h1: Store, h2: Store, got: Option<Store>)
    requires c.db == null
    modifies c
    ensures h1 == first && h2 == first && got == Some(first) && c.db == first
  {
    h1 := c.InitializeDatabase(first);
    h2 := c.InitializeDatabase(second);
    got := c.GetDatabase();
  }

  /** Before initialisation, `getDatabase` fails. */
  method GetBeforeInitialise() returns (got: Option<Store>)
    ensures got == None
  {
    var c := new Connection();
    got := c.GetDatabase();
  }
}
