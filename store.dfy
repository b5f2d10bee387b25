/** The shared state `AppState` and its three handlers `kv_get`, `kv_set` and
    `list_keys`.  Each handler is one atomic step on the map: the lock that
    serialises them is not modelled. */
module Store {
  import opened Http
  import opened Listing

  /** What `kv_get` answers for `key` on the map `db`. */
  function Lookup(db: map<string, string>, key: string): (r: Result<string, StatusCode>)
    ensures r.Ok? <==> key in db
    ensures r.Ok? ==> r.value == db[key]
    ensures r.Err? ==> r.error == NOT_FOUND
  {
    if key in db then Ok(db[key]) else Err(NOT_FOUND)
  }

  /** `AppState`: the single map shared by every handler. */
  class AppState {
    var db: map<string, string>

    /** `AppState::default()`: the store starts empty. */
    constructor ()
      ensures db == map[]
    {
      db := map[];
    }

    /** `kv_get`: read-only lookup. */
    method Get(key: string) returns (r: Result<string, StatusCode>)
      ensures r == Lookup(db, key)
    {
      if key in db {
        r := Ok(db[key]);
      } else {
        r := Err(NOT_FOUND);
      }
    }

    /** `kv_set`: `HashMap::insert`, which adds the key or overwrites it. */
    method Set(key: string, value: string)
      modifies this
      ensures db == old(db)[key := value]
      ensures db.Keys == old(db).Keys + {key}
      ensures Lookup(db, key) == Ok(value)
      ensures forall k | k != key :: Lookup(db, k) == Lookup(old(db), k)
    {
      db := db[key := value];
    }

    /** `list_keys`: walks the entries in some order, appending the key and
        then the value at the end of the string each time.  `order` is the
        order the walk took. */
    method List() returns (s: string, ghost order: seq<string>)
      ensures IsEnumeration(order, db.Keys)
      ensures s == Render(db, order)
      ensures |s| == ListingSize(db)
      ensures db == map[] ==> s == ""
    {
      s := "";
      order := [];
      var unvisited := db.Keys;
      while unvisited != {}
        invariant unvisited <= db.Keys
        invariant NoDuplicates(order)
        invariant forall k :: k in order <==> k in db && k !in unvisited
        invariant s == Render(db, order)
        decreases |unvisited|
      {
        var key :| key in unvisited;
        InsertStrAtEnd(s, key);
        s := InsertStr(s, |s|, key);
        InsertStrAtEnd(s, db[key]);
        s := InsertStr(s, |s|, db[key]);
        RenderAppend(db, order, [key]);
        order := order + [key];
        unvisited := unvisited - {key};
      }
      EnumerationLength(db, order);
    }
  }

  /** Two writes to one key: the second one is what remains. */
  lemma LastWriteWins(db: map<string, string>, k: string, v1: string, v2: string)
    ensures db[k := v1][k := v2] == db[k := v2]
    ensures Lookup(db[k := v1][k := v2], k) == Ok(v2)
  {
  }

  /** `kv_set(k, v)` grows the store by one entry exactly when `k` was new,
      and otherwise overwrites in place. */
  lemma SetSize(db: map<string, string>, k: string, v: string)
    ensures |db[k := v]| == if k in db then |db| else |db| + 1
  {
  }

  /** The listing of any enumeration contains each entry as key then value. */
  lemma ListingContainsEntries(db: map<string, string>, order: seq<string>)
    requires IsEnumeration(order, db.Keys)
    ensures forall k | k in db :: Occurs(k + db[k], Render(db, order))
  {
    forall k | k in db ensures Occurs(k + db[k], Render(db, order)) {
      EntryOccurs(db, order, k);
    }
  }
}
