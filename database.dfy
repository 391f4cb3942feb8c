/**
 * The database: an in-memory map from keys to values, an auto-save flag and
 * a storage engine. Writes change the map in place; `insert` and
 * `batch_insert` also hand the whole map to the storage engine when
 * auto-save is on, the other writes never do. Reads and queries scan the
 * map and never touch the file.
 */
module Databases {
  import opened Wrappers
  import opened Values
  import opened Conditions
  import opened Storage
  import Text

  /** The message `update` and `delete` return for an absent key; the key can be read back from it. */
  function KeyNotFound(key: string): (r: string)
    ensures |r| == |key| + 16
    ensures Text.StartsWith(r, "Key '") && r[5..|r| - 11] == key && r[|r| - 11..] == "' not found"
  {
    "Key '" + key + "' not found"
  }

  /** The keys named by a batch of entries. */
  ghost function EntryKeys(entries: seq<(string, Value)>): set<string>
  {
    set i | 0 <= i < |entries| :: entries[i].0
  }

  /**
   * The map after inserting `entries` one after another, left to right.
   * Every listed key is present afterwards; an unlisted key keeps its value.
   */
  function InsertAll(m: map<string, Value>, entries: seq<(string, Value)>): (r: map<string, Value>)
    ensures r.Keys == m.Keys + EntryKeys(entries)
    ensures forall k :: k in m && k !in EntryKeys(entries) ==> r[k] == m[k]
  {
    if entries == [] then m
    else
      var last := entries[|entries| - 1];
      var front := entries[..|entries| - 1];
      assert EntryKeys(entries) == EntryKeys(front) + {last.0} by {
        forall k | k in EntryKeys(entries) ensures k in EntryKeys(front) + {last.0} {
          var i :| 0 <= i < |entries| && entries[i].0 == k;
          if i < |entries| - 1 {
            assert front[i] == entries[i];
          }
        }
        forall k | k in EntryKeys(front) ensures k in EntryKeys(entries) {
          var i :| 0 <= i < |front| && front[i].0 == k;
          assert entries[i] == front[i];
        }
      }
      InsertAll(m, front)[last.0 := last.1]
  }

  /** In a batch, the last entry for a key wins. */
  lemma {:induction false} LastEntryWins(m: map<string, Value>, entries: seq<(string, Value)>, i: int)
    requires 0 <= i < |entries|
    requires forall j :: i < j < |entries| ==> entries[j].0 != entries[i].0
    ensures entries[i].0 in InsertAll(m, entries)
    ensures InsertAll(m, entries)[entries[i].0] == entries[i].1
  {
    if i < |entries| - 1 {
      var front := entries[..|entries| - 1];
      assert front[i] == entries[i];
      LastEntryWins(m, front, i);
    }
  }

  /** The keys listed in `keys`, repeats collapsed. */
  ghost function Listed(keys: seq<string>): (r: set<string>)
    ensures forall k :: k in r <==> k in keys
  {
    if keys == [] then {} else Listed(keys[..|keys| - 1]) + {keys[|keys| - 1]}
  }

  /**
   * `batch_delete` as a function: the map after removing `keys` one after
   * another, and how many of those removals found the key.
   */
  function DeleteAll(m: map<string, Value>, keys: seq<string>): (r: (map<string, Value>, nat))
    ensures r.0.Keys <= m.Keys
    ensures forall k :: k in r.0 ==> r.0[k] == m[k]
    ensures r.1 + |r.0| == |m|
  {
    if keys == [] then (m, 0)
    else
      var (rest, n) := DeleteAll(m, keys[..|keys| - 1]);
      var key := keys[|keys| - 1];
      if key in rest then
        assert (rest - {key}).Keys == rest.Keys - {key};
        (rest - {key}, n + 1)
      else (rest, n)
  }

  lemma MinusStep(m: map<string, Value>, done: set<string>, key: string)
    ensures (m - done) - {key} == m - (done + {key})
    ensures key !in m - done ==> m - done == m - (done + {key})
  {
  }

  lemma CountStep(present: set<string>, done: set<string>, key: string)
    ensures key in present - done ==> |present * (done + {key})| == |present * done| + 1
    ensures key !in present - done ==> present * (done + {key}) == present * done
  {
    if key in present - done {
      assert present * (done + {key}) == present * done + {key};
    }
  }

  /**
   * Deleting a batch removes exactly the listed keys, and the count is the
   * number of distinct listed keys that were present: a repeated key counts once.
   */
  lemma {:induction false} DeleteAllRemovesListed(m: map<string, Value>, keys: seq<string>)
    ensures DeleteAll(m, keys).0 == m - Listed(keys)
    ensures DeleteAll(m, keys).1 == |m.Keys * Listed(keys)|
  {
    if keys != [] {
      var front, key := keys[..|keys| - 1], keys[|keys| - 1];
      DeleteAllRemovesListed(m, front);
      MinusStep(m, Listed(front), key);
      CountStep(m.Keys, Listed(front), key);
    }
  }

  /**
   * `conditions.iter().all(...)`: tries the conditions left to right and
   * stops at the first that fails, so it holds exactly when every condition
   * in `cs` matches `v`.
   */
  function AllMatch(cs: seq<Condition>, v: Value): (r: bool)
    ensures r <==> forall c :: c in cs ==> Matches(c, v)
  {
    if cs == [] then true
    else if !Matches(cs[0], v) then false
    else
      assert forall c :: c in cs ==> c == cs[0] || c in cs[1..];
      AllMatch(cs[1..], v)
  }

  class Database {
    var store: map<string, Value>
    var autoSave: bool
    const storage: StorageEngine

    /** `Database::new`: an empty map, auto-save on, and an engine for `filePath`; the file is not read. */
    constructor (filePath: string, onDisk: FileState)
      ensures store == map[] && autoSave
      ensures fresh(storage) && storage.path == filePath && storage.file == onDisk && storage.handed == [] && storage.results == []
    {
      store := map[];
      autoSave := true;
      storage := new StorageEngine(filePath, onDisk);
    }

    /** `load`: replaces the map with the file's snapshot; on an error the map is left as it was. */
    method Load() returns (r: Result<(), IoError>)
      modifies this`store
      ensures storage.file == Missing ==> r.Ok? && store == map[]
      ensures storage.file.Snapshot? && r.Ok? ==> store == storage.file.data
      ensures storage.file == Damaged ==> r.Err?
      ensures r.Err? ==> store == old(store)
      ensures r.Err? ==> r.error in {OpenFailed, ReadFailed, DecodeFailed}
    {
      var loaded := storage.Load();
      match loaded
      case Ok(m) =>
        store := m;
        r := Ok(());
      case Err(e) =>
        r := Err(e);
    }

    /** `save`: hands the whole map to the storage engine and returns its outcome unchanged. */
    method Save() returns (r: Result<(), IoError>)
      modifies storage
      ensures storage.handed == old(storage.handed) + [store]
      ensures storage.results == old(storage.results) + [r]
      ensures SaveEffect(old(storage.file), store, r, storage.file)
    {
      r := storage.Save(store);
    }

    /** `set_auto_save` */
    method SetAutoSave(enabled: bool)
      modifies this`autoSave
      ensures autoSave == enabled
    {
      autoSave := enabled;
    }

    /**
     * `insert`: insert-or-overwrite, then one save of the new map when
     * auto-save is on. A failed save is returned, but the in-memory update
     * stays.
     */
    method Insert(key: string, value: Value) returns (r: Result<(), IoError>)
      modifies this`store, storage
      ensures store == old(store)[key := value]
      ensures storage.handed == old(storage.handed) + (if autoSave then [store] else [])
      ensures !autoSave ==> r == Ok(()) && storage.file == old(storage.file) && storage.results == old(storage.results)
      ensures autoSave ==> storage.results == old(storage.results) + [r] && SaveEffect(old(storage.file), store, r, storage.file)
    {
      store := store[key := value];
      if autoSave {
        r := Save();
      } else {
        r := Ok(());
      }
    }

    /**
     * `batch_insert`: inserts every entry in order, then saves once, at the
     * end, when auto-save is on. It reports how many entries it was given,
     * duplicates included.
     */
    method BatchInsert(entries: seq<(string, Value)>) returns (r: Result<nat, IoError>)
      modifies this`store, storage
      ensures store == InsertAll(old(store), entries)
      ensures storage.handed == old(storage.handed) + (if autoSave then [store] else [])
      ensures !autoSave ==> r == Ok(|entries|) && storage.file == old(storage.file) && storage.results == old(storage.results)
      ensures r.Ok? ==> r.value == |entries|
      ensures autoSave ==> storage.results == old(storage.results) + [if r.Ok? then Ok(()) else Err(r.error)]
      ensures autoSave ==> SaveEffect(old(storage.file), store, storage.results[|storage.results| - 1], storage.file)
    {
      var count := |entries|;
      var i := 0;
      while i < |entries|
        invariant 0 <= i <= |entries|
        invariant store == InsertAll(old(store), entries[..i])
        invariant unchanged(storage)
      {
        assert entries[..i + 1][..i] == entries[..i];
        store := store[entries[i].0 := entries[i].1];
        i := i + 1;
      }
      assert entries[..i] == entries;
      if autoSave {
        var saved := Save();
        if saved.Err? {
          return Err(saved.error);
        }
        match saved.value { case () => }  // a successful save carries the unit value
      }
      r := Ok(count);
    }

    /** `get`: the stored value, if the key is present. */
    function Get(key: string): (r: Option<Value>)
      reads this
      ensures r.Some? <==> key in store
      ensures r.Some? ==> r.value == store[key]
    {
      if key in store then Some(store[key]) else None
    }

    /** `batch_get`: the requested keys that are present, with their values; absent keys are left out. */
    method BatchGet(keys: seq<string>) returns (res: map<string, Value>)
      ensures forall k :: k in res <==> k in keys && k in store
      ensures forall k :: k in res ==> res[k] == store[k]
    {
      res := map[];
      var i := 0;
      while i < |keys|
        invariant 0 <= i <= |keys|
        invariant forall k :: k in res <==> k in keys[..i] && k in store
        invariant forall k :: k in res ==> res[k] == store[k]
      {
        var key := keys[i];
        assert keys[..i + 1] == keys[..i] + [key];
        var found := Get(key);
        if found.Some? {
          res := res[key := found.value];
        }
        i := i + 1;
      }
      assert keys[..i] == keys;
    }

    /** `update`: overwrites an existing key only; an absent key is an error and nothing changes. */
    method Update(key: string, value: Value) returns (r: Result<(), string>)
      modifies this`store
      ensures key in old(store) ==> r == Ok(()) && store == old(store)[key := value]
      ensures key !in old(store) ==> r == Err(KeyNotFound(key)) && store == old(store)
      ensures store.Keys == old(store).Keys
      ensures unchanged(storage)
    {
      if key in store {
        store := store[key := value];
        r := Ok(());
      } else {
        r := Err(KeyNotFound(key));
      }
    }

    /** `delete`: removes an existing key only; an absent key is an error and nothing changes. */
    method Delete(key: string) returns (r: Result<(), string>)
      modifies this`store
      ensures key in old(store) ==> r == Ok(()) && store == old(store) - {key}
      ensures key !in old(store) ==> r == Err(KeyNotFound(key)) && store == old(store)
      ensures |store| == if key in old(store) then |old(store)| - 1 else |old(store)|
      ensures unchanged(storage)
    {
      if key in store {
        store := store - {key};
        r := Ok(());
      } else {
        r := Err(KeyNotFound(key));
      }
    }

    /** `batch_delete`: removes every listed key and counts the keys that were present, each once. */
    method BatchDelete(keys: seq<string>) returns (deleted: nat)
      modifies this`store
      ensures (store, deleted) == DeleteAll(old(store), keys)
      ensures store == old(store) - Listed(keys)
      ensures deleted == |old(store).Keys * Listed(keys)|
      ensures unchanged(storage)
    {
      ghost var orig := store;
      deleted := 0;
      var i := 0;
      while i < |keys|
        invariant 0 <= i <= |keys|
        invariant (store, deleted) == DeleteAll(orig, keys[..i])
      {
        assert keys[..i + 1][..i] == keys[..i];
        var key := keys[i];
        if key in store {
          store := store - {key};
          deleted := deleted + 1;
        }
        i := i + 1;
      }
      assert keys[..i] == keys;
      DeleteAllRemovesListed(orig, keys);
    }

    /** `list_keys`: every stored key; the order of the source's vector is the map's iteration order. */
    function ListKeys(): (r: set<string>)
      reads this
      ensures forall k :: k in r <==> Get(k).Some?
    {
      store.Keys
    }

    /** `count`: the number of entries, which is the number of listed keys. */
    function Count(): (n: nat)
      reads this
      ensures n == |ListKeys()|
    {
      |store|
    }

    /** `clear`: empties the map; it does not save. */
    method Clear()
      modifies this`store
      ensures store == map[]
      ensures Count() == 0
      ensures unchanged(storage)
    {
      store := map[];
    }

    /** `exists` */
    function Exists(key: string): (r: bool)
      reads this
      ensures r <==> Get(key).Some?
    {
      key in store
    }

    /** `get_all_integers`: exactly the entries whose value is an Integer, with its payload. */
    function GetAllIntegers(): (r: map<string, I64>)
      reads this
      ensures forall k :: k in r <==> k in store && AsInteger(store[k]).Some?
      ensures forall k :: k in r ==> store[k] == Integer(r[k])
    {
      map k | k in store && store[k].Integer? :: store[k].num
    }

    /** `query`: exactly the entries whose value matches `c`. */
    function Query(c: Condition): (r: map<string, Value>)
      reads this
      ensures forall k :: k in r <==> k in store && Matches(c, store[k])
      ensures forall k :: k in r ==> r[k] == store[k]
    {
      map k | k in store && Matches(c, store[k]) :: store[k]
    }

    /** `query_multiple`: exactly the entries whose value matches every condition in `cs`. */
    function QueryMultiple(cs: seq<Condition>): (r: map<string, Value>)
      reads this
      ensures forall k :: k in r <==> k in store && forall c :: c in cs ==> Matches(c, store[k])
      ensures forall k :: k in r ==> r[k] == store[k]
    {
      map k | k in store && AllMatch(cs, store[k]) :: store[k]
    }

    /** `keys_with_prefix`: exactly the stored keys that start with `prefix`. */
    function KeysWithPrefix(prefix: string): (r: set<string>)
      reads this
      ensures forall k :: k in r <==> k in store && Text.StartsWith(k, prefix)
    {
      set k | k in store && Text.StartsWith(k, prefix)
    }
  }

  /** With no conditions, `query_multiple` returns the whole map. */
  lemma QueryMultipleNoConditions(db: Database)
    ensures db.QueryMultiple([]) == db.store
  {
  }

  /** With one condition, `query_multiple` is `query`. */
  lemma QueryMultipleSingle(db: Database, c: Condition)
    ensures db.QueryMultiple([c]) == db.Query(c)
  {
  }

  /** Conditions combine by AND: the result for `cs + ds` is what both `cs` and `ds` select. */
  lemma QueryMultipleConcat(db: Database, cs: seq<Condition>, ds: seq<Condition>)
    ensures db.QueryMultiple(cs + ds).Keys == db.QueryMultiple(cs).Keys * db.QueryMultiple(ds).Keys
  {
    forall k | k in db.store
      ensures AllMatch(cs + ds, db.store[k]) <==> AllMatch(cs, db.store[k]) && AllMatch(ds, db.store[k])
    {
      assert forall c :: c in cs + ds <==> c in cs || c in ds;
    }
  }

  /** A user record as the demonstration driver builds it. */
  function User(name: string, age: I64, email: string, active: bool): Value
  {
    Object(map["name" := String(name), "age" := Integer(age), "email" := String(email), "active" := Boolean(active)])
  }

  const Alice: Value := User("Alice", 30, "alice@example.com", true)
  const Bob: Value := User("Bob", 25, "bob@example.com", false)
  const Charlie: Value := User("Charlie", 35, "charlie@example.com", true)

  /** How the three seeded users fare against the driver's conditions. */
  lemma SeededUsersMatch()
    ensures Matches(GreaterThan("age", 28), Alice) && !Matches(GreaterThan("age", 28), Bob) && Matches(GreaterThan("age", 28), Charlie)
    ensures Matches(Equals("active", Boolean(true)), Alice) && !Matches(Equals("active", Boolean(true)), Bob)
    ensures Matches(Equals("active", Boolean(true)), Charlie)
    ensures Matches(Between("age", 25, 32), Alice) && Matches(Between("age", 25, 32), Bob) && !Matches(Between("age", 25, 32), Charlie)
  {
    assert Alice.fields["age"] == Integer(30) && Alice.fields["active"] == Boolean(true);
    assert Bob.fields["age"] == Integer(25) && Bob.fields["active"] == Boolean(false);
    assert Charlie.fields["age"] == Integer(35) && Charlie.fields["active"] == Boolean(true);
  }

  /** The map after the driver's three inserts. */
  const SeededStore: map<string, Value> := map["user:1" := Alice, "user:2" := Bob, "user:3" := Charlie]

  /** Over the seeded map, a query selects exactly the users the condition matches. */
  lemma SeededSelection(db: Database, c: Condition)
    requires db.store == SeededStore
    ensures "user:1" in db.Query(c) <==> Matches(c, Alice)
    ensures "user:2" in db.Query(c) <==> Matches(c, Bob)
    ensures "user:3" in db.Query(c) <==> Matches(c, Charlie)
    ensures db.Query(c).Keys <= {"user:1", "user:2", "user:3"}
  {
    assert SeededStore.Keys == {"user:1", "user:2", "user:3"};
    assert SeededStore["user:1"] == Alice && SeededStore["user:2"] == Bob && SeededStore["user:3"] == Charlie;
  }

  /** On the seeded users, age > 28 selects users 1 and 3. */
  lemma SeededOlderThan28(db: Database)
    requires db.store == SeededStore
    ensures db.Query(GreaterThan("age", 28)).Keys == {"user:1", "user:3"}
  {
    SeededUsersMatch();
    SeededSelection(db, GreaterThan("age", 28));
  }

  /** On the seeded users, age in 25..=32 selects users 1 and 2. */
  lemma SeededAgeBand(db: Database)
    requires db.store == SeededStore
    ensures db.Query(Between("age", 25, 32)).Keys == {"user:1", "user:2"}
  {
    SeededUsersMatch();
    SeededSelection(db, Between("age", 25, 32));
  }

  /** On the seeded users, active == true selects users 1 and 3. */
  lemma SeededActive(db: Database)
    requires db.store == SeededStore
    ensures db.Query(Equals("active", Boolean(true))).Keys == {"user:1", "user:3"}
  {
    SeededUsersMatch();
    SeededSelection(db, Equals("active", Boolean(true)));
  }

  /** On the seeded users, active and older than 28 together select users 1 and 3. */
  lemma SeededActiveAndOlder(db: Database)
    requires db.store == SeededStore
    ensures db.QueryMultiple([Equals("active", Boolean(true)), GreaterThan("age", 28)]).Keys == {"user:1", "user:3"}
  {
    var active, older := Equals("active", Boolean(true)), GreaterThan("age", 28);
    assert [active] + [older] == [active, older];
    QueryMultipleConcat(db, [active], [older]);
    QueryMultipleSingle(db, active);
    QueryMultipleSingle(db, older);
    SeededActive(db);
    SeededOlderThan28(db);
  }

  /** On the seeded users, the prefix `user:` lists all three keys and `product:` none. */
  lemma SeededPrefixes(db: Database)
    requires db.store == SeededStore
    ensures db.KeysWithPrefix("user:") == {"user:1", "user:2", "user:3"}
    ensures db.KeysWithPrefix("product:") == {}
  {
    assert Text.StartsWith("user:1", "user:") && Text.StartsWith("user:2", "user:") && Text.StartsWith("user:3", "user:");
  }

  /**
   * The driver's seeding step: three users inserted, with auto-save on, into
   * a fresh database with no file yet; each insert saves the whole map. The
   * driver unwraps each insert's result and stops on a failed save; the model
   * keeps going, so its guarantees describe the run in which all three saves
   * succeed, and the file is the seeded snapshot whenever the last one does.
   */
  method Seed() returns (db: Database)
    ensures fresh(db) && db.store == SeededStore && db.autoSave
    ensures |db.storage.handed| == 3 && db.storage.handed[2] == SeededStore
    ensures |db.storage.results| == 3
    ensures db.storage.results[2].Ok? ==> db.storage.file == Snapshot(SeededStore)
  {
    db := new Database("mydata.db", Missing);
    var _ := db.Insert("user:1", Alice);
    var _ := db.Insert("user:2", Bob);
    var _ := db.Insert("user:3", Charlie);
  }

  /** The driver's queries on the seeded database. */
  method SeededQueries() returns (older: set<string>, active: set<string>, band: set<string>,
                                  both: set<string>, users: set<string>, products: set<string>)
    ensures older == {"user:1", "user:3"}
    ensures active == {"user:1", "user:3"}
    ensures band == {"user:1", "user:2"}
    ensures both == {"user:1", "user:3"}
    ensures users == {"user:1", "user:2", "user:3"}
    ensures products == {}
  {
    var db := Seed();
    SeededOlderThan28(db);
    SeededAgeBand(db);
    SeededActive(db);
    SeededActiveAndOlder(db);
    SeededPrefixes(db);
    older := db.Query(GreaterThan("age", 28)).Keys;
    active := db.Query(Equals("active", Boolean(true))).Keys;
    band := db.Query(Between("age", 25, 32)).Keys;
    both := db.QueryMultiple([Equals("active", Boolean(true)), GreaterThan("age", 28)]).Keys;
    users := db.KeysWithPrefix("user:");
    products := db.KeysWithPrefix("product:");
  }
}
