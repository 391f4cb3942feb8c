# littledb core in Dafny

A model of the in-memory engine of littledb, a small embedded key→value store
written in Rust. It has three parts:

- **Value** (`value.dfy`, module `Values`): the recursive tagged union of
  String, Integer (`i64`), Float, Boolean, Array, Object and Null, with its
  total accessors `as_integer`, `as_string`, `get_field`, `type_name` and the
  display renderer `to_string`. Object fields are a `map<string, Value>`, so
  equality is structural and ignores insertion order, like the derived
  `PartialEq`.
- **Condition** (`condition.dfy`, module `Conditions`): the five query
  predicates and `matches`. Every failure mode (missing field, wrong variant,
  a record that is not an Object) is `false`. The contract of `Matches` gives
  each variant's meaning as an if-and-only-if over the record's fields.
- **Database** (`database.dfy`, module `Databases`): a class holding the
  `store` map, the `autoSave` flag and a storage engine. Writes update the map
  in place. `Insert` and `BatchInsert` hand the whole map to the engine when
  auto-save is on, and `BatchInsert` does so once, at the end. A failed save
  keeps the in-memory change. `Update`, `Delete`, `BatchDelete` and `Clear`
  never touch the engine. Reads and queries change nothing; all but `BatchGet`, which loops over the requested keys, are functions over `store`.

Two support modules: `Wrappers` (Option and Result) and `Text` (the parts of
Rust's string library the core calls: `starts_with`, `contains`, `join`, and
the decimal text of an `i64`). `Text.Contains` is proved equal to "occurs at
some index". The decimal rendering is proved to read back as the same number.

Persistence (`storage.dfy`, module `Storage`) is modelled abstractly.
`StorageEngine` keeps the state of its one file: missing, a snapshot, or
damaged. It also keeps a ghost log `handed` of every map passed to `Save`. The
auto-save policy is stated through that log. Each step of `save`
(encode, create, write, sync) and of `load` (open, read, decode) may fail. The
outcome is chosen nondeterministically in the model, because the
operating system is not modelled. A second ghost log `results` records the outcome of every save, so the
database's own results can be tied to it. A successful save leaves the file
holding that map. A write failure after the file was truncated leaves it
damaged. A failed sync comes after the whole encoding was written, so the file
may hold either the new map or a damaged copy. Loading a missing file yields
the empty map.

Query results are returned as maps (key to value) or sets of keys. The source
returns vectors in `HashMap` iteration order, and that order is unspecified.
A map also says that each key appears at most once.

The demonstration driver's scenario is `Databases.SeededQueries`. It inserts
three users into a fresh database and proves what the driver's queries return.

## Model

| member | source | states |
|---|---|---|
| `Values.AsInteger` | src/value.rs:45-50 | Some(n) exactly when the value is Integer(n); every other variant, Float and String included, gives None |
| `Values.AsString` | src/value.rs:53-58 | Some(s) exactly when the value is String(s); None otherwise |
| `Values.GetField` | src/value.rs:60-65 | None for every non-Object value and every name; for an Object, exactly the map lookup (present gives that child, absent gives None) |
| `Values.TypeName` | src/value.rs:68-78 | total, and always one of the seven variant names |
| `Values.TypeNameIdentifiesVariant` | src/value.rs:68-78 | two values get the same name iff they have the same tag; values with different tags are unequal |
| `Values.ArrayEquality` | src/value.rs:9-19 | two Arrays are equal iff they have the same length and are equal position by position |
| `Values.ObjectEquality` | src/value.rs:9-19 | two Objects are equal iff they have the same field names with equal children under each |
| `Values.FieldOrderIrrelevant` | src/value.rs:17 | inserting two distinct fields in either order gives equal Objects |
| `Values.Visit` | src/value.rs:33-37 | the object's keys in iteration order: each key once, only keys of the map, every key the order lists; when the order lists every key of the map, exactly the map's keys |
| `Values.ToString` | src/value.rs:23-43 | for an iteration order that reaches every key: an Integer's text reads back as its number, an Array renders between "[" and "]", an Object between "{" and "}" |
| `Values.FieldItems` | src/value.rs:34-36 | one item per listed key, in the listed order, each starting with the key and ": " |
| `Values.ObjectRendering` | src/value.rs:33-39 | for an iteration order that reaches every key, an object renders as "{", the "key: rendering" items of some listing of its keys that has every key exactly once, joined by ", ", then "}" |
| `Values.SingletonObjectRendering` | src/value.rs:33-39 | a one-field object renders as "{key: rendering}", whatever the iteration order |
| `Values.ScalarRendering` | src/value.rs:24-28 | a String renders verbatim; an Integer renders as decimal text that reads back as the same number; a Boolean renders as "true" or "false"; Null renders as "null" (line 41) |
| `Values.EmptyRendering` | src/value.rs:29-39 | the empty array renders as "[]" and the empty object as "{}" |
| `Values.SingletonArrayRendering` | src/value.rs:29-32 | a one-element array renders as the element's text in brackets |
| `Values.ArrayAppendRendering` | src/value.rs:29-32 | appending an element to a non-empty array inserts ", " and its rendering before the closing bracket, so the elements' texts are joined by ", " in order |
| `Text.Contains` | src/condition.rs:42 | true iff the pattern occurs in the text as a contiguous, case-sensitive run at some index |
| `Text.StartsWith` | src/database.rs:206 | true iff the text is the prefix followed by some rest |
| `Text.Join` | src/value.rs:31 | the empty list joins to ""; otherwise the text starts with the first part and its length is the parts' total length plus one separator fewer than there are parts |
| `Text.JoinAppend` | src/value.rs:31 | joining one more part appends the separator and that part |
| `Text.DigitsRoundTrip` | src/value.rs:26 | the digits of n are decimal digits, read back as n, with no leading zero |
| `Text.Decimal` | src/value.rs:26 | the decimal text of every integer reads back as that integer; it starts with "-" exactly for negatives, 0 is "0", and a non-zero number has no leading zero, which together fix the text of every integer |
| `Conditions.Matches` | src/condition.rs:14-57 | per variant, iff: Equals needs the field present and structurally equal to the expected value; GreaterThan and LessThan need an Integer field strictly above or below the threshold; Contains needs a String field containing the pattern; Between needs an Integer field with min ≤ n ≤ max; a non-Object matches nothing |
| `Conditions.GreaterAndLessExclusive` | src/condition.rs:23-38 | for the same field and threshold, GreaterThan and LessThan never both match |
| `Conditions.BetweenBoundaries` | src/condition.rs:48-55 | Between fails at lo−1 and hi+1, holds at lo and at hi when lo ≤ hi, and never matches when lo > hi |
| `Conditions.BetweenIsOpenRange` | src/condition.rs:23-55 | away from the i64 limits, Between(f, lo, hi) is GreaterThan(f, lo−1) and LessThan(f, hi+1) together |
| `Conditions.ContainsOnText` | src/condition.rs:39-46 | for every record: on a String field Contains is the substring test and the empty pattern always matches; a missing field, a field of another variant or a non-Object never matches |
| `Storage.StorageEngine.constructor` | src/storage.rs:17-21 | an engine for the path, over the file as it is, with nothing handed to it and no save outcome yet |
| `Storage.StorageEngine.Save` | src/storage.rs:25-39 | records the map handed to it and its own outcome; success leaves the file holding exactly that map; an encode or create failure leaves the file as it was; a write failure leaves it damaged; a sync failure leaves it holding the new map or damaged; no error other than these four |
| `Storage.StorageEngine.Load` | src/storage.rs:42-64 | a missing file yields the empty map; a successful load yields the snapshot in the file; a damaged file is an error |
| `Databases.KeyNotFound` | src/database.rs:111 | the message is "Key '" + key + "' not found", and the key can be read back from it (also line 120) |
| `Databases.AllMatch` | src/database.rs:197 | the left-to-right, short-circuiting check holds iff every condition in the list matches |
| `Databases.DeleteAll` | src/database.rs:124-134 | the remaining map is part of the original with unchanged values, and the deleted count plus the remaining size is the original size |
| `Databases.InsertAll` | src/database.rs:58-60 | applying entries left to right: the keys afterwards are the old keys plus the listed ones, and unlisted keys keep their values |
| `Databases.DeleteAllRemovesListed` | src/database.rs:124-134 | deleting a batch one key at a time removes exactly the listed keys and counts the distinct listed keys that were present |
| `Databases.LastEntryWins` | src/database.rs:58-60 | for a key listed more than once in a batch, the last entry's value is stored |
| `Databases.Database.constructor` | src/database.rs:17-23 | an empty map, auto-save on, and a fresh engine for the path that has not saved anything, with no save outcome yet |
| `Databases.Database.Load` | src/database.rs:26-29 | on success the map is replaced by the file's snapshot, or by the empty map when there is no file; on an error the map is unchanged and the error is one of the engine's load errors (open, read, decode) |
| `Databases.Database.Save` | src/database.rs:32-34 | hands the whole current map to the engine, once, and returns exactly the engine's outcome, with the file changed as that outcome says |
| `Databases.Database.SetAutoSave` | src/database.rs:37-40 | sets the flag |
| `Databases.Database.Insert` | src/database.rs:44-52 | the map becomes old[k := v] whatever the save does; exactly one save of that new map iff auto-save is on, none otherwise; with auto-save on the result is exactly that save's outcome and the file changes as it says; with auto-save off it always succeeds and the file is untouched |
| `Databases.Database.BatchInsert` | src/database.rs:55-66 | the map becomes the entries applied left to right; one save, after all entries, iff auto-save is on; with auto-save on it returns Ok exactly when that save succeeded and the save's own error otherwise; on success returns the number of entries given, duplicates included |
| `Databases.Database.Get` | src/database.rs:88-92 | Some of the stored value iff the key is present |
| `Databases.Database.BatchGet` | src/database.rs:94-102 | the result's keys are exactly the requested keys that are stored, each with its stored value; missing keys are omitted |
| `Databases.Database.Update` | src/database.rs:106-113 | an absent key gives Err("Key '…' not found") and changes nothing; a present key is overwritten; the key set never changes; never saves |
| `Databases.Database.Delete` | src/database.rs:116-122 | an absent key gives Err("Key '…' not found") and leaves the count unchanged; a present key alone is removed and the count drops by 1; never saves |
| `Databases.Database.BatchDelete` | src/database.rs:124-134 | removes the keys in order as the loop does; so the map loses exactly the listed keys and the result is the number of distinct listed keys that were present, a repeated key counting once; never saves |
| `Databases.Database.ListKeys` | src/database.rs:137-139 | exactly the keys for which `get` finds a value |
| `Databases.Database.Count` | src/database.rs:142-144 | the number of listed keys |
| `Databases.Database.Clear` | src/database.rs:147-151 | the map is empty and the count is 0; never saves |
| `Databases.Database.Exists` | src/database.rs:153-155 | true iff `get` finds a value |
| `Databases.Database.GetAllIntegers` | src/database.rs:158-183 | exactly the keys whose value `as_integer` accepts, each with n such that the stored value is Integer(n) |
| `Databases.Database.Query` | src/database.rs:185-191 | exactly the stored entries whose value matches the condition, each key once with its stored value |
| `Databases.Database.QueryMultiple` | src/database.rs:194-200 | exactly the stored entries whose value matches every condition, each key once with its stored value |
| `Databases.Database.KeysWithPrefix` | src/database.rs:203-209 | exactly the stored keys that start with the prefix |
| `Databases.QueryMultipleNoConditions` | src/database.rs:194-200 | an empty condition list returns every entry |
| `Databases.QueryMultipleSingle` | src/database.rs:185-200 | with one condition, `query_multiple` equals `query` |
| `Databases.QueryMultipleConcat` | src/database.rs:194-200 | conditions combine by AND: the keys selected by cs + ds are those selected by both cs and ds |
| `Databases.SeededUsersMatch` | src/main.rs:30-55 | which of the three driver users match age > 28, active == true and age in 25..=32 |
| `Databases.SeededOlderThan28` | src/main.rs:95 | on the seeded users, GreaterThan("age", 28) selects exactly user:1 and user:3 |
| `Databases.SeededAgeBand` | src/main.rs:114 | on the seeded users, Between("age", 25, 32) selects exactly user:1 and user:2 |
| `Databases.SeededActive` | src/main.rs:107-110 | on the seeded users, Equals("active", true) selects exactly user:1 and user:3 |
| `Databases.SeededActiveAndOlder` | src/database.rs:194-200 | on the seeded users, Equals("active", true) AND GreaterThan("age", 28) selects exactly user:1 and user:3, derived from the AND-composition lemmas |
| `Databases.SeededPrefixes` | src/database.rs:203-209 | on the seeded users, prefix "user:" (the driver's call at main.rs:74) lists all three keys, and a prefix no seeded key has, "product:", lists none |
| `Databases.Seed` | src/main.rs:58-63 | three inserts with auto-save on into a fresh database give the seeded map; the engine was handed a snapshot three times, the last one the full map, and when the last save succeeds the file holds the seeded map |
| `Databases.SeededQueries` | src/main.rs:93-127 | on the seeded database, the driver's GreaterThan, Equals and Between queries and its "user:" prefix listing (main.rs:74) return the key sets above; so do the AND of Equals("active", true) and GreaterThan("age", 28) through `query_multiple` (database.rs:194-200) and the "product:" prefix listing, which the driver itself does not make |

## Left out

- File I/O and the binary encoding (storage.rs): the file is modelled as the map it decodes to. So the save/load round trip is a modelling assumption, not a proved property of the encoding. Which step of a save or load fails is a nondeterministic choice.
- `StorageEngine` in storage.rs has only `new`, `save` and `load`. The `file_size` that `stats` calls is not part of this model.
- `Database::stats` and `DatabaseStats::print`: they depend on the file size on disk and print with floating point.
- All `println!` output.
- Float payloads: a Float carries its 64 bits as an opaque token. Equality on Float compares the bits, not IEEE values. So NaN equals itself here, and 0.0 and -0.0 differ; under the derived `PartialEq` it is the other way round for both.
- `Values.ToString`: the text of a Float (`f64::to_string`) and the order in which an Object's fields are visited are parameters of the renderer. The source takes both from the standard library, and the field order is the `HashMap`'s unspecified iteration order. The order is required to reach every key (`Values.CompleteOrder`). It is a function of the map's contents, so the model fixes one field order per map value and equal objects always render alike. In the source every `HashMap` gets its own random hasher, so two equal objects built separately, or a map rebuilt by decoding the file, may list their fields in different orders. Nothing else is assumed or proved about the float text or the order.
- `Databases.Seed`: the driver unwraps each insert's result and stops at the first failed save; the model goes on to the next insert, so only the run in which the saves succeed is the driver's run.
- `Databases.Database.ListKeys`, `Query`, `QueryMultiple`, `KeysWithPrefix` and `GetAllIntegers` return sets or maps. The order of the vectors the source returns is the `HashMap` iteration order and is not modelled.
- `Databases.Database.BatchInsert`, `Count`, `BatchDelete`: counts are unbounded naturals; `usize` overflow cannot happen at these sizes and is not modelled.
- Concurrency: none in the source; every operation is one sequential step.
