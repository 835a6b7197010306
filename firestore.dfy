/**
 * Cloud Firestore documents as values. A stored document is a map from field
 * names to values; a field that is missing (or null) is simply not in the map.
 * The typed getters and the safe casts (`as? String`, `as? Number`, `as? Long`)
 * the app applies to them are defined once here.
 */
module Firestore {
  import opened Wrappers
  import Int32

  /** A timestamp, as milliseconds since the epoch. */
  type Millis = int

  datatype Value =
    | VString(s: string)
    | VLong(n: int)
    | VBool(b: bool)
    | VTimestamp(millis: Millis)
    | VList(items: seq<Value>)
    | VMap(fields: map<string, Value>)

  type Fields = map<string, Value>

  /** A document snapshot of a query result or a `get()`: its id and its fields. */
  datatype Doc = Doc(id: string, fields: Fields)

  /** `map[key]` on a Kotlin map: the value or null. */
  function Lookup(f: Fields, key: string): Option<Value> {
    if key in f then Some(f[key]) else None
  }

  /** `v as? String` */
  function AsString(v: Option<Value>): Option<string> {
    if v.Some? && v.value.VString? then Some(v.value.s) else None
  }

  /** `(v as? Number)?.toInt()`: numbers narrowed to 32 bits. */
  function AsNumberToInt(v: Option<Value>): Option<Int32.Int> {
    if v.Some? && v.value.VLong? then Some(Int32.Wrap(v.value.n)) else None
  }

  /** `v as? Long` */
  function AsLong(v: Option<Value>): Option<int> {
    if v.Some? && v.value.VLong? then Some(v.value.n) else None
  }

  /** `v as? Map<*, *>` */
  function AsMap(v: Option<Value>): Option<Fields> {
    if v.Some? && v.value.VMap? then Some(v.value.fields) else None
  }

  /** `v as? List<HashMap<String, Any>>`, taken here as a list whose items are all maps. */
  function AsMapList(v: Option<Value>): Option<seq<Fields>> {
    if v.Some? && v.value.VList? && forall k :: 0 <= k < |v.value.items| ==> v.value.items[k].VMap? then
      Some(seq(|v.value.items|, k requires 0 <= k < |v.value.items| && v.value.items[k].VMap? => v.value.items[k].fields))
    else None
  }

  /** The stored form of a list of maps. */
  function MapList(maps: seq<Fields>): Value {
    VList(seq(|maps|, k requires 0 <= k < |maps| => VMap(maps[k])))
  }

  /** A stored list of maps reads back as the same maps, in the same order. */
  lemma MapListRoundTrip(maps: seq<Fields>)
    ensures AsMapList(Some(MapList(maps))) == Some(maps)
  {
    var items := MapList(maps).items;
    assert forall k :: 0 <= k < |items| ==> items[k].VMap? && items[k].fields == maps[k];
    var decoded := AsMapList(Some(MapList(maps)));
    assert decoded.Some?;
    assert decoded.value == maps;
  }

  /** `doc.getString(key)` */
  function GetString(f: Fields, key: string): Option<string> {
    AsString(Lookup(f, key))
  }

  /** `doc.getLong(key)` */
  function GetLong(f: Fields, key: string): Option<int> {
    AsLong(Lookup(f, key))
  }

  /** `doc.getBoolean(key)` */
  function GetBoolean(f: Fields, key: string): Option<bool> {
    var v := Lookup(f, key);
    if v.Some? && v.value.VBool? then Some(v.value.b) else None
  }

  /** `doc.getTimestamp(key)` */
  function GetTimestamp(f: Fields, key: string): Option<Millis> {
    var v := Lookup(f, key);
    if v.Some? && v.value.VTimestamp? then Some(v.value.millis) else None
  }

  /** `doc.getBoolean("isDeleted") ?: false`: the trash flag of a folder document, absent meaning not deleted. */
  function FolderDeleted(f: Fields): (deleted: bool)
    ensures "isDeleted" !in f ==> !deleted
    ensures deleted <==> Lookup(f, "isDeleted") == Some(VBool(true))
  {
    GetBoolean(f, "isDeleted").GetOr(false)
  }

  /** The result of a one-shot read (`get()`): its success listener's argument or its failure's message. */
  datatype Fetch<T> = Loaded(result: T) | Failed(message: string)
}
