/**
 * Clients of the store: the test cases of tests/sqlite_test.cpp, run against
 * a store over a new database file with an engine that never fails.
 */
module Scenarios {
  import opened Wrappers
  import opened PropertyTypes
  import opened Codec
  import opened SqliteStore

  /** A set of a key not yet stored, then a get at the value's own tag, gives back the value. */
  method SetThenGet(s: Store, key: string, v: Value) returns (setStatus: Status, got: Status, out: Option<Value>)
    requires s.Valid() && key !in s.table
    requires v.StringValue? ==> NulFree(v.s)
    modifies s
    ensures s.Valid() && s.table.Keys == old(s.table).Keys + {key}
    ensures forall k :: k in old(s.table) ==> s.table[k] == old(s.table)[k]
    ensures setStatus == Ok && got == Ok && out == Some(v)
  {
    setStatus := s.Set(key, v, false, NoFailures);
    got, out := s.Get(key, TagOf(v), false);
    RoundTrip(v);
  }

  /** Test set_get_del: one property of each type is set and read back unchanged. */
  method SetGetDelTest() returns (sets: seq<Status>, gets: seq<Status>, values: seq<Option<Value>>)
    ensures sets == [Ok, Ok, Ok, Ok, Ok] && gets == [Ok, Ok, Ok, Ok, Ok]
    ensures values == [Some(StringValue("val1")), Some(IntValue(1024)), Some(Int64Value(0x5EBFAFFF77FFBFF)),
                       Some(BoolValue(true)), Some(BlobValue([1, 2, 3, 4, 5, 6]))]
  {
    var s := new Store();
    var s0, g0, v0 := SetThenGet(s, "key_str", StringValue("val1"));
    assert s.table.Keys == {"key_str"};
    var s1, g1, v1 := SetThenGet(s, "key_int", IntValue(1024));
    assert s.table.Keys == {"key_str", "key_int"};
    var s2, g2, v2 := SetThenGet(s, "key_int64", Int64Value(0x5EBFAFFF77FFBFF));
    assert s.table.Keys == {"key_str", "key_int", "key_int64"};
    var s3, g3, v3 := SetThenGet(s, "key_bool", BoolValue(true));
    assert s.table.Keys == {"key_str", "key_int", "key_int64", "key_bool"};
    var s4, g4, v4 := SetThenGet(s, "key_blob", BlobValue([1, 2, 3, 4, 5, 6]));
    sets, gets, values := [s0, s1, s2, s3, s4], [g0, g1, g2, g3, g4], [v0, v1, v2, v3, v4];
  }

  /** Test set_unique: a second set of the same key without update is refused. */
  method SetUniqueTest() returns (first: Status, second: Status)
    ensures first == Ok && second == AlreadyExists
  {
    var s := new Store();
    first := s.Set("key1", StringValue("val1"), false, NoFailures);
    second := s.Set("key1", StringValue("val1"), false, NoFailures);
  }

  /** Test set_update_get: only a set with update replaces the stored value. */
  method SetUpdateGetTest() returns (sets: seq<Status>, got: Status, value: Option<Value>)
    ensures sets == [Ok, AlreadyExists, Ok] && got == Ok && value == Some(StringValue("val2"))
  {
    var s := new Store();
    var s0 := s.Set("key1", StringValue("val1"), false, NoFailures);
    var s1 := s.Set("key1", StringValue("val2"), false, NoFailures);
    var s2 := s.Set("key1", StringValue("val2"), true, NoFailures);
    sets := [s0, s1, s2];
    got, value := s.Get("key1", StringType, false);
  }

  /** Test set_check_type: reading a string property as an int32 is refused and writes nothing. */
  method SetCheckTypeTest() returns (inserted: Status, got: Status, value: Option<Value>, updated: Status)
    ensures inserted == Ok && got == InvalidType && value == None && updated == Ok
  {
    var s := new Store();
    inserted := s.Set("key1", StringValue("val1"), false, NoFailures);
    got, value := s.Get("key1", IntType, false);
    updated := s.Set("key1", StringValue("val1"), true, NoFailures);
  }

  /** A refused set leaves the stored value as it was. */
  method SetKeepsOnConflict() returns (second: Status, got: Status, value: Option<Value>)
    ensures second == AlreadyExists && got == Ok && value == Some(StringValue("val1"))
  {
    var s := new Store();
    var first := s.Set("key1", StringValue("val1"), false, NoFailures);
    second := s.Set("key1", StringValue("val2"), false, NoFailures);
    got, value := s.Get("key1", StringType, false);
  }

  /** An update that would change a key's type is refused, and the stored value stays readable at its own type. */
  method TypeChangeRefused() returns (updated: Status, got: Status, value: Option<Value>)
    ensures updated == InvalidType && got == Ok && value == Some(StringValue("val1"))
  {
    var s := new Store();
    var first := s.Set("key1", StringValue("val1"), false, NoFailures);
    updated := s.Set("key1", IntValue(1024), true, NoFailures);
    got, value := s.Get("key1", StringType, false);
  }

  /** An int32 property is refused when read as an int64: there is no numeric widening. */
  method NoWidening() returns (got32: Status, value32: Option<Value>, got64: Status, value64: Option<Value>)
    ensures got32 == Ok && value32 == Some(IntValue(8080))
    ensures got64 == InvalidType && value64 == None
  {
    var s := new Store();
    var first := s.Set("port", IntValue(8080), false, NoFailures);
    RoundTrip(IntValue(8080));
    got32, value32 := s.Get("port", IntType, false);
    got64, value64 := s.Get("port", Int64Type, false);
  }

  /** With a single step per delete, deleting a stored key then reading it finds nothing, and deleting it again still succeeds. */
  method DelThenGet() returns (deleted: Status, got: Status, again: Status)
    ensures deleted == Ok && got == NotFound && again == Ok
  {
    var s := new Store();
    var first := s.Set("key1", StringValue("val1"), false, NoFailures);
    deleted := s.DelOnce("key1", false, StepDone);
    var value;
    got, value := s.Get("key1", StringType, false);
    again := s.DelOnce("key1", false, StepDone);
  }
}
