/**
 * The SQLite-backed property store of src/sqlite.cpp. The table
 * property_table(key, value, type) is a map from key to row; the engine's
 * failures are explicit parameters, one per engine call that can fail.
 */
module SqliteStore {
  import opened Wrappers
  import opened PropertyTypes
  import opened Codec
  import Decimal

  /** One row of property_table: the value column and the integer in the type column. */
  datatype Row = Row(payload: string, code: int)

  /** The row set binds for a value: its payload and the code of its tag. */
  function EncodeRow(v: Value): Row
  {
    Row(EncodePayload(v), TagCode(TagOf(v)))
  }

  /** A row get can decode: its type column names a tag and its value column decodes at that tag. */
  predicate Readable(r: Row)
  {
    TagFromCode(r.code).Some? && DecodePayload(CStr(r.payload), TagFromCode(r.code).value).Some?
  }

  /** Every row set writes is readable. */
  lemma EncodeRowReadable(v: Value)
    ensures Readable(EncodeRow(v))
    ensures TagFromCode(EncodeRow(v).code) == Some(TagOf(v))
  {
    TagCodeInverse(TagOf(v), TagOf(v));
    ReadBackDefined(v);
  }

  /** A row set could have written: the row of some value. */
  ghost predicate Encoded(r: Row)
  {
    exists v :: EncodeRow(v) == r
  }

  /** A row that is the encoding of a value is readable, and its type column names that value's tag. */
  lemma EncodedReadable(r: Row)
    requires Encoded(r)
    ensures Readable(r)
  {
    var v :| EncodeRow(v) == r;
    EncodeRowReadable(v);
  }

  /** The columns, as text, that the engine passes the callback of "SELECT value, type" for a row. */
  function SelectColumns(r: Row): seq<string>
  {
    [r.payload, Decimal.ToDecimal(r.code)]
  }

  /** The columns, as text, that the engine passes the callback of "SELECT type" for a row. */
  function TypeColumns(r: Row): seq<string>
  {
    [Decimal.ToDecimal(r.code)]
  }

  /** The result code sqlite3_finalize reports for a statement that was stepped. */
  datatype ResultCode = SqliteOk | SqliteConstraint | SqliteFailure

  /** What one sqlite3_step of a DELETE reports: done, or a failure (busy, locked, I/O). */
  datatype StepResult = StepDone | StepFailed

  /** Which engine calls of one set fail; a field that is true means that call fails. */
  datatype SetFailures = SetFailures(
    insertPrepare: bool,  // sqlite3_prepare_v2 of the INSERT
    insertStep: bool,     // the INSERT fails for a reason other than a uniqueness violation
    typeQuery: bool,      // sqlite3_exec of the SELECT issued by type
    updatePrepare: bool,  // sqlite3_prepare_v2 of the UPDATE
    updateStep: bool)     // the UPDATE fails

  const NoFailures := SetFailures(false, false, false, false, false)

  /** Some step reports something other than done, so that del's loop can leave. */
  predicate LoopExits(steps: seq<StepResult>)
  {
    exists i :: 0 <= i < |steps| && steps[i] != StepDone
  }

  /**
   * An engine that restarts a finished statement when it is stepped again
   * (SQLite's automatic reset, from release 3.7.0) runs the DELETE again on
   * every step and reports done each time: however many steps it is given,
   * del's loop never leaves.
   */
  lemma AutoResetNeverExits(n: nat)
    ensures !LoopExits(seq(n, _ => StepDone))
  {
  }

  /** req_value: what the row callbacks record about the row a query found. */
  class ReqValue {
    var found: bool
    var valid: bool
    var blob: string
    var code: int

    constructor ()
      ensures !found && !valid && blob == "" && code == TagCode(StringType)
    {
      found, valid, blob, code := false, false, "", TagCode(StringType);
    }

    /** select_exec_cb, called for each row of "SELECT value, type". */
    method SelectRow(argv: seq<string>)
      modifies this
      ensures found && valid == (|argv| == 2)
      ensures |argv| == 2 ==> blob == CStr(argv[0]) && code == Decimal.Atoi(argv[1])
      ensures |argv| != 2 ==> blob == old(blob) && code == old(code)
    {
      found := true;
      if |argv| == 2 {
        blob := CStr(argv[0]);
        code := Decimal.Atoi(argv[1]);
        valid := true;
      } else {
        valid := false;
      }
    }

    /** type_exec_cb, called for each row of "SELECT type". */
    method TypeRow(argv: seq<string>)
      modifies this
      ensures found && valid == (|argv| == 1) && blob == old(blob)
      ensures |argv| == 1 ==> code == Decimal.Atoi(argv[0])
      ensures |argv| != 1 ==> code == old(code)
    {
      found := true;
      if |argv| == 1 {
        code := Decimal.Atoi(argv[0]);
        valid := true;
      } else {
        valid := false;
      }
    }
  }

  /** The store: a handle on one property_table. */
  class Store {
    var table: map<string, Row>

    /** Every stored row is the encoding of a value: set is the only writer, and it writes only encodings. */
    ghost predicate Valid()
      reads this
    {
      forall k :: k in table ==> Encoded(table[k])
    }

    /** A store over a new, empty database file. */
    constructor ()
      ensures Valid() && table == map[]
    {
      table := map[];
    }

    /**
     * get: look the key up, refuse a tag other than the stored one, then decode.
     * The output is None wherever the source leaves its out-parameter unwritten.
     */
    method Get(key: string, requested: Tag, execFails: bool) returns (st: Status, v: Option<Value>)
      requires Valid()
      ensures execFails ==> st == UnknownError && v == None
      ensures !execFails && key !in table ==> st == NotFound && v == None
      ensures !execFails && key in table && table[key].code != TagCode(requested) ==>
                st == InvalidType && v == None
      ensures !execFails && key in table && table[key].code == TagCode(requested) ==>
                st == Ok && v.Some? && v == DecodePayload(CStr(table[key].payload), requested)
    {
      var rsp := new ReqValue();
      if !execFails && key in table {
        rsp.SelectRow(SelectColumns(table[key]));
        Decimal.AtoiToDecimal(table[key].code);
        EncodedReadable(table[key]);
      }
      if execFails {
        return UnknownError, None;
      }
      if !rsp.found {
        return NotFound, None;
      }
      if TagCode(requested) != rsp.code {
        return InvalidType, None;
      }
      v := DecodePayload(rsp.blob, requested);
      st := Ok;
    }

    /** type: the stored tag of a key, read from the type column alone. */
    method Type(key: string, execFails: bool) returns (st: Status, t: Option<Tag>)
      ensures execFails ==> st == UnknownError && t == None
      ensures !execFails && key !in table ==> st == NotFound && t == None
      ensures !execFails && key in table ==> st == Ok && t == TagFromCode(table[key].code)
    {
      st, t := Ok, None;
      var rsp := new ReqValue();
      if !execFails && key in table {
        rsp.TypeRow(TypeColumns(table[key]));
        Decimal.AtoiToDecimal(table[key].code);
      }
      if !execFails {
        if rsp.found {
          t := TagFromCode(rsp.code);
        } else {
          st := NotFound;
        }
      } else {
        st := UnknownError;
      }
    }

    /**
     * set: insert the row; on a uniqueness violation either report
     * AlreadyExists or, with update, overwrite the payload of a row whose
     * stored tag is the value's own.
     */
    method Set(key: string, v: Value, update: bool, fail: SetFailures) returns (st: Status)
      requires Valid()
      modifies this
      ensures Valid()
      ensures forall k :: k in old(table) ==> k in table && table[k].code == old(table)[k].code
      ensures fail.insertPrepare ==> st == Ok && table == old(table)
      ensures !fail.insertPrepare && fail.insertStep ==> st == UnknownError && table == old(table)
      ensures !fail.insertPrepare && !fail.insertStep && key !in old(table) ==>
                st == Ok && table == old(table)[key := EncodeRow(v)]
      ensures !fail.insertPrepare && !fail.insertStep && key in old(table) && !update ==>
                st == AlreadyExists && table == old(table)
      ensures !fail.insertPrepare && !fail.insertStep && key in old(table) && update && fail.typeQuery ==>
                st == UnknownError && table == old(table)
      ensures !fail.insertPrepare && !fail.insertStep && key in old(table) && update && !fail.typeQuery &&
              old(table)[key].code != TagCode(TagOf(v)) ==>
                st == InvalidType && table == old(table)
      ensures !fail.insertPrepare && !fail.insertStep && key in old(table) && update && !fail.typeQuery &&
              old(table)[key].code == TagCode(TagOf(v)) && (fail.updatePrepare || fail.updateStep) ==>
                st == UnknownError && table == old(table)
      ensures !fail.insertPrepare && !fail.insertStep && key in old(table) && update && !fail.typeQuery &&
              old(table)[key].code == TagCode(TagOf(v)) && !fail.updatePrepare && !fail.updateStep ==>
                st == Ok && table == old(table)[key := EncodeRow(v)]
    {
      st := Ok;
      var payload := EncodePayload(v);
      var tag := TagOf(v);
      EncodeRowReadable(v);
      assert Encoded(EncodeRow(v));
      if !fail.insertPrepare {
        // INSERT INTO property_table(key, value, type) values (?,?,?), stepped once, then finalized
        var rc: ResultCode;
        if fail.insertStep {
          rc := SqliteFailure;
        } else if key in table {
          rc := SqliteConstraint;
        } else {
          table := table[key := Row(payload, TagCode(tag))];
          rc := SqliteOk;
        }
        if rc != SqliteOk {
          if rc == SqliteConstraint {
            if !update {
              st := AlreadyExists;
            } else {
              var stored: Option<Tag>;
              st, stored := Type(key, fail.typeQuery);
              if st == Ok {
                if stored != Some(tag) {
                  st := InvalidType;
                } else if !fail.updatePrepare {
                  // UPDATE property_table SET value = ? WHERE key = '<key>'
                  if fail.updateStep {
                    st := UnknownError;
                  } else {
                    table := table[key := Row(payload, table[key].code)];
                    st := Ok;
                  }
                } else {
                  st := UnknownError;
                }
              }
            }
          } else {
            st := UnknownError;
          }
        }
      }
    }

    /**
     * del as written: prepare the DELETE, then step it for as long as each
     * step reports done. steps[i] is what the engine reports on the i-th
     * step; a step that reports done has removed the row.
     */
    method Del(key: string, prepareFails: bool, steps: seq<StepResult>) returns (st: Status)
      requires Valid()
      requires !prepareFails ==> LoopExits(steps)
      modifies this
      ensures Valid()
      ensures prepareFails ==> st == UnknownError && table == old(table)
      ensures !prepareFails ==> st == Ok
      ensures !prepareFails ==> table == if steps[0] == StepDone then old(table) - {key} else old(table)
    {
      if !prepareFails {
        var i := 0;
        var r := steps[0];
        if r == StepDone {
          table := table - {key};
        }
        while r == StepDone
          invariant 0 <= i < |steps| && r == steps[i]
          invariant exists j :: i <= j < |steps| && steps[j] != StepDone
          invariant forall j :: 0 <= j < i ==> steps[j] == StepDone
          invariant table == if steps[0] == StepDone then old(table) - {key} else old(table)
          decreases |steps| - i
        {
          i := i + 1;
          r := steps[i];
          if r == StepDone {
            table := table - {key};
          }
        }
        st := Ok;
      } else {
        st := UnknownError;
      }
    }

    /** del stepping its DELETE once, so that it returns for every engine behaviour. */
    method DelOnce(key: string, prepareFails: bool, step: StepResult) returns (st: Status)
      requires Valid()
      modifies this
      ensures Valid()
      ensures prepareFails ==> st == UnknownError && table == old(table)
      ensures !prepareFails ==> st == Ok
      ensures !prepareFails ==> table == if step == StepDone then old(table) - {key} else old(table)
    {
      if !prepareFails {
        if step == StepDone {
          table := table - {key};
        }
        st := Ok;
      } else {
        st := UnknownError;
      }
    }
  }
}
