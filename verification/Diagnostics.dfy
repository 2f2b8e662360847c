/**
 The first diagnostics area (section 23.1 of ISO/IEC 9075-2:2016), that every module of a program
 shares, and the status parameter of the procedure that is running.

 Memory is always available. The message of a condition that the runtime raises itself is left
 empty.
 */
module Diagnostics {
  import opened SqlCli

  datatype Condition = Condition(sqlstate: SqlState, message: string, constraint: seq<string>)

  // The SQL-connection that a condition is raised in.
  datatype Place = Place(connectionName: string, serverName: string)

  // The records up to the first one that can't be read.
  function Readable(records: seq<Record>): (r: seq<Record>)
    ensures r <= records && forall k | k in r :: k.readable
    ensures |r| < |records| ==> !records[|r|].readable
  {
    if records == [] || !records[0].readable then [] else [records[0]] + Readable(records[1..])
  }

  function Copied(records: seq<Record>): seq<Condition> {
    seq(|Readable(records)|, i requires 0 <= i < |Readable(records)| =>
      var r := Readable(records)[i]; Condition(r.sqlstate, r.message, r.constraint))
  }

  // The status that a return code gives, with the status records of the handle.
  function StatusOf(rc: ReturnCode, records: seq<Record>): SqlState {
    match rc
    case Success => SUCCESSFUL
    case NoData => NO_DATA_FOUND
    case IndicatorOverflow => INDICATOR_TOO_SMALL
    case _ =>
      if Copied(records) != [] then Copied(records)[0].sqlstate
      else if rc.SuccessWithInfo? then WARNING else GENERAL_ERROR
  }

  lemma {:induction false} ReadableStep(records: seq<Record>, i: nat)
    requires i < |records| && i <= |Readable(records)|
    ensures records[i].readable <==> i < |Readable(records)|
  {
    if i > 0 {
      ReadableStep(records[1..], i - 1);
    }
  }

  // The status after a call is an invalid cursor state (or a sequence error) only when that is
  // the first record of the handle.
  lemma StatusOfReported(rc: ReturnCode, records: seq<Record>, state: SqlState)
    requires state != WARNING && state != GENERAL_ERROR && (rc.Error? || rc.SuccessWithInfo?)
    ensures StatusOf(rc, records) == state <==> Reports(records, state)
  {
    if records != [] {
      ReadableStep(records, 0);
    }
  }

  lemma StatusOfFailure(rc: ReturnCode, records: Records)
    ensures StatusOf(rc, records) == SUCCESSFUL <==> rc.Success?
    ensures Tells(rc, records) ==> (IsCompletion(StatusOf(rc, records)) <==> !Failed(rc))
  {
  }

  class Area {
    var sqlstate: SqlState
    var conditions: seq<Condition>
    var committed: bool
    var rolledBack: bool
    var place: Place
    var cursorName: string

    constructor ()
      ensures sqlstate == SUCCESSFUL && conditions == []
    {
      sqlstate, conditions := SUCCESSFUL, [];
      committed, rolledBack, place, cursorName := false, false, Place("", ""), "";
    }

    // The status is 00000 when there are no conditions, and otherwise it is the first condition.
    ghost predicate Consistent()
      reads this
    {
      && (sqlstate == SUCCESSFUL <==> conditions == [])
      && (conditions != [] ==> sqlstate == conditions[0].sqlstate)
    }

    method Begin()
      modifies this
      ensures conditions == [] && sqlstate == old(sqlstate) && place == old(place)
      ensures !committed && !rolledBack && cursorName == ""
    {
      conditions := [];
      committed, rolledBack, cursorName := false, false, "";
    }

    method Raise(condition: Condition, where: Place)
      modifies this`conditions, this`place
      ensures conditions == old(conditions) + [condition] && place == where
    {
      conditions := conditions + [condition];
      place := where;
    }

    // A condition that the runtime raises is the only one.
    method Status(code: SqlState, where: Place)
      modifies this`sqlstate, this`conditions, this`place
      ensures sqlstate == code && Consistent()
      ensures |conditions| <= 1
      ensures place == if code == SUCCESSFUL then old(place) else where
    {
      sqlstate := code;
      conditions := [];
      if code != SUCCESSFUL {
        Raise(Condition(code, "", []), where);
      }
    }

    // The status of a CLI return code, with the conditions of the handle in the same order.
    method Diagnose(rc: ReturnCode, records: Records, where: Place)
      modifies this`sqlstate, this`conditions, this`place
      ensures Consistent() && sqlstate == StatusOf(rc, records)
      ensures (rc.Error? || rc.SuccessWithInfo?) && Copied(records) != [] ==>
        conditions == Copied(records)
    {
      if rc.Success? {
        Status(SUCCESSFUL, where);
        return;
      }
      if rc.NoData? {
        Status(NO_DATA_FOUND, where);
        return;
      }
      if rc.IndicatorOverflow? {
        Status(INDICATOR_TOO_SMALL, where);
        return;
      }

      conditions := [];
      var i := 0;
      while i < |records|
        invariant i <= |Readable(records)|
        invariant conditions == Copied(records)[..i]
      {
        ReadableStep(records, i);
        if !records[i].readable {
          break;
        }
        Raise(Condition(records[i].sqlstate, records[i].message, records[i].constraint), where);
        i := i + 1;
      }
      assert i == |Readable(records)| by {
        if i < |records| {
          ReadableStep(records, i);
        }
      }

      if |conditions| > 0 {
        sqlstate := conditions[0].sqlstate;
      } else {
        Status(if rc.SuccessWithInfo? then WARNING else GENERAL_ERROR, where);
      }
    }
  }
}
