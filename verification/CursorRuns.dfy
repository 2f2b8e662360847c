/**
 The cursors that are open in a run. A cursor is only open if the calls of the run say so: an OPEN
 of it worked, and nothing has ended that since.
 */
module CursorRuns {
  import opened Wrappers
  import opened SqlCli
  import opened Requests
  import opened Ownership
  import opened States
  import opened Effects
  import opened Runs

  // OPEN of cursor i of m was executed on c, and worked.
  ghost predicate Opens(user: Module, call: Call, after: Moment, c: Id, m: Module, i: nat) {
    && (call.OpenCursor? || call.OpenDynamic?) && call.i == i && user == m
    && UsedOn(after.state, m, c) && IsCompletion(after.sqlstate)
  }

  // The cursor was closed with its SQL-connection or by CLOSE, or an OPEN of it failed. (One that
  // finds it open, or doesn't find a query that's prepared, leaves it as it is.)
  ghost predicate Ends(user: Module, call: Call, after: Moment, c: Id, m: Module, i: nat) {
    || c !in after.state.conns
    || (user == m && UsedOn(after.state, m, c)
        && match call
           case CloseCursor(j) => j == i
           case OpenCursor(j, _, _, _, _) =>
             j == i && !IsCompletion(after.sqlstate) && after.sqlstate != INVALID_CURSOR_STATE
           case OpenDynamic(j, _, _, _, _) =>
             && j == i && !IsCompletion(after.sqlstate)
             && after.sqlstate !in {INVALID_CURSOR_STATE, INVALID_STATEMENT_NAME, NOT_CURSOR}
           case _ => false)
  }

  ghost predicate CursorIsOpen(s: State, c: Id, m: Module, i: nat) {
    IsOpen(s.statements, SlotOf(s.conns, Some(c), m, i))
  }

  lemma OthersNotOpened(before: map<Handle, Statement>, after: map<Handle, Statement>, h: Handle, k: Handle)
    requires OthersStay(before, after, h) && IsOpen(after, k) && k != h
    ensures IsOpen(before, k)
  {
  }

  // Setting the schema opens no cursor.
  lemma SwitchedOpen(before: State, during: State, user: Module, c: Id, m: Module, i: nat)
    requires Switched(before, during, user) && CursorIsOpen(during, c, m, i)
    ensures CursorIsOpen(before, c, m, i)
  {
    OthersNotOpened(before.statements, during.statements, 0, SlotOf(during.conns, Some(c), m, i));
    hide OthersStay;
  }

  // Two cursors don't have the same statement.
  lemma SlotsApart(t: State, c: Id, m: Module, i: nat, d: Id, m': Module, i': nat)
    requires OwnersUnique(t) && SlotOf(t.conns, Some(c), m, i) == SlotOf(t.conns, Some(d), m', i') != 0
    ensures c == d && m == m' && i == i'
  {
    var h := SlotOf(t.conns, Some(c), m, i);
    assert At(t.conns, Slot(c, m, i), h) && At(t.conns, Slot(d, m', i'), h);
  }

  // The statement of a cursor isn't a prepared one.
  lemma PreparedApart(t: State, c: Id, m: Module, i: nat, d: Id, m': Module, name: string)
    requires OwnersUnique(t) && d in t.conns && SlotOf(t.conns, Some(c), m, i) != 0
    ensures HandleOf(Lookup(t.conns[d], m', name)) != SlotOf(t.conns, Some(c), m, i)
  {
    var h := SlotOf(t.conns, Some(c), m, i);
    assert At(t.conns, Slot(c, m, i), h);
    FindRefinesMap(t.conns[d].prepared, m', name);
    if HandleOf(Lookup(t.conns[d], m', name)) == h {
      assert At(t.conns, Named(d, m', name), h);
    }
  }

  lemma OnlyCursorOpens(s: State, t: State, user: Module, j: nat, c: Id, m: Module, i: nat)
    requires OnlyCursor(s, t, user, j) && OwnersUnique(t) && CursorIsOpen(t, c, m, i)
    requires t.current != Some(c) || user != m || j != i
    ensures CursorIsOpen(s, c, m, i)
  {
    if StatementOf(t, user, j) == SlotOf(t.conns, Some(c), m, i) {
      SlotsApart(t, c, m, i, t.current.value, user, j);
    }
    OthersNotOpened(s.statements, t.statements, StatementOf(t, user, j), SlotOf(t.conns, Some(c), m, i));
    hide OthersStay, OwnersUnique, Keeps;
  }

  // FETCH is only a FETCH, whatever its row is.
  lemma FetchEffect(s: State, t: State, user: Module, call: Call, state: SqlState)
    requires (call.Fetch? || call.FetchDynamic?) && Effect(s, user, call, t, state)
    ensures exists exception, done :: Fetched(s, t, user, call.i, exception, done, state)
  {
    hide Fetched;
  }

  // A statement for a cursor opens no other one.
  lemma CursorEffectOpens(s: State, t: State, user: Module, call: Call, after: Moment, c: Id, m: Module, i: nat)
    requires after.state == t && call.IsForCursor() && Effect(s, user, call, t, after.sqlstate) && OwnersUnique(t)
    requires t.current.Some? && UsedOn(t, user, t.current.value) && CursorIsOpen(t, c, m, i)
    ensures CursorIsOpen(s, c, m, i) || Opens(user, call, after, c, m, i)
    ensures !Ends(user, call, after, c, m, i)
  {
    hide OnlyCursor, OwnersUnique, RowFetched, OpenedBy;
    if call.Fetch? || call.FetchDynamic? {
      FetchEffect(s, t, user, call, after.sqlstate);
      var exception, done :| Fetched(s, t, user, call.i, exception, done, after.sqlstate);
    }
    if t.current == s.current && (t.current != Some(c) || user != m || call.i != i) && OnlyCursor(s, t, user, call.i) {
      OnlyCursorOpens(s, t, user, call.i, c, m, i);
    }
    assert OnlyCursor(s, t, user, call.i) ==> t.current == s.current by {
      if OnlyCursor(s, t, user, call.i) {
        OnlyCursorCurrent(s, t, user, call.i);
      }
    }
  }

  lemma OnlyCursorCurrent(s: State, t: State, m: Module, i: nat)
    requires OnlyCursor(s, t, m, i)
    ensures t.current == s.current
  {
  }

  lemma SameSlots(before: map<Id, Connection>, after: map<Id, Connection>, c: Id, m: Module, i: nat)
    requires SlotsStay(before, after)
    ensures SlotOf(after, Some(c), m, i) == SlotOf(before, Some(c), m, i)
  {
  }

  // EXECUTE can only open the cursor of its prepared statement.
  lemma ExecuteOpens(s: State, t: State, user: Module, name: string, input: Input, out: Output, reached: Reached,
                     done: bool, state: SqlState, c: Id, m: Module, i: nat)
    requires WasExecutedFor(s, t, user, name, input, out, reached, done, state) && OwnersUnique(t)
    requires CursorIsOpen(t, c, m, i)
    ensures CursorIsOpen(s, c, m, i)
  {
    hide OwnersUnique, ParametersOf, Output.PreparedStatus, OthersStay;
    var d := s.current.value;
    BeganSlots(s.conns, t.conns, d);
    SameSlots(s.conns, t.conns, c, m, i);
    PreparedApart(t, c, m, i, d, user, name);
    if reached.Ran? {
      var p := Lookup(CurrentOf(s), user, name);
      assert p == Lookup(t.conns[d], user, name);
      OthersNotOpened(s.statements, t.statements, HandleOf(p), SlotOf(t.conns, Some(c), m, i));
    }
  }

  // No other statement opens a cursor.
  lemma OtherEffectOpens(s: State, t: State, user: Module, call: Call, state: SqlState, c: Id, m: Module, i: nat)
    requires !call.IsForCursor() && !call.IsConnectionStatement() && !call.ExecutePrepared?
    requires Effect(s, user, call, t, state) && CursorIsOpen(t, c, m, i)
    ensures CursorIsOpen(s, c, m, i)
  {
    hide ParametersOf, OthersStay, Lookup, Dropped, Replaced;
    var k := SlotOf(t.conns, Some(c), m, i);
    if call.Prepare? || call.Deallocate? {
      SameSlots(s.conns, t.conns, c, m, i);
    } else if OthersStay(s.statements, t.statements, 0) {
      OthersNotOpened(s.statements, t.statements, 0, k);
    }
  }

  lemma EffectOpens(s: State, t: State, user: Module, call: Call, after: Moment, c: Id, m: Module, i: nat)
    requires after.state == t && !call.IsConnectionStatement() && Effect(s, user, call, t, after.sqlstate)
    requires OwnersUnique(t) && t.current.Some? && UsedOn(t, user, t.current.value) && CursorIsOpen(t, c, m, i)
    ensures CursorIsOpen(s, c, m, i) || Opens(user, call, after, c, m, i)
    ensures !Ends(user, call, after, c, m, i)
  {
    if call.IsForCursor() {
      CursorEffectOpens(s, t, user, call, after, c, m, i);
    } else if call.ExecutePrepared? {
      var reached, done :| WasExecutedFor(s, t, user, call.name, call.input, call.out, reached, done, after.sqlstate);
      ExecuteOpens(s, t, user, call.name, call.input, call.out, reached, done, after.sqlstate, c, m, i);
    } else {
      OtherEffectOpens(s, t, user, call, after.sqlstate, c, m, i);
    }
  }

  // A cursor that's open after a statement was open before, or an OPEN of it worked.
  lemma StepOpens(before: Moment, user: Module, call: Call, after: Moment, c: Id, m: Module, i: nat)
    requires Next(before, user, call, after) && Rules(after.state) && CursorIsOpen(after.state, c, m, i)
    ensures CursorIsOpen(before.state, c, m, i) || Opens(user, call, after, c, m, i)
    ensures !Ends(user, call, after, c, m, i)
  {
    hide OwnersUnique, PreparedKept, OthersStay, Switched;
    var s, t := before.state, after.state;
    var k := SlotOf(t.conns, Some(c), m, i);
    if call.IsConnectionStatement() || !(t.current.Some? && UsedOn(t, user, t.current.value)) {
      OthersNotOpened(s.statements, t.statements, 0, k);
    } else {
      var during :| Switched(s, during, user) && Effect(during, user, call, t, after.sqlstate);
      hide Effect;
      EffectOpens(during, t, user, call, after, c, m, i);
      if CursorIsOpen(during, c, m, i) {
        SwitchedOpen(s, during, user, c, m, i);
      }
    }
  }

  // Every OPEN of the cursor that worked, in the first k statements, has been ended since.
  ghost predicate EndedSince(trace: seq<Moment>, calls: seq<(Module, Call)>, k: nat, c: Id, m: Module, i: nat)
    requires |trace| == |calls| + 1 && k <= |calls|
  {
    forall j | 0 <= j < k && Opens(calls[j].0, calls[j].1, trace[j + 1], c, m, i) ::
      exists l :: j < l < k && Ends(calls[l].0, calls[l].1, trace[l + 1], c, m, i)
  }

  // In any run, such a cursor isn't open.
  lemma {:induction false} NotOpenWhenEnded(trace: seq<Moment>, calls: seq<(Module, Call)>, k: nat,
                                            c: Id, m: Module, i: nat)
    requires IsTrace(trace, calls) && k <= |calls| && EndedSince(trace, calls, k, c, m, i)
    ensures !CursorIsOpen(trace[k].state, c, m, i)
  {
    hide Rules, Next, Opens, Ends;
    if k > 0 && CursorIsOpen(trace[k].state, c, m, i) {
      var (user, call) := calls[k - 1];
      StepOpens(trace[k - 1], user, call, trace[k], c, m, i);
      assert EndedSince(trace, calls, k - 1, c, m, i) by {
        forall j | 0 <= j < k - 1 && Opens(calls[j].0, calls[j].1, trace[j + 1], c, m, i)
          ensures exists l :: j < l < k - 1 && Ends(calls[l].0, calls[l].1, trace[l + 1], c, m, i)
        {
          var l :| j < l < k && Ends(calls[l].0, calls[l].1, trace[l + 1], c, m, i);
        }
      }
      NotOpenWhenEnded(trace, calls, k - 1, c, m, i);
    }
  }

  // In any run, a FETCH or CLOSE is an invalid cursor state if no OPEN of the cursor has worked on
  // the current SQL-connection, or if that was ended since: the cursor or the SQL-connection was
  // closed, or the last OPEN failed. It isn't executed if the schema of the module can't be set.
  lemma InvalidWhenEnded(trace: seq<Moment>, calls: seq<(Module, Call)>, k: nat, c: Id, m: Module, i: nat)
    requires IsTrace(trace, calls) && k < |calls| && EndedSince(trace, calls, k, c, m, i)
    requires calls[k].0 == m && calls[k].1.UsesOpenCursor() && calls[k].1.i == i
    requires trace[k + 1].state.current == Some(c)
    ensures if UsedOn(trace[k + 1].state, m, c) then trace[k + 1].sqlstate == INVALID_CURSOR_STATE
            else NotSwitched(trace[k].state, trace[k + 1].state, trace[k + 1].sqlstate)
  {
    NotOpenWhenEnded(trace, calls, k, c, m, i);
    assert Next(trace[k], m, calls[k].1, trace[k + 1]);
    hide Rules, OwnersUnique, PreparedKept, OthersStay, EndedSince, IsTrace, OtherSlotsStay, Keeps;
    InvalidWhenNotOpen(trace[k], m, calls[k].1, trace[k + 1], c);
  }

  // A FETCH or CLOSE of a cursor that isn't open.
  lemma InvalidWhenNotOpen(before: Moment, m: Module, call: Call, after: Moment, c: Id)
    requires Next(before, m, call, after) && call.UsesOpenCursor() && after.state.current == Some(c)
    requires !CursorIsOpen(before.state, c, m, call.i)
    ensures if UsedOn(after.state, m, c) then after.sqlstate == INVALID_CURSOR_STATE
            else NotSwitched(before.state, after.state, after.sqlstate)
  {
    hide PreparedKept, OthersStay, OtherSlotsStay, Keeps, Switched, RowFetched;
    if UsedOn(after.state, m, c) {
      var during :| Switched(before.state, during, m) && Effect(during, m, call, after.state, after.sqlstate);
      if CursorIsOpen(during, c, m, call.i) {
        SwitchedOpen(before.state, during, m, c, m, call.i);
      }
      if !call.CloseCursor? {
        FetchEffect(during, after.state, m, call, after.sqlstate);
        var exception, done :| Fetched(during, after.state, m, call.i, exception, done, after.sqlstate);
      }
    }
  }
}
