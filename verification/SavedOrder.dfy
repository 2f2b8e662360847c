/**
 What the server saves for the requests of a tab, which isn't always what it was asked last.
 */
module SavedOrder {
  import opened Wrappers
  import opened RequestLoop

  // The last request that the server answered with a preview, which it saved.
  function LastSaved(sent: seq<Request>): Option<nat> {
    if sent == [] then None
    else if sent[|sent| - 1].answer == Some(true) then Some(|sent| - 1)
    else LastSaved(sent[..|sent| - 1])
  }

  // A fetch has thrown before the server was done.
  predicate Abandons(s: State, e: Event) {
    e.Throw? && e.wait < |s.waits| && s.waits[e.wait].request < |s.sent| && s.sent[s.waits[e.wait].request].answer.None?
  }

  predicate NothingAbandoned(s: State, events: seq<Event>)
    requires IsRun(s, events)
    decreases |events|
  {
    events != [] ==> !Abandons(s, events[0]) && NothingAbandoned(Step(s, events[0]), events[1..])
  }

  ghost predicate InOrder(s: State) {
    && (forall i | 0 <= i < |s.sent| - 1 :: s.sent[i].answer.Some?)
    && (!s.sending && s.sent != [] ==> s.sent[|s.sent| - 1].answer.Some?)
    && s.saved == LastSaved(s.sent)
  }

  lemma LastSavedMore(sent: seq<Request>, r: Request)
    requires r.answer.None?
    ensures LastSaved(sent + [r]) == LastSaved(sent)
  {
    assert (sent + [r])[..|sent|] == sent;
  }

  lemma LastSavedAnswer(sent: seq<Request>, ok: bool)
    requires sent != [] && sent[|sent| - 1].answer.None?
    ensures var n := |sent| - 1;
      LastSaved(sent[n := sent[n].(answer := Some(ok))]) == if ok then Some(n) else LastSaved(sent)
  {
    var n := |sent| - 1;
    assert sent[n := sent[n].(answer := Some(ok))][..n] == sent[..n];
  }

  lemma InOrderStep(s: State, e: Event)
    requires Good(s) && InOrder(s) && CanHappen(s, e) && !Abandons(s, e)
    ensures InOrder(Step(s, e))
  {
    LastSavedMore(s.sent, Request(Step(s, e).form, Step(s, e).inputs, None));
    if e.Handle? {
      assert e.request == |s.sent| - 1;
      LastSavedAnswer(s.sent, e.ok);
    }
    hide LastSaved, Increasing;
  }

  lemma {:induction false} RunInOrder(s: State, events: seq<Event>)
    requires Good(s) && InOrder(s) && IsRun(s, events) && NothingAbandoned(s, events)
    ensures InOrder(Run(s, events)) && Good(Run(s, events))
    decreases |events|
  {
    if events != [] {
      StepKeeps(s, events[0]);
      InOrderStep(s, events[0]);
      RunInOrder(Step(s, events[0]), events[1..]);
    }
  }

  // What's saved is never older than what the server last answered with a preview, and it's the
  // latest contents when no request is in flight.
  lemma SavedIsLatest(page: Page, form: Form, events: seq<Event>)
    requires var s := Opened(page, form); IsRun(s, events) && NothingAbandoned(s, events) && NothingLost(s, events)
    ensures var s := Run(Opened(page, form), events);
      && s.saved == LastSaved(s.sent)
      && (!s.sending && s.sent != [] && s.sent[|s.sent| - 1].answer == Some(true) ==>
            s.saved == Some(|s.sent| - 1) && s.sent[s.saved.value].input == s.inputs)
  {
    RunInOrder(Opened(page, form), events);
    IdleIsLatest(page, form, events);
    if Run(Opened(page, form), events).sent != [] {
      assert Run(Opened(page, form), events).inputs > 0;
    }
  }

  // The server can still be doing a request whose fetch has thrown, and save it last.
  lemma AbandonedIsSavedLast(form: Form, next: Form, preview: Preview)
    ensures var events := [Input(form), Throw(0), Input(next), Handle(1, true), Respond(0), Read(0, preview, false),
      Handle(0, true)];
      var s := Opened(Export, form);
      && IsRun(s, events) && var t := Run(s, events);
      && !t.sending && !t.changed && LastSaved(t.sent) == Some(1) && t.saved == Some(0) && |t.sent| == 2
        && t.sent[0].body == form && t.sent[1].body == next
  {
    var s0 := Opened(Export, form);
    var s1 := Step(s0, Input(form));
    var s2 := Step(s1, Throw(0));
    var s3 := Step(s2, Input(next));
    var s4 := Step(s3, Handle(1, true));
    var s5 := Step(s4, Respond(0));
    var s6 := Step(s5, Read(0, preview, false));
    assert s3.waits == [Wait(1, false)] && s5.waits == [Wait(1, true)];
    RunNone(Step(s6, Handle(0, true)));
    hide Run, IsRun;
    RunFirst(s6, Handle(0, true), []);
    RunFirst(s5, Read(0, preview, false), [Handle(0, true)]);
    RunFirst(s4, Respond(0), [Read(0, preview, false), Handle(0, true)]);
    RunFirst(s3, Handle(1, true), [Respond(0), Read(0, preview, false), Handle(0, true)]);
    RunFirst(s2, Input(next), [Handle(1, true), Respond(0), Read(0, preview, false), Handle(0, true)]);
    RunFirst(s1, Throw(0), [Input(next), Handle(1, true), Respond(0), Read(0, preview, false), Handle(0, true)]);
    RunFirst(s0, Input(form),
      [Throw(0), Input(next), Handle(1, true), Respond(0), Read(0, preview, false), Handle(0, true)]);
  }

  lemma SavedInOrderIff(s: State, i: nat)
    requires CanHappen(s, Handle(i, true))
    ensures var t := Step(s, Handle(i, true));
      t.saved == LastSaved(t.sent) <==> forall j | i < j < |s.sent| :: s.sent[j].answer != Some(true)
  {
    var sent := Step(s, Handle(i, true)).sent;
    LastSavedIs(sent, i);
    assert forall j | i < j < |s.sent| :: sent[j] == s.sent[j];
  }

  lemma {:induction false} LastSavedIs(sent: seq<Request>, i: nat)
    requires i < |sent| && sent[i].answer == Some(true)
    ensures LastSaved(sent) == Some(i) <==> forall j | i < j < |sent| :: sent[j].answer != Some(true)
  {
    if sent[|sent| - 1].answer != Some(true) {
      LastSavedIs(sent[..|sent| - 1], i);
    }
  }

  // However it goes on without abandoning a request, what's saved is what was last answered with a
  // preview.
  ghost predicate StaysLatest(s: State) {
    forall more | IsRun(s, more) && NothingAbandoned(s, more) :: Run(s, more).saved == LastSaved(Run(s, more).sent)
  }

  lemma FailsBefore(s: State, e: Event)
    requires CanHappen(s, e) && !Abandons(s, e) && !StaysLatest(Step(s, e))
    ensures !StaysLatest(s)
  {
    var t := Step(s, e);
    var more :| IsRun(t, more) && NothingAbandoned(t, more) && Run(t, more).saved != LastSaved(Run(t, more).sent);
    RunFirst(s, e, more);
    assert ([e] + more)[1..] == more;
    assert NothingAbandoned(s, [e] + more);
  }

  // A request that the server isn't done with is saved after a later one.
  lemma LaterFails(s: State, i: nat, j: nat)
    requires i < j < |s.sent| && s.sent[i].answer.None? && s.sent[j].answer == Some(true)
    ensures !StaysLatest(s)
  {
    var t := Step(s, Handle(i, true));
    SavedInOrderIff(s, i);
    RunNone(t);
    assert NothingAbandoned(t, []);
    assert !StaysLatest(t);
    FailsBefore(s, Handle(i, true));
  }

  lemma IdleFails(s: State, i: nat)
    requires Good(s) && i < |s.sent| && s.sent[i].answer.None? && !s.sending
    ensures !StaysLatest(s)
  {
    var n := |s.sent|;
    var t := Step(s, Input(s.form));
    var u := Step(t, Handle(n, true));
    hide StaysLatest, Good;
    LaterFails(u, i, n);
    FailsBefore(t, Handle(n, true));
    FailsBefore(s, Input(s.form));
  }

  lemma SendingFails(s: State, i: nat)
    requires Good(s) && i < |s.sent| - 1 && s.sent[i].answer.None? && s.sending
    ensures !StaysLatest(s)
  {
    var n := |s.sent| - 1;
    hide StaysLatest, Increasing;
    if s.sent[n].answer == Some(true) {
      LaterFails(s, i, n);
    } else if s.sent[n].answer.None? {
      LaterFails(Step(s, Handle(n, true)), i, n);
      FailsBefore(s, Handle(n, true));
    } else {
      var t := Step(s, Input(s.form));
      var next := Step(t, Respond(0));
      LaterFails(Step(next, Handle(n + 1, true)), i, n + 1);
      FailsBefore(next, Handle(n + 1, true));
      FailsBefore(t, Respond(0));
      FailsBefore(s, Input(s.form));
    }
  }

  // It stays the latest exactly if it's that now, and the server is done with every request but the
  // one in flight.
  lemma StaysLatestIff(s: State)
    requires Good(s)
    ensures StaysLatest(s) <==> InOrder(s)
  {
    if InOrder(s) {
      forall more | IsRun(s, more) && NothingAbandoned(s, more)
        ensures Run(s, more).saved == LastSaved(Run(s, more).sent)
      {
        RunInOrder(s, more);
      }
    } else if s.saved != LastSaved(s.sent) {
      RunNone(s);
      assert NothingAbandoned(s, []);
    } else if s.sending {
      var i :| 0 <= i < |s.sent| - 1 && s.sent[i].answer.None?;
      SendingFails(s, i);
    } else {
      var i :| 0 <= i < |s.sent| && s.sent[i].answer.None?;
      IdleFails(s, i);
    }
  }

  // In every state of every run, an event ends this exactly if it's a fetch that throws before the
  // server was done.
  lemma EndsLatestIff(page: Page, form: Form, events: seq<Event>, e: Event)
    requires IsRun(Opened(page, form), events) && CanHappen(Run(Opened(page, form), events), e)
    ensures var s := Run(Opened(page, form), events);
      && (StaysLatest(s) ==> (StaysLatest(Step(s, e)) <==> !Abandons(s, e)))
      && (NothingAbandoned(Opened(page, form), events) ==> StaysLatest(s))
  {
    var s := Run(Opened(page, form), events);
    RunKeeps(Opened(page, form), events);
    if NothingAbandoned(Opened(page, form), events) {
      RunInOrder(Opened(page, form), events);
    }
    hide Run, IsRun, NothingAbandoned, StaysLatest, Good, InOrder, Step, Abandons;
    StaysLatestIff(s);
    EndsInOrder(s, e);
    StepKeeps(s, e);
    StaysLatestIff(Step(s, e));
  }

  lemma EndsInOrder(s: State, e: Event)
    requires Good(s) && CanHappen(s, e)
    ensures InOrder(s) ==> (InOrder(Step(s, e)) <==> !Abandons(s, e))
  {
    hide Increasing, LastSaved;
    if InOrder(s) && !Abandons(s, e) {
      InOrderStep(s, e);
    }
  }
}
