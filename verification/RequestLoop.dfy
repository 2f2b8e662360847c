/**
 How an IMPORT or EXPORT tab asks the server for a command, which keeps what it's asked with. A
 change while a request is in flight waits for its response, so that requests don't overtake each
 other.

 A call runs until it awaits, so it's resumed by an event for each thing it waits for. Any number of
 calls could be waiting: that it's only one has to be proved.
 */
module RequestLoop {
  import opened Wrappers

  datatype Page = Import | Export

  // The file is the one to import or to export to. There's a param for each "?" of an export.
  datatype Form = Form(choices: string, file: string, params: seq<string>)

  datatype Preview = Preview(command: string, file: string, paramCount: nat)

  // The input is how many times the form had been changed when it was sent. An answer is if it's ok.
  datatype Request = Request(body: Form, input: nat, answer: Option<bool>)

  // A call that waits for the response to its request, or is reading it.
  datatype Wait = Wait(request: nat, reading: bool)

  // The last request to be saved is a place in sent.
  datatype State = State(page: Page, form: Form, inputs: nat, chosen: string, hidden: bool,
                         sending: bool, changed: bool, updates: nat, command: string,
                         waits: seq<Wait>, sent: seq<Request>, saved: Option<nat>)

  datatype Event =
    | Input(form: Form)
    | Choose(file: string)
    | Handle(request: nat, ok: bool)
    | Respond(wait: nat)
    | Read(wait: nat, preview: Preview, focused: bool)
    | Throw(wait: nat)

  function Opened(page: Page, form: Form): State {
    State(page, form, 0, form.file, true, false, false, 0, "", [], [], None)
  }

  // The params that were there keep their text.
  function Params(params: seq<string>, count: nat): (r: seq<string>)
    ensures |r| == count && forall i | 0 <= i < count :: r[i] == if i < |params| then params[i] else ""
  {
    if count <= |params| then params[..count] else params + seq(count - |params|, _ => "")
  }

  // The request of a wait has been answered, unless it's only the network that fails.
  predicate CanHappen(s: State, e: Event) {
    match e
    case Input(_) => true
    case Choose(_) => s.page.Import?
    case Handle(i, _) => i < |s.sent| && s.sent[i].answer.None?
    case Respond(k) => k < |s.waits| && !s.waits[k].reading && s.waits[k].request < |s.sent|
      && s.sent[s.waits[k].request].answer.Some?
    case Read(k, _, _) => k < |s.waits| && s.waits[k].reading
    case Throw(k) => k < |s.waits|
  }

  // The call isn't waiting any more.
  function Resumed(s: State, k: nat): State
    requires k < |s.waits|
  {
    s.(waits := s.waits[..k] + s.waits[k + 1..])
  }

  // From the start of the loop until the call awaits or ends.
  function Loop(s: State): State {
    if s.changed then
      s.(changed := false, sent := s.sent + [Request(s.form, s.inputs, None)],
         waits := s.waits + [Wait(|s.sent|, false)])
    else s.(sending := false)
  }

  // The import shows the box with the command. The export also changes the form.
  function Show(s: State, preview: Preview, focused: bool): State {
    var form := if s.page.Import? then s.form
                else s.form.(file := if focused then s.form.file else preview.file,
                  params := Params(s.form.params, preview.paramCount));
    s.(form := form, command := preview.command, hidden := false, updates := s.updates + 1)
  }

  function Step(s: State, e: Event): State
    requires CanHappen(s, e)
  {
    match e
    case Input(form) =>
      var f := if s.page.Import? then form.(file := s.chosen) else form;
      var t := s.(form := f, inputs := s.inputs + 1, changed := true);
      if s.sending then t else Loop(t.(sending := true))
    case Choose(file) => s.(chosen := file, hidden := true)
    case Handle(i, ok) =>
      s.(sent := s.sent[i := s.sent[i].(answer := Some(ok))], saved := if ok then Some(i) else s.saved)
    case Respond(k) =>
      var t := Resumed(s, k);
      if s.changed || s.sent[s.waits[k].request].answer == Some(false) then Loop(t)
      else t.(waits := t.waits + [Wait(s.waits[k].request, true)])
    case Read(k, preview, focused) =>
      var t := Resumed(s, k);
      Loop(if s.changed then t else Show(t, preview, focused))
    case Throw(k) => Resumed(s, k).(sending := false)
  }

  predicate IsRun(s: State, events: seq<Event>)
    decreases |events|
  {
    events != [] ==> CanHappen(s, events[0]) && IsRun(Step(s, events[0]), events[1..])
  }

  function Run(s: State, events: seq<Event>): State
    requires IsRun(s, events)
    decreases |events|
  {
    if events == [] then s else Run(Step(s, events[0]), events[1..])
  }

  lemma RunFirst(s: State, e: Event, more: seq<Event>)
    requires CanHappen(s, e) && IsRun(Step(s, e), more)
    ensures IsRun(s, [e] + more) && Run(s, [e] + more) == Run(Step(s, e), more)
  {
    assert ([e] + more)[1..] == more;
  }

  lemma RunNone(s: State)
    ensures IsRun(s, []) && Run(s, []) == s
  {
  }

  // The page of a tab.
  class Tab {
    const page: Page
    var form: Form
    var chosen: string
    var hidden: bool
    var sending: bool
    var changed: bool
    var updates: nat
    var command: string
    var waits: seq<Wait>
    var sent: seq<Request>
    var inputs: nat
    ghost var saved: Option<nat>

    ghost function Now(): State
      reads this
    {
      State(page, form, inputs, chosen, hidden, sending, changed, updates, command, waits, sent, saved)
    }

    constructor (page: Page, form: Form)
      ensures Now() == Opened(page, form)
    {
      this.page, this.form, chosen, hidden := page, form, form.file, true;
      sending, changed, updates, command := false, false, 0, "";
      waits, sent, saved, inputs := [], [], None, 0;
    }

    method Continue()
      modifies this
      ensures Now() == Loop(old(Now()))
    {
      if changed {
        changed := false;
        waits := waits + [Wait(|sent|, false)];
        sent := sent + [Request(form, inputs, None)];
      } else {
        sending := false;
      }
    }

    method Update()
      modifies this
      ensures var t := old(Now()).(changed := true); Now() == if t.sending then t else Loop(t.(sending := true))
    {
      changed := true;
      if sending {
        return;
      }
      sending := true;
      Continue();
    }

    method Change(newForm: Form)
      modifies this
      ensures Now() == Step(old(Now()), Input(newForm))
    {
      form := if page.Import? then newForm.(file := chosen) else newForm;
      inputs := inputs + 1;
      Update();
    }

    method ChooseFile(file: string)
      requires page.Import?
      modifies this
      ensures Now() == Step(old(Now()), Choose(file))
    {
      chosen, hidden := file, true;
    }

    method Resume(k: nat)
      requires k < |waits|
      modifies this`waits
      ensures Now() == Resumed(old(Now()), k)
    {
      waits := waits[..k] + waits[k + 1..];
    }

    method OnResponse(k: nat)
      requires CanHappen(Now(), Respond(k))
      modifies this
      ensures Now() == Step(old(Now()), Respond(k))
    {
      var request := waits[k].request;
      Resume(k);
      if changed || sent[request].answer == Some(false) {
        Continue();
        return;
      }
      waits := waits + [Wait(request, true)];
    }

    method ShowParams(count: nat)
      modifies this`form
      ensures form == old(form).(params := Params(old(form.params), count))
    {
      var params := form.params;
      while |params| > count
        invariant params <= form.params && (|params| >= count || params == form.params)
      {
        params := params[..|params| - 1];
      }
      while |params| < count
        invariant |params| <= count && (|params| == count || |params| >= |form.params|)
        invariant forall i | 0 <= i < |params| :: params[i] == if i < |form.params| then form.params[i] else ""
      {
        params := params + [""];
      }
      assert params == Params(form.params, count);
      form := form.(params := params);
    }

    method OnPreview(k: nat, preview: Preview, focused: bool)
      requires CanHappen(Now(), Read(k, preview, focused))
      modifies this
      ensures Now() == Step(old(Now()), Read(k, preview, focused))
      ensures var shown := !old(changed);
        && command == (if shown then preview.command else old(command))
        && updates == old(updates) + (if shown then 1 else 0)
        && (shown ==> !hidden)
      ensures form.choices == old(form.choices)
      ensures form.file == if page.Export? && !old(changed) && !focused then preview.file else old(form.file)
      ensures form.params == old(form.params) || (page.Export? && !old(changed))
      ensures page.Export? && !old(changed) ==>
        |form.params| == preview.paramCount && forall i | 0 <= i < |form.params| ::
          form.params[i] == if i < |old(form.params)| then old(form.params)[i] else ""
      ensures sent == if old(changed) then old(sent) + [Request(form, inputs, None)] else old(sent)
    {
      Resume(k);
      if changed {
        Continue();
        return;
      }
      command, hidden := preview.command, false;
      if page.Export? {
        if !focused {
          form := form.(file := preview.file);
        }
        ShowParams(preview.paramCount);
      }
      updates := updates + 1;
      Continue();
    }

    method OnThrow(k: nat)
      requires CanHappen(Now(), Throw(k))
      modifies this
      ensures Now() == Step(old(Now()), Throw(k))
    {
      Resume(k);
      sending := false;
    }
  }

  // How many times the form had been changed when it was last sent.
  function LastInput(sent: seq<Request>): nat {
    if sent == [] then 0 else sent[|sent| - 1].input
  }

  // Nothing is sent again.
  ghost predicate Increasing(sent: seq<Request>) {
    && (forall i, j | 0 <= i < j < |sent| :: sent[i].input < sent[j].input)
    && (forall i | 0 <= i < |sent| :: 0 < sent[i].input)
  }

  // The form has changed since the last request exactly when changed is true.
  ghost predicate Follows(s: State) {
    && Increasing(s.sent) && LastInput(s.sent) <= s.inputs
    && (s.changed <==> LastInput(s.sent) < s.inputs)
  }

  // Only one request is in flight, which is the last. It has what's in the form, unless that has
  // changed.
  ghost predicate Good(s: State) {
    && Follows(s) && |s.waits| == (if s.sending then 1 else 0)
    && (s.sending ==> s.sent != [] && s.waits[0].request == |s.sent| - 1)
    && (s.sending && !s.changed ==> s.sent[|s.sent| - 1].body == s.form)
    && (s.sending && s.waits[0].reading ==> s.sent[|s.sent| - 1].answer == Some(true))
  }

  lemma LoopKeeps(s: State)
    requires s.waits == [] && s.sending && Follows(s)
    ensures Good(Loop(s))
  {
    if s.changed {
      var r := Request(s.form, s.inputs, None);
      forall i | 0 <= i < |s.sent| ensures s.sent[i].input < r.input {
        assert i < |s.sent| - 1 ==> s.sent[i].input < s.sent[|s.sent| - 1].input;
      }
      assert Increasing(s.sent + [r]);
    }
  }

  lemma HandleKeeps(s: State, i: nat, ok: bool)
    requires Good(s) && CanHappen(s, Handle(i, ok))
    ensures Good(Step(s, Handle(i, ok)))
  {
    var sent := Step(s, Handle(i, ok)).sent;
    assert forall j | 0 <= j < |sent| :: sent[j].input == s.sent[j].input && sent[j].body == s.sent[j].body;
    assert Increasing(sent);
  }

  lemma SomeBool(o: Option<bool>)
    requires o.Some?
    ensures o == Some(true) || o == Some(false)
  {
    if o.value {
      assert o == Some(true);
    } else {
      assert o == Some(false);
    }
  }

  lemma StepKeeps(s: State, e: Event)
    requires Good(s) && CanHappen(s, e)
    ensures Good(Step(s, e))
  {
    hide Increasing;
    match e
    case Input(form) =>
      if !s.sending {
        var f := if s.page.Import? then form.(file := s.chosen) else form;
        LoopKeeps(s.(form := f, inputs := s.inputs + 1, changed := true, sending := true));
      }
    case Choose(_) =>
    case Handle(i, ok) => HandleKeeps(s, i, ok);
    case Respond(k) =>
      assert Resumed(s, k).waits == [];
      if s.changed || s.sent[s.waits[k].request].answer == Some(false) {
        LoopKeeps(Resumed(s, k));
      } else {
        SomeBool(s.sent[s.waits[k].request].answer);
      }
    case Read(k, preview, focused) =>
      assert Resumed(s, k).waits == [];
      LoopKeeps(if s.changed then Resumed(s, k) else Show(Resumed(s, k), preview, focused));
    case Throw(k) =>
      assert Resumed(s, k).waits == [];
  }

  lemma {:induction false} RunKeeps(s: State, events: seq<Event>)
    requires Good(s) && IsRun(s, events)
    ensures Good(Run(s, events))
    decreases |events|
  {
    if events != [] {
      StepKeeps(s, events[0]);
      RunKeeps(Step(s, events[0]), events[1..]);
    }
  }

  // However edits and responses interleave, at most one request is in flight, and no contents are
  // sent twice. When none is in flight, the last one had the latest contents unless changed is
  // still true.
  lemma OneInFlight(page: Page, form: Form, events: seq<Event>)
    requires IsRun(Opened(page, form), events)
    ensures var s := Run(Opened(page, form), events);
      && |s.waits| <= 1 && (s.waits == [] <==> !s.sending) && |s.sent| <= s.inputs
      && (!s.sending && s.inputs > 0 ==> (s.changed <==> s.sent == [] || s.sent[|s.sent| - 1].input < s.inputs))
  {
    RunKeeps(Opened(page, form), events);
    SentAtMost(Run(Opened(page, form), events).sent);
  }

  lemma {:induction false} SentAtMost(sent: seq<Request>)
    requires Increasing(sent)
    ensures |sent| <= LastInput(sent)
  {
    if |sent| > 1 {
      SentAtMost(sent[..|sent| - 1]);
    }
  }

  // A preview is shown exactly when the form hasn't changed since its request, so it's for what the
  // form has now.
  lemma ShownIsCurrent(page: Page, form: Form, events: seq<Event>, e: Event)
    requires IsRun(Opened(page, form), events) && CanHappen(Run(Opened(page, form), events), e)
    ensures var s := Run(Opened(page, form), events);
      if e.Read? then
        s.waits[e.wait].request < |s.sent| &&
        var r := s.sent[s.waits[e.wait].request];
        && Step(s, e).updates == (if r.input == s.inputs then s.updates + 1 else s.updates)
        && (r.input == s.inputs ==> r.body == s.form && Step(s, e).command == e.preview.command)
        && (r.input != s.inputs ==> Step(s, e).command == s.command)
      else Step(s, e).updates == s.updates && Step(s, e).command == s.command
  {
    RunKeeps(Opened(page, form), events);
    hide Run, IsRun, Good, Step;
    ShownOnce(Run(Opened(page, form), events), e);
  }

  lemma ShownOnce(s: State, e: Event)
    requires Good(s) && CanHappen(s, e)
    ensures if e.Read? then
        s.waits[e.wait].request < |s.sent| &&
        var r := s.sent[s.waits[e.wait].request];
        && Step(s, e).updates == (if r.input == s.inputs then s.updates + 1 else s.updates)
        && (r.input == s.inputs ==> r.body == s.form && Step(s, e).command == e.preview.command)
        && (r.input != s.inputs ==> Step(s, e).command == s.command)
      else Step(s, e).updates == s.updates && Step(s, e).command == s.command
  {
    hide Increasing;
  }

  // A fetch has thrown while the form had changed.
  predicate Loses(s: State, e: Event) {
    e.Throw? && s.changed
  }

  predicate NothingLost(s: State, events: seq<Event>)
    requires IsRun(s, events)
    decreases |events|
  {
    events != [] ==> !Loses(s, events[0]) && NothingLost(Step(s, events[0]), events[1..])
  }

  lemma {:induction false} StaysUnchanged(s: State, events: seq<Event>)
    requires IsRun(s, events) && NothingLost(s, events) && (!s.sending ==> !s.changed)
    ensures !Run(s, events).sending ==> !Run(s, events).changed
    decreases |events|
  {
    if events != [] {
      StaysUnchanged(Step(s, events[0]), events[1..]);
    }
  }

  // When no request is in flight, the last one had the latest contents, if no fetch has thrown
  // while the form had changed.
  lemma IdleIsLatest(page: Page, form: Form, events: seq<Event>)
    requires IsRun(Opened(page, form), events) && NothingLost(Opened(page, form), events)
    ensures var s := Run(Opened(page, form), events);
      !s.sending && s.inputs > 0 ==> s.sent != [] && s.sent[|s.sent| - 1].input == s.inputs
  {
    RunKeeps(Opened(page, form), events);
    StaysUnchanged(Opened(page, form), events);
  }

  // After a fetch has thrown, the last request is the latest exactly if the form hadn't changed.
  // Otherwise nothing is sent until it's changed again, and then all of it is.
  lemma LostUntilChanged(page: Page, form: Form, events: seq<Event>, k: nat, next: Form)
    requires IsRun(Opened(page, form), events) && CanHappen(Run(Opened(page, form), events), Throw(k))
    ensures var s := Run(Opened(page, form), events); var t := Step(s, Throw(k)); var u := Step(t, Input(next));
      && t.waits == [] && t.sent != [] && t.sent == s.sent
      && (t.sent[|t.sent| - 1].input == t.inputs <==> !Loses(s, Throw(k)))
      && u.sent == t.sent + [Request(u.form, t.inputs + 1, None)] && u.inputs == t.inputs + 1
  {
    RunKeeps(Opened(page, form), events);
    hide Run, IsRun, Good, Step;
    LostAt(Run(Opened(page, form), events), k, next);
  }

  lemma LostAt(s: State, k: nat, next: Form)
    requires Good(s) && CanHappen(s, Throw(k))
    ensures var t := Step(s, Throw(k)); var u := Step(t, Input(next));
      && t.waits == [] && t.sent != [] && t.sent == s.sent
      && (t.sent[|t.sent| - 1].input == t.inputs <==> !Loses(s, Throw(k)))
      && u.sent == t.sent + [Request(u.form, t.inputs + 1, None)] && u.inputs == t.inputs + 1
  {
    hide Increasing;
  }

  // All that changed while a request is in flight is one more request.
  lemma {:induction false} Coalesces(s: State, forms: seq<Form>)
    requires Good(s) && s.sending && forms != []
    ensures var events := seq(|forms|, i requires 0 <= i < |forms| => Input(forms[i]));
      && IsRun(s, events) && var t := Run(s, events);
      && t.sent == s.sent && t.waits == s.waits && t.changed && t.inputs == s.inputs + |forms|
    decreases |forms|
  {
    var events := seq(|forms|, i requires 0 <= i < |forms| => Input(forms[i]));
    var t := Step(s, events[0]);
    StepKeeps(s, events[0]);
    var more := seq(|forms| - 1, i requires 0 <= i < |forms| - 1 => Input(forms[1..][i]));
    assert events[1..] == more;
    if |forms| > 1 {
      Coalesces(t, forms[1..]);
    }
  }

  // Whatever has changed, the call ends after at most one more request, and shows its preview.
  lemma Settles(s: State, preview: Preview)
    requires Good(s) && s.sending && !s.waits[0].reading && s.sent[|s.sent| - 1].answer.None?
    ensures var n := |s.sent| - 1;
      var answer := [Handle(n, true), Respond(0)] + if s.changed then [Handle(n + 1, true), Respond(0)] else [];
      && IsRun(s, answer + [Read(0, preview, false)]) && var t := Run(s, answer + [Read(0, preview, false)]);
      && !t.sending && !t.changed && t.updates == s.updates + 1 && t.command == preview.command && !t.hidden
      && LastInput(t.sent) == t.inputs == s.inputs && |t.sent| == if s.changed then n + 2 else n + 1
  {
    var n := |s.sent| - 1;
    var handled := Step(s, Handle(n, true));
    var next := Step(handled, Respond(0));
    HandleKeeps(s, n, true);
    StepKeeps(handled, Respond(0));
    hide Run, IsRun, Increasing;
    if s.changed {
      SettlesUnchanged(next, preview);
      RunFirst(handled, Respond(0), [Handle(n + 1, true), Respond(0), Read(0, preview, false)]);
      RunFirst(s, Handle(n, true), [Respond(0)] + [Handle(n + 1, true), Respond(0), Read(0, preview, false)]);
      assert [Handle(n, true)] + ([Respond(0)] + [Handle(n + 1, true), Respond(0), Read(0, preview, false)]) ==
             [Handle(n, true), Respond(0)] + [Handle(n + 1, true), Respond(0)] + [Read(0, preview, false)];
    } else {
      SettlesUnchanged(s, preview);
      assert [Handle(n, true), Respond(0), Read(0, preview, false)] ==
             [Handle(n, true), Respond(0)] + [] + [Read(0, preview, false)];
    }
  }

  lemma SettlesUnchanged(s: State, preview: Preview)
    requires Good(s) && s.sending && !s.changed && !s.waits[0].reading && s.sent[|s.sent| - 1].answer.None?
    ensures var n := |s.sent| - 1;
      var events := [Handle(n, true), Respond(0), Read(0, preview, false)];
      && IsRun(s, events) && var t := Run(s, events);
      && !t.sending && !t.changed && t.updates == s.updates + 1 && t.command == preview.command && !t.hidden
      && LastInput(t.sent) == t.inputs == s.inputs && |t.sent| == n + 1
  {
    var n := |s.sent| - 1;
    var handled := Step(s, Handle(n, true));
    var reading := Step(handled, Respond(0));
    var read := Step(reading, Read(0, preview, false));
    RunNone(read);
    hide Run, IsRun;
    RunFirst(reading, Read(0, preview, false), []);
    RunFirst(handled, Respond(0), [Read(0, preview, false)]);
    RunFirst(s, Handle(n, true), [Respond(0), Read(0, preview, false)]);
  }

  // The file that was chosen after the last change of the form. (A change of the form has the file
  // that's chosen.)
  function Pending(pending: Option<string>, events: seq<Event>): Option<string>
    decreases |events|
  {
    if events == [] then pending else Pending(PendingAfter(pending, events[0]), events[1..])
  }

  function PendingAfter(pending: Option<string>, e: Event): Option<string> {
    match e
    case Input(_) => None
    case Choose(file) => Some(file)
    case _ => pending
  }

  lemma {:induction false} PendingIs(s: State, pending: Option<string>, events: seq<Event>)
    requires s.page.Import? && IsRun(s, events)
    requires s.chosen == if pending.Some? then pending.value else s.form.file
    ensures var t := Run(s, events);
      t.page.Import? && t.chosen ==
        if Pending(pending, events).Some? then Pending(pending, events).value else t.form.file
    decreases |events|
  {
    if events != [] {
      PendingStep(s, pending, events[0]);
      PendingIs(Step(s, events[0]), PendingAfter(pending, events[0]), events[1..]);
    }
  }

  lemma PendingStep(s: State, pending: Option<string>, e: Event)
    requires s.page.Import? && CanHappen(s, e)
    requires s.chosen == if pending.Some? then pending.value else s.form.file
    ensures var t := Step(s, e); var after := PendingAfter(pending, e);
      t.page.Import? && t.chosen == if after.Some? then after.value else t.form.file
  {
  }

  predicate ShowsOtherFile(s: State, e: Event)
    requires CanHappen(s, e)
  {
    var t := Step(s, e);
    && e.Read? && t.updates > s.updates && !t.hidden && s.waits[e.wait].request < |s.sent|
    && s.sent[s.waits[e.wait].request].body.file != t.chosen
  }

  // A preview is shown for a file that isn't the one that's chosen exactly if another file was
  // chosen after the form last changed.
  lemma ShowsOtherFileIff(form: Form, events: seq<Event>, e: Event)
    requires IsRun(Opened(Import, form), events) && CanHappen(Run(Opened(Import, form), events), e)
    ensures var s := Run(Opened(Import, form), events); var pending := Pending(None, events);
      && (ShowsOtherFile(s, e) <==> e.Read? && !s.changed && s.form.file != s.chosen)
      && (s.form.file != s.chosen <==> pending.Some? && pending.value != s.form.file)
  {
    RunKeeps(Opened(Import, form), events);
    PendingIs(Opened(Import, form), None, events);
    hide Run, IsRun, Good, Pending, Step, ShowsOtherFile;
    ShowsOtherAt(Run(Opened(Import, form), events), e);
  }

  lemma ShowsOtherAt(s: State, e: Event)
    requires Good(s) && s.page.Import? && CanHappen(s, e)
    ensures ShowsOtherFile(s, e) <==> e.Read? && !s.changed && s.form.file != s.chosen
  {
    hide Increasing;
  }

  // The box is shown for the file before the one that's chosen, if that was chosen while the
  // preview was being read.
  lemma ShownForOtherFile(form: Form, other: string, preview: Preview)
    requires other != form.file
    ensures var events := [Input(form), Handle(0, true), Respond(0), Choose(other), Read(0, preview, false)];
      var s := Opened(Import, form);
      && IsRun(s, events) && var t := Run(s, events);
      && !t.hidden && t.command == preview.command && |t.sent| == 1 && t.sent[0].body.file != t.chosen
  {
    var s0 := Opened(Import, form);
    var s1 := Step(s0, Input(form));
    var s2 := Step(s1, Handle(0, true));
    var s3 := Step(s2, Respond(0));
    var s4 := Step(s3, Choose(other));
    RunNone(Step(s4, Read(0, preview, false)));
    hide Run, IsRun;
    RunFirst(s4, Read(0, preview, false), []);
    RunFirst(s3, Choose(other), [Read(0, preview, false)]);
    RunFirst(s2, Respond(0), [Choose(other), Read(0, preview, false)]);
    RunFirst(s1, Handle(0, true), [Respond(0), Choose(other), Read(0, preview, false)]);
    RunFirst(s0, Input(form), [Handle(0, true), Respond(0), Choose(other), Read(0, preview, false)]);
  }
}
