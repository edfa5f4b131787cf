/**
  Whole runs of the socket container: what holds after every sequence of steps, when libuv aborts, what
  ids mean, and when the container may be destroyed.
 */
module SocketRuns {
  import opened KsBuffer
  import opened Sockets

  // ---------------------------------------------------------------------------------------------
  // Runs

  /** The map of all keys to one value. */
  function AllTo<K(==), V>(keys: seq<K>, v: V): (m: map<K, V>)
    ensures forall k :: k in keys ==> k in m
    ensures forall k :: k in m ==> k in keys && m[k] == v
  {
    if keys == [] then map[] else AllTo(keys[1..], v)[keys[0] := v]
  }

  /** `INIT_KS_SOCKET_CONTAINER`, with the objects it has created on the three pool lists. */
  function Init(contexts: seq<Context>, buffers: seq<Buffer>, reqs: seq<WriteReq>): State {
    State(AllTo(contexts, ZERO), [], contexts, map[], 1, AllTo(buffers, Pooled(0, 0, 0)), buffers, [], map[], reqs, {})
  }

  lemma InitInv(contexts: seq<Context>, buffers: seq<Buffer>, reqs: seq<WriteReq>)
    requires NoDup(contexts) && NoDup(buffers) && NoDup(reqs)
    ensures Inv(Init(contexts, buffers, reqs))
  {
    var s := Init(contexts, buffers, reqs);
    forall b | b in s.bufs ensures Carried(s.reqs, b) == 0 { assert Carriers(s.reqs, b) == {}; }
  }

  /** `steps` can happen one after the other from `s`; a failed assertion or an abort ends the run. */
  ghost predicate Execution(s: State, steps: seq<Step>)
    decreases |steps|
  {
    steps == []
    || (Enabled(s, steps[0]) && Resolved(s, steps[0])
        && (Perform(s, steps[0]).Ok? ==> Execution(Perform(s, steps[0]).value, steps[1..])))
  }

  ghost function After(s: State, steps: seq<Step>): Outcome<State>
    requires Execution(s, steps)
    decreases |steps|
  {
    if steps == [] then Ok(s)
    else
      match Perform(s, steps[0])
      case Ok(t) => After(t, steps[1..])
      case AssertionFailed => AssertionFailed
      case UvAbort => UvAbort
  }

  /** The steps can be taken from a fresh container with these objects, and none of them ends the run. */
  ghost predicate Possible(contexts: seq<Context>, buffers: seq<Buffer>, reqs: seq<WriteReq>, steps: seq<Step>) {
    && NoDup(contexts) && NoDup(buffers) && NoDup(reqs)
    && Execution(Init(contexts, buffers, reqs), steps) && After(Init(contexts, buffers, reqs), steps).Ok?
  }

  /** Where they lead. */
  ghost function Reached(contexts: seq<Context>, buffers: seq<Buffer>, reqs: seq<WriteReq>, steps: seq<Step>): State
    requires Possible(contexts, buffers, reqs, steps)
  {
    After(Init(contexts, buffers, reqs), steps).value
  }

  /** A run that has got to `t` goes on with one more step. */
  lemma {:induction false} OneMoreStep(s: State, steps: seq<Step>, t: State, step: Step)
    requires Execution(s, steps) && After(s, steps) == Ok(t) && Enabled(t, step) && Resolved(t, step)
    ensures Execution(s, steps + [step]) && After(s, steps + [step]) == Perform(t, step)
    decreases |steps|
  {
    hide Enabled, Resolved, Perform;
    if steps == [] {
      assert [] + [step] == [step] && [step][1..] == [];
    } else {
      OneMoreStep(Perform(s, steps[0]).value, steps[1..], t, step);
      assert (steps + [step])[1..] == steps[1..] + [step];
    }
  }

  /** In every run the assertions of `ks_socket_derefernece` hold, and so does the invariant. */
  lemma {:induction false} RunsAreSafe(s: State, steps: seq<Step>)
    requires Inv(s) && Execution(s, steps)
    ensures !After(s, steps).AssertionFailed? && (After(s, steps).Ok? ==> Inv(After(s, steps).value))
    decreases |steps|
  {
    hide Inv, Enabled;
    if steps != [] {
      StepIsFine(s, steps[0]);
      if Perform(s, steps[0]).Ok? { RunsAreSafe(Perform(s, steps[0]).value, steps[1..]); }
    }
  }

  lemma ReachedInv(contexts: seq<Context>, buffers: seq<Buffer>, reqs: seq<WriteReq>, steps: seq<Step>)
    requires Possible(contexts, buffers, reqs, steps)
    ensures Inv(Reached(contexts, buffers, reqs, steps))
  {
    hide Execution, After, Inv;
    InitInv(contexts, buffers, reqs);
    RunsAreSafe(Init(contexts, buffers, reqs), steps);
  }

  // ---------------------------------------------------------------------------------------------
  // When libuv aborts

  /** The two things that leave a handle closing while some later call would still close it. */
  predicate Careless(s: State, step: Step)
    requires Resolved(s, step)
  {
    match step
    case Send(c, _, _, ok) => s.ctxs[c].status.Established? && !ok
    case ReadEnd(c) => s.ctxs[c].status.ShuttingDown?
    case _ => false
  }

  ghost predicate Careful(s: State, steps: seq<Step>)
    requires Execution(s, steps)
    decreases |steps|
  {
    steps == []
    || (!Careless(s, steps[0])
        && (Perform(s, steps[0]).Ok? ==> Careful(Perform(s, steps[0]).value, steps[1..])))
  }

  predicate CalmFields(f: Fields) { f.handle.InClose? ==> !f.status.Established? && !f.shutting }

  /** Nothing would close a closing handle. */
  ghost predicate Calm(s: State) { forall c :: c in s.ctxs ==> CalmFields(s.ctxs[c]) }

  lemma CalmMeansSingleClose(s: State, step: Step)
    requires Calm(s) && Enabled(s, step) && Resolved(s, step)
    ensures !ClosesTwice(s, step)
  {
    match step {
      case CloseCall(c) => assert CalmFields(s.ctxs[c]);
      case ShutdownCall(c, ok) => assert CalmFields(s.ctxs[c]);
      case Send(c, _, _, ok) => assert CalmFields(s.ctxs[c]);
      case ShutdownDone(c) => assert CalmFields(s.ctxs[c]);
      case _ =>
    }
  }

  predicate BufferStep(step: Step) {
    step.BufferAcquire? || step.BufferRef? || step.BufferDeref? || step.BufferWrite?
  }

  /** What only concerns a buffer leaves the rest alone, and forgets no buffer. */
  lemma BufferStepSpares(s: State, step: Step)
    requires Resolved(s, step) && BufferStep(step)
    ensures Perform(s, step).Ok?
    ensures var t := Perform(s, step).value;
      t == s.(bufs := t.bufs, free := t.free, using := t.using) && forall b :: b in s.bufs ==> b in t.bufs
  {
    hide Remove;
  }

  lemma DereferenceCalm(s: State, c: Context)
    requires Calm(s) && c in s.ctxs && Dereference(s, c).Ok?
    ensures Calm(Dereference(s, c).value)
  {
  }

  lemma DetachCalm(s: State, r: WriteReq)
    requires Calm(s) && r in s.reqs && s.reqs[r].context in s.ctxs && s.reqs[r].buffer in s.bufs && Detach(s, r).Ok?
    ensures Calm(Detach(s, r).value)
  {
    var Claim(c, b) := s.reqs[r];
    var t := BufferDereference(Unlist(s, r, c), b);
    assert Calm(t);
    DereferenceCalm(t, c);
  }

  lemma PutCalm(s: State, c: Context, f: Fields)
    requires Calm(s) && CalmFields(f)
    ensures Calm(Put(s, c, f))
  {
  }

  lemma CloseCalm(s: State, c: Context, f: Fields)
    requires Calm(s) && c in s.ctxs && !f.shutting && CloseHandle(Put(s, c, f), c).Ok?
    ensures Calm(CloseHandle(Put(s, c, f), c).value)
  {
    hide Calm;
    PutTwice(s, c, f, f.(status := Closing));
    PutTwice(s, c, f.(status := Closing), f.(status := Closing, handle := InClose));
    PutCalm(s, c, f.(status := Closing, handle := InClose));
  }

  lemma AttachCalm(s: State, c: Context, b: Buffer, spare: WriteReq)
    requires Calm(s) && c in s.ctxs && b in s.bufs
    ensures Calm(Attach(s, c, b, spare))
  {
  }

  lemma OpeningStaysCalm(s: State, step: Step)
    requires Calm(s) && Enabled(s, step) && OpensHandle(step) && Resolved(s, step) && !Careless(s, step)
    requires Perform(s, step).Ok? && ContextOk(s.ctxs[step.c])
    ensures Calm(Perform(s, step).value)
  {
    hide Calm;
    var c, f := step.c, s.ctxs[step.c];
    PutSame(s, c);
    match step {
      case InitHandle(_, ok) =>
        PutCalm(s, c, f.(status := Initialized, handle := Open));
        PutCalm(s, c, f.(handle := Gone));
        if !ok { DereferenceCalm(Put(s, c, f.(handle := Gone)), c); }
      case Bind(_, ok) => if ok { PutCalm(s, c, f.(status := Listen)); } else { CloseCalm(s, c, f); }
      case Connect(_, ok) =>
        if ok { PutCalm(s, c, f.(status := Connecting, connecting := true)); } else { CloseCalm(s, c, f); }
      case Accept(_, ok) => if ok { PutCalm(s, c, f.(status := Established)); } else { CloseCalm(s, c, f); }
      case Connected(_, ok, reading) =>
        var g := f.(connecting := false);
        PutTwice(s, c, g, g.(status := Established));
        PutTwice(s, c, g, Greet(g.(status := Established)));
        if !ok { CloseCalm(s, c, g); }
        else if reading { PutCalm(s, c, Greet(g.(status := Established))); }
        else { CloseCalm(s, c, g.(status := Established)); }
      case Welcome(_) => PutCalm(s, c, Greet(f));
      case ReadRefused(_) => CloseCalm(s, c, f);
      case ReadEnd(_) => CloseCalm(s, c, Farewell(f));
    }
  }

  lemma ClosingStaysCalm(s: State, step: Step)
    requires Calm(s) && Enabled(s, step) && (step.CloseCall? || step.ShutdownCall? || step.ShutdownDone?)
      && Resolved(s, step)
    requires Perform(s, step).Ok? && ContextOk(s.ctxs[step.c])
    ensures Calm(Perform(s, step).value)
  {
    hide Calm;
    var c, f := step.c, s.ctxs[step.c];
    PutSame(s, c);
    match step {
      case CloseCall(_) =>
        if f.status.Established? { CloseCalm(s, c, f.(closeNotify := true)); }
        else if f.status.Listen? { CloseCalm(s, c, f); }
      case ShutdownCall(_, ok) =>
        if f.status.Established? {
          if ok { PutCalm(s, c, f.(status := ShuttingDown, shutting := true)); }
          else { CloseCalm(s, c, f.(closeNotify := true)); }
        }
      case ShutdownDone(_) =>
        CloseCalm(s, c, Farewell(f.(shutting := false, status := Shutdown)));
    }
  }

  lemma StepStaysCalm(s: State, step: Step)
    requires Calm(s) && Inv(s) && Enabled(s, step) && Resolved(s, step) && !Careless(s, step) && Perform(s, step).Ok?
    ensures Calm(Perform(s, step).value)
  {
    hide Inv, ContextsOk, ListsOk, WritesOk, BuffersOk, TableOk;
    if OpensHandle(step) {
      InvContext(s, step.c);
      OpeningStaysCalm(s, step);
    } else if step.CloseCall? || step.ShutdownCall? || step.ShutdownDone? {
      InvContext(s, step.c);
      ClosingStaysCalm(s, step);
    } else {
      PoolStepStaysCalm(s, step);
    }
  }

  lemma PoolStepStaysCalm(s: State, step: Step)
    requires Calm(s) && Resolved(s, step) && !Careless(s, step) && Perform(s, step).Ok?
    requires !OpensHandle(step) && !step.CloseCall? && !step.ShutdownCall? && !step.ShutdownDone?
    ensures Calm(Perform(s, step).value)
  {
    if BufferStep(step) {
      hide Perform;
      BufferStepSpares(s, step);
      return;
    }
    match step {
      case Send(c, b, spare, ok) => if s.ctxs[c].status.Established? { AttachCalm(s, c, b, spare); }
      case Written(r) => DetachCalm(s, r);
      case AfterClose(c) => DereferenceCalm(Put(s, c, Ended(s.ctxs[c])), c);
      case UserDeref(c) => DereferenceCalm(ReleaseContext(s, c), c);
      case _ =>
    }
  }

  /** libuv never aborts in a run without a refused write and without a read ending during a shutdown. */
  lemma {:induction false} CarefulRunsNeverAbort(s: State, steps: seq<Step>)
    requires Inv(s) && Calm(s) && Execution(s, steps) && Careful(s, steps)
    ensures After(s, steps).Ok?
    decreases |steps|
  {
    hide Inv, Calm, Enabled, Careless;
    if steps != [] {
      StepIsFine(s, steps[0]);
      CalmMeansSingleClose(s, steps[0]);
      StepStaysCalm(s, steps[0]);
      CarefulRunsNeverAbort(Perform(s, steps[0]).value, steps[1..]);
    }
  }

  /** And each of the two does lead to an abort: of the very next close by the user, ... */
  lemma RefusedWriteThenClose(s: State, c: Context, b: Buffer, spare: WriteReq)
    requires Inv(s) && Enabled(s, Send(c, b, spare, false)) && b in s.bufs
    requires s.ctxs[c].status.Established? && s.ctxs[c].handle.Open?
    ensures Execution(s, [Send(c, b, spare, false), CloseCall(c)])
    ensures After(s, [Send(c, b, spare, false), CloseCall(c)]) == UvAbort
  {
    hide Inv, PerformSend;
    assert ContextOk(s.ctxs[c]) && s.bufs[b].refcount >= 1 by { InvContext(s, c); UsedInInv(s, b); }
    RefusedResult(s, c, b, spare);
    SecondAborts(s, Send(c, b, spare, false), CloseCall(c));
  }

  lemma SecondAborts(s: State, first: Step, second: Step)
    requires Enabled(s, first) && Resolved(s, first) && Perform(s, first).Ok?
    requires Enabled(Perform(s, first).value, second) && Resolved(Perform(s, first).value, second)
    requires Perform(Perform(s, first).value, second).UvAbort?
    ensures Execution(s, [first, second]) && After(s, [first, second]) == UvAbort
  {
    hide Enabled, Resolved, Perform;
    assert [first, second][1..] == [second] && [second][1..] == [];
  }

  lemma UsedInInv(s: State, b: Buffer)
    requires Inv(s) && b in s.using && b in s.bufs
    ensures s.bufs[b].refcount >= 1
  {
    hide ContextsOk, ListsOk, WritesOk, TableOk;
    UsedBuffer(s, b);
  }

  lemma ReadEndResult(s: State, c: Context)
    requires c in s.ctxs && s.ctxs[c].handle.Open?
    ensures Perform(s, ReadEnd(c)) == Ok(Put(s, c, Farewell(s.ctxs[c]).(status := Closing, handle := InClose)))
  {
    var f := Farewell(s.ctxs[c]);
    PutTwice(s, c, f, f.(status := Closing));
    PutTwice(s, c, f.(status := Closing), f.(status := Closing, handle := InClose));
  }

  lemma ClosingAborts(s: State, c: Context)
    requires c in s.ctxs && s.ctxs[c].handle.InClose?
    ensures Perform(s, ShutdownDone(c)).UvAbort?
  {
  }

  /** ... and of the shutdown callback, which libuv delivers before it can deliver the close callback. */
  lemma ReadEndThenShutdownDone(s: State, c: Context)
    requires Inv(s) && Enabled(s, ReadEnd(c)) && s.ctxs[c].status.ShuttingDown?
    ensures Execution(s, [ReadEnd(c), ShutdownDone(c)])
    ensures After(s, [ReadEnd(c), ShutdownDone(c)]) == UvAbort
    ensures !Enabled(Perform(s, ReadEnd(c)).value, AfterClose(c))
  {
    hide ContextsOk, ListsOk, WritesOk, BuffersOk, TableOk, Inv, Perform;
    assert ContextOk(s.ctxs[c]) by { InvContext(s, c); }
    ReadEndResult(s, c);
    ClosingAborts(Perform(s, ReadEnd(c)).value, c);
    SecondAborts(s, ReadEnd(c), ShutdownDone(c));
  }

  // ---------------------------------------------------------------------------------------------
  // Such runs exist, and nothing else aborts

  lemma InitCalm(contexts: seq<Context>, buffers: seq<Buffer>, reqs: seq<WriteReq>)
    ensures Calm(Init(contexts, buffers, reqs))
  {
  }

  /** The runs of a fresh container that avoid the two careless steps never end in an abort. */
  lemma CarefulFromInit(contexts: seq<Context>, buffers: seq<Buffer>, reqs: seq<WriteReq>, steps: seq<Step>)
    requires NoDup(contexts) && NoDup(buffers) && NoDup(reqs)
    requires Execution(Init(contexts, buffers, reqs), steps) && Careful(Init(contexts, buffers, reqs), steps)
    ensures After(Init(contexts, buffers, reqs), steps).Ok?
  {
    InitInv(contexts, buffers, reqs);
    InitCalm(contexts, buffers, reqs);
    CarefulRunsNeverAbort(Init(contexts, buffers, reqs), steps);
  }

  /** A calm state is one in which no call and no callback aborts: the two conditions are the whole danger. */
  lemma CalmIff(s: State)
    requires Inv(s)
    ensures Calm(s) <==> forall step :: Enabled(s, step) && Resolved(s, step) ==> !Perform(s, step).UvAbort?
  {
    hide Inv, Perform;
    if Calm(s) {
      forall step | Enabled(s, step) && Resolved(s, step) ensures !Perform(s, step).UvAbort? {
        CalmMeansSingleClose(s, step);
        StepIsFine(s, step);
      }
    } else {
      var c :| c in s.ctxs && !CalmFields(s.ctxs[c]);
      var step := if s.ctxs[c].status.Established? then CloseCall(c) else ShutdownDone(c);
      assert Enabled(s, step) && ClosesTwice(s, step);
      StepIsFine(s, step);
    }
  }

  lemma {:induction false} RunsCompose(s: State, a: seq<Step>, t: State, b: seq<Step>)
    requires Execution(s, a) && After(s, a) == Ok(t) && Execution(t, b)
    ensures Execution(s, a + b) && After(s, a + b) == After(t, b)
    decreases |a|
  {
    hide Enabled, Resolved, Perform;
    if a == [] {
      assert a + b == b;
    } else {
      RunsCompose(Perform(s, a[0]).value, a[1..], t, b);
      assert (a + b)[1..] == a[1..] + b;
    }
  }

  /** A container with one object of each kind, in which a connection has been accepted and announced. */
  function Announced(c: Context, b: Buffer, r: WriteReq): State {
    State(map[c := Fields(Established, 1, true, 2, false, [], Open, false, false, 0, Calls(true, 0, false))],
          [c], [], map[2 := c], 2, map[b := Pooled(0, 0, 0)], [b], [], map[], [r], {})
  }

  function Announcing(c: Context): seq<Step> {
    [Acquire(c), InitHandle(c, true)] + [Accept(c, true)] + [Welcome(c)]
  }

  lemma InitIsOne(c: Context, b: Buffer, r: WriteReq)
    ensures Init([c], [b], [r])
         == State(map[c := ZERO], [], [c], map[], 1, map[b := Pooled(0, 0, 0)], [b], [], map[], [r], {})
  {
    assert [c][1..] == [] && [b][1..] == [];
  }

  /** The same container when the accepted context has come no further than `f`. */
  function Young(c: Context, b: Buffer, r: WriteReq, f: Fields): State { Announced(c, b, r).(ctxs := map[c := f]) }

  lemma PutYoung(c: Context, b: Buffer, r: WriteReq, f: Fields, g: Fields)
    ensures Put(Young(c, b, r, f), c, g) == Young(c, b, r, g)
  {
    assert map[c := f][c := g] == map[c := g];
  }

  lemma Activates(c: Context, b: Buffer, r: WriteReq)
    ensures Execution(Init([c], [b], [r]), [Acquire(c)])
    ensures After(Init([c], [b], [r]), [Acquire(c)]) == Ok(Young(c, b, r, Started(2)))
  {
    hide Execution, After;
    InitIsOne(c, b, r);
    FirstOf(Init([c], [b], [r]), Acquire(c));
    assert Activate(Init([c], [b], [r]), c) == Young(c, b, r, Started(2));
  }

  /** A context fresh from the pool, when its handle is initialised, and when it has accepted a connection. */
  function Opened(): Fields { Started(2).(status := Initialized, handle := Open) }
  function Accepted(): Fields { Opened().(status := Established) }

  function Accepting(c: Context): seq<Step> { [Acquire(c), InitHandle(c, true)] + [Accept(c, true)] }

  lemma Accepts(c: Context, b: Buffer, r: WriteReq)
    ensures Execution(Init([c], [b], [r]), Accepting(c))
    ensures After(Init([c], [b], [r]), Accepting(c)) == Ok(Young(c, b, r, Accepted()))
  {
    hide Execution, After, Init;
    var s0 := Init([c], [b], [r]);
    Activates(c, b, r);
    PutYoung(c, b, r, Started(2), Opened());
    PutYoung(c, b, r, Opened(), Accepted());
    OneMoreStep(s0, [Acquire(c)], Young(c, b, r, Started(2)), InitHandle(c, true));
    assert [Acquire(c)] + [InitHandle(c, true)] == [Acquire(c), InitHandle(c, true)];
    OneMoreStep(s0, [Acquire(c), InitHandle(c, true)], Young(c, b, r, Opened()), Accept(c, true));
  }

  lemma Announces(c: Context, b: Buffer, r: WriteReq)
    ensures Execution(Init([c], [b], [r]), Announcing(c))
    ensures After(Init([c], [b], [r]), Announcing(c)) == Ok(Announced(c, b, r))
  {
    hide Execution, After, Init;
    Accepts(c, b, r);
    PutYoung(c, b, r, Accepted(), Greet(Accepted()));
    OneMoreStep(Init([c], [b], [r]), Accepting(c), Young(c, b, r, Accepted()), Welcome(c));
  }

  lemma FirstOf(s: State, step: Step)
    requires Enabled(s, step) && Resolved(s, step)
    ensures Execution(s, [step]) && After(s, [step]) == Perform(s, step)
  {
    hide Enabled, Resolved, Perform;
    assert [step][1..] == [];
  }

  lemma AnnouncedInv(c: Context, b: Buffer, r: WriteReq)
    ensures Inv(Announced(c, b, r))
  {
    hide Inv, Execution, After;
    InitInv([c], [b], [r]);
    Announces(c, b, r);
    RunsAreSafe(Init([c], [b], [r]), Announcing(c));
  }

  /** The announced connection when a user has taken the buffer. */
  function Ready(c: Context, b: Buffer, r: WriteReq): State {
    Announced(c, b, r).(bufs := map[b := Pooled(1, 0, 1)], free := [], using := [b])
  }

  lemma TakesBuffer(c: Context, b: Buffer, r: WriteReq)
    ensures Execution(Announced(c, b, r), [BufferAcquire(b)])
    ensures After(Announced(c, b, r), [BufferAcquire(b)]) == Ok(Ready(c, b, r)) && Inv(Ready(c, b, r))
  {
    hide Inv, Execution, After;
    var s := Announced(c, b, r);
    assert s.bufs[b := Pooled(1, 0, 0)][b := Pooled(1, 0, 1)] == map[b := Pooled(1, 0, 1)];
    assert s.free[..0] == [] && s.using + [b] == [b];
    FirstOf(s, BufferAcquire(b));
    AnnouncedInv(c, b, r);
    RunsAreSafe(s, [BufferAcquire(b)]);
  }

  /** From a fresh container: a refused write, and the user's close right after it makes libuv abort. */
  lemma RefusedWriteRun(c: Context, b: Buffer, r: WriteReq)
    ensures var run := Announcing(c) + ([BufferAcquire(b)] + [Send(c, b, r, false), CloseCall(c)]);
      Execution(Init([c], [b], [r]), run) && After(Init([c], [b], [r]), run) == UvAbort
  {
    hide Inv, Execution, After, Perform;
    Announces(c, b, r);
    TakesBuffer(c, b, r);
    RefusedWriteThenClose(Ready(c, b, r), c, b, r);
    RunsCompose(Announced(c, b, r), [BufferAcquire(b)], Ready(c, b, r), [Send(c, b, r, false), CloseCall(c)]);
    RunsCompose(Init([c], [b], [r]), Announcing(c), Announced(c, b, r),
                [BufferAcquire(b)] + [Send(c, b, r, false), CloseCall(c)]);
  }

  /**
    From a fresh container: the peer ends the stream during a shutdown, and the shutdown callback makes
    libuv abort.
   */
  lemma ReadEndRun(c: Context, b: Buffer, r: WriteReq)
    ensures var run := Announcing(c) + ([ShutdownCall(c, true)] + [ReadEnd(c), ShutdownDone(c)]);
      Execution(Init([c], [b], [r]), run) && After(Init([c], [b], [r]), run) == UvAbort
  {
    hide Inv, Execution, After;
    var s := Announced(c, b, r);
    var f := s.ctxs[c].(status := ShuttingDown, shutting := true);
    Announces(c, b, r);
    AnnouncedInv(c, b, r);
    FirstOf(s, ShutdownCall(c, true));
    RunsAreSafe(s, [ShutdownCall(c, true)]);
    ReadEndThenShutdownDone(Put(s, c, f), c);
    RunsCompose(s, [ShutdownCall(c, true)], Put(s, c, f), [ReadEnd(c), ShutdownDone(c)]);
    RunsCompose(Init([c], [b], [r]), Announcing(c), s, [ShutdownCall(c, true)] + [ReadEnd(c), ShutdownDone(c)]);
  }

  /** From a fresh container: after a refused write an announced connection is given back without its farewell. */
  lemma LostFarewellRun(c: Context, b: Buffer, r: WriteReq)
    ensures var run := Announcing(c) + ([BufferAcquire(b)] + ([Send(c, b, r, false)] + [AfterClose(c)]));
      && Execution(Init([c], [b], [r]), run) && After(Init([c], [b], [r]), run).Ok?
      && c in After(Init([c], [b], [r]), run).value.ctxs
      && var f := After(Init([c], [b], [r]), run).value.ctxs[c];
      && f.handle.Gone? && f.calls.greeted && f.calls.farewells == 0
  {
    hide Inv, Execution, After;
    var s := Ready(c, b, r);
    Announces(c, b, r);
    TakesBuffer(c, b, r);
    RefusedThenClosed(s, c, b, r);
    RunsCompose(Announced(c, b, r), [BufferAcquire(b)], s, [Send(c, b, r, false)] + [AfterClose(c)]);
    RunsCompose(Init([c], [b], [r]), Announcing(c), Announced(c, b, r),
                [BufferAcquire(b)] + ([Send(c, b, r, false)] + [AfterClose(c)]));
  }

  lemma RefusedThenClosed(s: State, c: Context, b: Buffer, r: WriteReq)
    requires Inv(s) && Enabled(s, Send(c, b, r, false)) && b in s.bufs && s.inflight == {} && !s.ctxs[c].closeNotify
    requires s.ctxs[c].status.Established? && s.ctxs[c].handle.Open? && s.ctxs[c].refcount == 1
      && s.ctxs[c].sendorder == []
    ensures var run := [Send(c, b, r, false)] + [AfterClose(c)];
      && Execution(s, run) && After(s, run).Ok?
      && c in After(s, run).value.ctxs && After(s, run).value.ctxs[c].handle.Gone?
      && After(s, run).value.ctxs[c].calls == s.ctxs[c].calls.(refused := true)
  {
    hide Inv, PerformSend, Execution, After;
    assert ContextOk(s.ctxs[c]) && s.bufs[b].refcount >= 1 by { InvContext(s, c); UsedInInv(s, b); }
    RefusedResult(s, c, b, r);
    FirstOf(s, Send(c, b, r, false));
    OneMoreStep(s, [Send(c, b, r, false)], Perform(s, Send(c, b, r, false)).value, AfterClose(c));
  }

  // ---------------------------------------------------------------------------------------------
  // Ids

  /** A step maps new ids only beyond all ids issued so far, and never remaps one. */
  ghost predicate IdsAdvance(s: State, t: State) {
    && s.lastId <= t.lastId
    && forall id :: id in t.table ==> id > s.lastId || (id in s.table && t.table[id] == s.table[id])
  }

  lemma DetachTable(s: State, r: WriteReq)
    requires r in s.reqs && s.reqs[r].context in s.ctxs && s.reqs[r].buffer in s.bufs && Detach(s, r).Ok?
    ensures IdsAdvance(s, Detach(s, r).value)
  {
  }

  lemma CloseHandleTable(s: State, c: Context)
    requires c in s.ctxs && CloseHandle(s, c).Ok?
    ensures CloseHandle(s, c).value.table == s.table && CloseHandle(s, c).value.lastId == s.lastId
  {
  }

  lemma HandleStepKeepsIds(s: State, step: Step)
    requires Resolved(s, step) && Perform(s, step).Ok?
    requires OpensHandle(step) || step.CloseCall? || step.ShutdownCall? || step.ShutdownDone?
    ensures IdsAdvance(s, Perform(s, step).value)
  {
    hide CloseHandle;
    var c, f := step.c, s.ctxs[step.c];
    match step {
      case Bind(_, ok) => if !ok { CloseHandleTable(s, c); }
      case Connect(_, ok) => if !ok { CloseHandleTable(s, c); }
      case Accept(_, ok) => if !ok { CloseHandleTable(s, c); }
      case Connected(_, ok, reading) =>
        var t := Put(s, c, f.(connecting := false));
        if !ok { CloseHandleTable(t, c); } else if !reading { CloseHandleTable(SetStatus(t, c, Established), c); }
      case ReadRefused(_) => CloseHandleTable(s, c);
      case ReadEnd(_) => CloseHandleTable(Put(s, c, Farewell(f)), c);
      case CloseCall(_) =>
        if f.status.Established? { CloseHandleTable(NotifyAfterClose(s, c), c); }
        else if f.status.Listen? { CloseHandleTable(s, c); }
      case ShutdownCall(_, ok) => if f.status.Established? && !ok { CloseHandleTable(NotifyAfterClose(s, c), c); }
      case ShutdownDone(_) => CloseHandleTable(Put(s, c, Farewell(f.(shutting := false, status := Shutdown))), c);
      case _ =>
    }
  }

  lemma StepAdvancesIds(s: State, step: Step)
    requires Resolved(s, step) && Perform(s, step).Ok?
    ensures IdsAdvance(s, Perform(s, step).value)
  {
    if OpensHandle(step) || step.CloseCall? || step.ShutdownCall? || step.ShutdownDone? {
      HandleStepKeepsIds(s, step);
    } else {
      PoolStepAdvancesIds(s, step);
    }
  }

  lemma SendAdvancesIds(s: State, c: Context, b: Buffer, spare: WriteReq, ok: bool)
    requires c in s.ctxs && b in s.bufs && PerformSend(s, c, b, spare, ok).Ok?
    ensures IdsAdvance(s, PerformSend(s, c, b, spare, ok).value)
  {
    hide Detach;
    if s.ctxs[c].status.Established? && !ok {
      DetachTable(Promise(Attach(s, c, b, spare), PickedReq(s, spare)), PickedReq(s, spare));
    }
  }

  lemma PoolStepAdvancesIds(s: State, step: Step)
    requires Resolved(s, step) && Perform(s, step).Ok?
    requires !OpensHandle(step) && !step.CloseCall? && !step.ShutdownCall? && !step.ShutdownDone?
    ensures IdsAdvance(s, Perform(s, step).value)
  {
    hide PerformSend, Detach;
    if BufferStep(step) {
      hide Perform;
      BufferStepSpares(s, step);
      return;
    }
    match step {
      case Send(c, b, spare, ok) => SendAdvancesIds(s, c, b, spare, ok);
      case Written(r) => DetachTable(s, r);
      case _ =>
    }
  }

  /** Ids over a whole run: a stale one never resolves again, and a live one resolves to the same context. */
  lemma {:induction false} StaleIdsNeverResolve(s: State, steps: seq<Step>, id: nat)
    requires Execution(s, steps) && After(s, steps).Ok? && id <= s.lastId
    ensures Find(s, id) == null ==> Find(After(s, steps).value, id) == null
    ensures Find(After(s, steps).value, id) != null ==> Find(After(s, steps).value, id) == Find(s, id)
    decreases |steps|
  {
    hide Enabled;
    if steps != [] {
      StepAdvancesIds(s, steps[0]);
      StaleIdsNeverResolve(Perform(s, steps[0]).value, steps[1..], id);
    }
  }

  /** In every run an id finds a context exactly while the context is active under that id. */
  lemma FindsActive(contexts: seq<Context>, buffers: seq<Buffer>, reqs: seq<WriteReq>, steps: seq<Step>,
                    c: Context, id: nat)
    requires Possible(contexts, buffers, reqs, steps)
    requires c in Reached(contexts, buffers, reqs, steps).ctxs
    ensures var s := Reached(contexts, buffers, reqs, steps);
      Find(s, id) == c <==> s.ctxs[c].active && s.ctxs[c].uniqid == id
  {
    hide Possible, Reached;
    ReachedInv(contexts, buffers, reqs, steps);
    FindsInTable(Reached(contexts, buffers, reqs, steps), c, id);
  }

  lemma FindsInTable(s: State, c: Context, id: nat)
    requires Inv(s) && c in s.ctxs
    ensures Find(s, id) == c <==> s.ctxs[c].active && s.ctxs[c].uniqid == id
  {
    hide ContextsOk, ListsOk, WritesOk, BuffersOk;
  }

  // ---------------------------------------------------------------------------------------------
  // Destroying the container

  /** Everything opened has been given back: handles, references, and buffers. */
  ghost predicate AllGivenBack(s: State) {
    && (forall c :: c in s.ctxs ==> s.ctxs[c].handle.Gone? && s.ctxs[c].users == 0)
    && (forall b :: b in s.bufs ==> s.bufs[b].users == 0)
    && s.reqs == map[]
  }

  /** The two assertions of `ks_socket_container_destroy` hold exactly then. */
  lemma DestroyAsserts(s: State)
    requires Inv(s)
    ensures s.active == [] && s.using == [] <==> AllGivenBack(s)
  {
    if s.active == [] && s.using == [] {
      IdleGivesBack(s);
    }
    if AllGivenBack(s) {
      assert forall c :: c in s.ctxs ==> ContextOk(s.ctxs[c]);
      NoReqNoSendorder(s);
      if s.active != [] { FirstIsIn(s.active); }
      forall b | b in s.bufs ensures s.bufs[b].refcount == 0 { assert Carriers(s.reqs, b) == {}; }
      if s.using != [] { FirstIsIn(s.using); }
    }
  }

  lemma NoReqNoSendorder(s: State)
    requires WritesOk(s.ctxs, s.reqs, s.pool, s.inflight) && s.reqs == map[]
    ensures forall c :: c in s.ctxs ==> s.ctxs[c].sendorder == []
  {
    forall c | c in s.ctxs ensures s.ctxs[c].sendorder == [] {
      var q := s.ctxs[c].sendorder;
      assert forall r :: r in q ==> r in s.reqs;
      if q != [] { FirstIsIn(q); }
    }
  }

  lemma NoSendorderNoReq(s: State)
    requires WritesOk(s.ctxs, s.reqs, s.pool, s.inflight) && forall c :: c in s.ctxs ==> s.ctxs[c].sendorder == []
    ensures s.reqs == map[]
  {
    assert s.reqs.Keys == {};
  }

  lemma IdleGivesBack(s: State)
    requires Inv(s) && s.active == [] && s.using == []
    ensures AllGivenBack(s)
  {
    forall c | c in s.ctxs ensures s.ctxs[c].handle.Gone? && s.ctxs[c].users == 0 && s.ctxs[c].sendorder == [] {
      assert ContextOk(s.ctxs[c]) && !s.ctxs[c].active;
    }
    forall b | b in s.bufs ensures s.bufs[b].users == 0 {
      assert BufferOk(s.bufs[b], b in s.free, Carried(s.reqs, b)) && b in s.free;
    }
    NoSendorderNoReq(s);
  }

  // ---------------------------------------------------------------------------------------------
  // What the invariant says of every reachable state

  /** The writes in flight on a context. */
  ghost function WritesOn(s: State, c: Context): set<WriteReq> {
    set r | r in s.inflight && r in s.reqs && s.reqs[r].context == c
  }

  lemma {:induction false} DistinctCount<T>(q: seq<T>, elements: set<T>)
    requires NoDup(q) && (forall x :: x in q ==> x in elements) && (forall x :: x in elements ==> x in q)
    ensures |elements| == |q|
  {
    if q == [] {
      assert elements == {};
    } else {
      var x := q[0];
      forall y | y in elements - {x} ensures y in q[1..] { assert y in q; }
      DistinctCount(q[1..], elements - {x});
      FirstIsIn(q);
    }
  }

  /**
    In every run from a fresh container the reference count of a context is one for a handle that is
    not given back, plus libuv's writes in flight on it, plus the references its users hold. When the
    count is zero, nothing of these is left and the context is uninitialised.
   */
  lemma ReferenceCounts(contexts: seq<Context>, buffers: seq<Buffer>, reqs: seq<WriteReq>, steps: seq<Step>, c: Context)
    requires Possible(contexts, buffers, reqs, steps)
    requires c in Reached(contexts, buffers, reqs, steps).ctxs
    ensures var s := Reached(contexts, buffers, reqs, steps); var f := s.ctxs[c];
      && f.refcount == (if f.handle.Gone? then 0 else 1) + |WritesOn(s, c)| + f.users
      && (f.refcount == 0 <==> !f.active)
      && (f.refcount == 0 ==> f.sendorder == [] && f.status.Uninitialize?)
  {
    hide Possible, Reached, Inv, ContextsOk, ListsOk, WritesOk, BuffersOk, TableOk;
    ReachedInv(contexts, buffers, reqs, steps);
    var s := Reached(contexts, buffers, reqs, steps);
    InvContext(s, c);
    SendorderIsInflight(s, c);
    DistinctCount(s.ctxs[c].sendorder, WritesOn(s, c));
  }

  lemma SendorderIsInflight(s: State, c: Context)
    requires Inv(s) && c in s.ctxs
    ensures forall r :: r in s.ctxs[c].sendorder ==> r in WritesOn(s, c)
    ensures forall r :: r in WritesOn(s, c) ==> r in s.ctxs[c].sendorder
  {
    hide ContextsOk, ListsOk, BuffersOk, TableOk;
  }

  /**
    In every run each buffer is on exactly one list: the free one if and only if neither a write in flight
    nor a user refers to it, and then it is empty.
   */
  lemma BuffersPartition(contexts: seq<Context>, buffers: seq<Buffer>, reqs: seq<WriteReq>, steps: seq<Step>, b: Buffer)
    requires Possible(contexts, buffers, reqs, steps)
    requires b in Reached(contexts, buffers, reqs, steps).bufs
    ensures var s := Reached(contexts, buffers, reqs, steps);
      && (b in s.free <==> b !in s.using)
      && (b in s.free <==> s.bufs[b].users == 0 && forall r :: r in s.inflight && r in s.reqs ==> s.reqs[r].buffer != b)
      && (b in s.free ==> s.bufs[b].size == 0)
      && s.bufs[b].refcount == s.bufs[b].users + Carried(s.reqs, b)
  {
    hide Possible, Reached, Inv;
    ReachedInv(contexts, buffers, reqs, steps);
    BufferPlace(Reached(contexts, buffers, reqs, steps), b);
  }

  lemma BufferPlace(s: State, b: Buffer)
    requires Inv(s) && b in s.bufs
    ensures b in s.free <==> b !in s.using
    ensures b in s.free
      <==> s.bufs[b].users == 0 && forall r :: r in s.inflight && r in s.reqs ==> s.reqs[r].buffer != b
    ensures b in s.free ==> s.bufs[b].size == 0
    ensures s.bufs[b].refcount == s.bufs[b].users + Carried(s.reqs, b)
  {
    hide ContextsOk, ListsOk, TableOk;
    BufferFact(s, b);
    if Carried(s.reqs, b) == 0 {
      assert Carriers(s.reqs, b) == {};
      forall r | r in s.inflight && r in s.reqs ensures s.reqs[r].buffer != b { assert r !in Carriers(s.reqs, b); }
    } else {
      var r :| r in Carriers(s.reqs, b);
    }
  }

  /** In every run each write request is in the pool, or in flight and on the `sendorder` of one context. */
  lemma RequestsPartition(contexts: seq<Context>, buffers: seq<Buffer>, reqs: seq<WriteReq>, steps: seq<Step>,
                          r: WriteReq)
    requires Possible(contexts, buffers, reqs, steps)
    requires var s := Reached(contexts, buffers, reqs, steps); r in s.reqs || r in s.pool
    ensures var s := Reached(contexts, buffers, reqs, steps);
      && (r in s.pool <==> r !in s.inflight)
      && (r in s.inflight <==> exists c :: c in s.ctxs && r in s.ctxs[c].sendorder)
      && (forall c, d :: c in s.ctxs && d in s.ctxs && r in s.ctxs[c].sendorder && r in s.ctxs[d].sendorder ==> c == d)
  {
    hide Possible, Reached, Inv;
    ReachedInv(contexts, buffers, reqs, steps);
    RequestPlace(Reached(contexts, buffers, reqs, steps), r);
  }

  lemma RequestPlace(s: State, r: WriteReq)
    requires Inv(s) && (r in s.reqs || r in s.pool)
    ensures r in s.pool <==> r !in s.inflight
    ensures r in s.inflight <==> exists c :: c in s.ctxs && r in s.ctxs[c].sendorder
    ensures forall c, d :: c in s.ctxs && d in s.ctxs && r in s.ctxs[c].sendorder && r in s.ctxs[d].sendorder ==> c == d
  {
    hide ContextsOk, ListsOk, BuffersOk, TableOk;
  }

  /** Every object the container knew it still knows. */
  ghost predicate Remembers(s: State, t: State) {
    && (forall c :: c in s.ctxs ==> c in t.ctxs)
    && (forall b :: b in s.bufs ==> b in t.bufs)
    && (forall r :: r in s.reqs ==> r in t.reqs || r in t.pool)
    && (forall r :: r in s.pool ==> r in t.reqs || r in t.pool)
  }

  lemma DetachRemembers(s: State, r: WriteReq)
    requires r in s.reqs && s.reqs[r].context in s.ctxs && s.reqs[r].buffer in s.bufs && Detach(s, r).Ok?
    ensures Remembers(s, Detach(s, r).value)
  {
  }

  lemma AttachRemembers(s: State, c: Context, b: Buffer, spare: WriteReq)
    requires c in s.ctxs && b in s.bufs
    ensures Remembers(s, Attach(s, c, b, spare))
  {
    var r, t := PickedReq(s, spare), Attach(s, c, b, spare);
    forall q | q in s.pool ensures q in t.reqs || q in t.pool {
      if q != r { assert q in s.pool[..|s.pool| - 1]; }
    }
  }

  lemma CloseHandleRemembers(s: State, c: Context)
    requires c in s.ctxs && CloseHandle(s, c).Ok?
    ensures Remembers(s, CloseHandle(s, c).value)
  {
  }

  lemma SendRemembers(s: State, c: Context, b: Buffer, spare: WriteReq, ok: bool)
    requires c in s.ctxs && b in s.bufs && PerformSend(s, c, b, spare, ok).Ok?
    ensures Remembers(s, PerformSend(s, c, b, spare, ok).value)
  {
    hide Detach;
    if s.ctxs[c].status.Established? {
      AttachRemembers(s, c, b, spare);
      if !ok { DetachRemembers(Promise(Attach(s, c, b, spare), PickedReq(s, spare)), PickedReq(s, spare)); }
    }
  }

  lemma StepRemembers(s: State, step: Step)
    requires Resolved(s, step) && Perform(s, step).Ok?
    ensures Remembers(s, Perform(s, step).value)
  {
    hide Perform, Remembers;
    if OpensHandle(step) {
      OpeningRemembers(s, step);
    } else if step.CloseCall? || step.ShutdownCall? || step.ShutdownDone? {
      ClosingRemembers(s, step);
    } else {
      PoolStepRemembers(s, step);
    }
  }

  lemma OpeningRemembers(s: State, step: Step)
    requires Resolved(s, step) && Perform(s, step).Ok? && OpensHandle(step)
    ensures Remembers(s, Perform(s, step).value)
  {
    hide CloseHandle, Remove;
    var c, f := step.c, s.ctxs[step.c];
    match step {
      case Bind(_, ok) => if !ok { CloseHandleRemembers(s, c); }
      case Connect(_, ok) => if !ok { CloseHandleRemembers(s, c); }
      case Accept(_, ok) => if !ok { CloseHandleRemembers(s, c); }
      case Connected(_, ok, reading) =>
        var t := Put(s, c, f.(connecting := false));
        if !ok { CloseHandleRemembers(t, c); }
        else if !reading { CloseHandleRemembers(SetStatus(t, c, Established), c); }
      case ReadRefused(_) => CloseHandleRemembers(s, c);
      case ReadEnd(_) => CloseHandleRemembers(Put(s, c, Farewell(f)), c);
      case _ =>
    }
  }

  lemma ClosingRemembers(s: State, step: Step)
    requires Resolved(s, step) && Perform(s, step).Ok? && (step.CloseCall? || step.ShutdownCall? || step.ShutdownDone?)
    ensures Remembers(s, Perform(s, step).value)
  {
    hide CloseHandle, Remove;
    var c, f := step.c, s.ctxs[step.c];
    match step {
      case CloseCall(_) =>
        if f.status.Established? { CloseHandleRemembers(NotifyAfterClose(s, c), c); }
        else if f.status.Listen? { CloseHandleRemembers(s, c); }
      case ShutdownCall(_, ok) => if f.status.Established? && !ok { CloseHandleRemembers(NotifyAfterClose(s, c), c); }
      case ShutdownDone(_) => CloseHandleRemembers(Put(s, c, Farewell(f.(shutting := false, status := Shutdown))), c);
    }
  }

  lemma DereferenceRemembers(s: State, t: State, c: Context)
    requires c in t.ctxs && Remembers(s, t) && Dereference(t, c).Ok?
    ensures Remembers(s, Dereference(t, c).value)
  {
  }

  lemma PoolStepRemembers(s: State, step: Step)
    requires Resolved(s, step) && Perform(s, step).Ok?
    requires !OpensHandle(step) && !step.CloseCall? && !step.ShutdownCall? && !step.ShutdownDone?
    ensures Remembers(s, Perform(s, step).value)
  {
    hide PerformSend, Detach, Remove, Dereference;
    if BufferStep(step) {
      hide Perform;
      BufferStepSpares(s, step);
      return;
    }
    match step {
      case Send(c, b, spare, ok) => SendRemembers(s, c, b, spare, ok);
      case Written(r) => DetachRemembers(s, r);
      case AfterClose(c) => DereferenceRemembers(s, Put(s, c, Ended(s.ctxs[c])), c);
      case UserDeref(c) => DereferenceRemembers(s, ReleaseContext(s, c), c);
      case _ =>
    }
  }

  /** Conservation: no run loses a context, a buffer or a write request; the partitions say where each one is. */
  lemma {:induction false} NothingIsLost(s: State, steps: seq<Step>)
    requires Execution(s, steps) && After(s, steps).Ok?
    ensures Remembers(s, After(s, steps).value)
    decreases |steps|
  {
    hide Enabled;
    if steps != [] {
      StepRemembers(s, steps[0]);
      NothingIsLost(Perform(s, steps[0]).value, steps[1..]);
    }
  }

  // ---------------------------------------------------------------------------------------------
  // What the user is told

  /**
    Once the handle of a context is given back, `disconnected` has been called at most once for it;
    and after `connected` it has been called exactly if no refused write closed the handle.
   */
  lemma FarewellIff(contexts: seq<Context>, buffers: seq<Buffer>, reqs: seq<WriteReq>, steps: seq<Step>, c: Context)
    requires Possible(contexts, buffers, reqs, steps)
    requires c in Reached(contexts, buffers, reqs, steps).ctxs
    ensures var f := Reached(contexts, buffers, reqs, steps).ctxs[c];
      && (f.handle.Gone? ==> f.calls.farewells <= 1)
      && (f.handle.Gone? && f.calls.greeted ==> (f.calls.farewells == 1 <==> !f.calls.refused))
      && (f.handle.Open? ==> f.calls.farewells == 0)
  {
    hide Possible, Reached, Inv;
    ReachedInv(contexts, buffers, reqs, steps);
    InvContext(Reached(contexts, buffers, reqs, steps), c);
  }

  /** The farewells a context has had, and the one its close callback still has to give. */
  function FarewellsDue(f: Fields): nat {
    f.calls.farewells + if f.closeNotify && !f.handle.Gone? then 1 else 0
  }

  /**
    The steps that end a connection for its user: the peer ends it, a shutdown is complete, the user closes
    it, or asks for a shutdown that libuv refuses.
   */
  predicate TakesLeave(s: State, step: Step, c: Context) {
    c in s.ctxs &&
    match step
    case ReadEnd(d) => d == c
    case ShutdownDone(d) => d == c
    case CloseCall(d) => d == c && s.ctxs[c].status.Established?
    case ShutdownCall(d, ok) => d == c && s.ctxs[c].status.Established? && !ok
    case _ => false
  }

  predicate Reuses(s: State, step: Step, c: Context) { step.Acquire? && Picked(s, step.spare) == c }

  /** From `s` to `t` the farewells due to `c` grow by `n`. */
  predicate DueGrows(s: State, t: State, c: Context, n: nat) {
    c in s.ctxs && c in t.ctxs && FarewellsDue(t.ctxs[c]) == FarewellsDue(s.ctxs[c]) + n
  }

  lemma CloseDue(s: State, d: Context, c: Context)
    requires d in s.ctxs && c in s.ctxs && CloseHandle(s, d).Ok?
    ensures DueGrows(s, CloseHandle(s, d).value, c, 0)
  {
  }

  lemma DereferenceDue(s: State, d: Context, c: Context)
    requires d in s.ctxs && c in s.ctxs && Dereference(s, d).Ok?
    ensures DueGrows(s, Dereference(s, d).value, c, 0)
  {
    hide Remove;
  }

  lemma DetachDue(s: State, r: WriteReq, c: Context)
    requires r in s.reqs && s.reqs[r].context in s.ctxs && s.reqs[r].buffer in s.bufs && Detach(s, r).Ok?
    requires c in s.ctxs
    ensures DueGrows(s, Detach(s, r).value, c, 0)
  {
    hide Dereference, Remove;
    var Claim(d, b) := s.reqs[r];
    DereferenceDue(BufferDereference(Unlist(s, r, d), b), d, c);
  }

  lemma AttachDue(s: State, d: Context, b: Buffer, spare: WriteReq, c: Context)
    requires d in s.ctxs && b in s.bufs && c in s.ctxs
    ensures DueGrows(s, Promise(Attach(s, d, b, spare), PickedReq(s, spare)), c, 0)
  {
  }

  lemma SendDue(s: State, d: Context, b: Buffer, spare: WriteReq, ok: bool, c: Context)
    requires d in s.ctxs && b in s.bufs && c in s.ctxs && PerformSend(s, d, b, spare, ok).Ok?
    ensures DueGrows(s, PerformSend(s, d, b, spare, ok).value, c, 0)
  {
    hide Detach;
    if s.ctxs[d].status.Established? {
      var r := PickedReq(s, spare);
      var t := Promise(Attach(s, d, b, spare), r);
      AttachDue(s, d, b, spare, c);
      if !ok { DetachDue(t, r, c); }
    }
  }

  lemma SettingUpDue(s: State, step: Step, c: Context)
    requires Enabled(s, step) && (step.InitHandle? || step.Bind? || step.Connect? || step.Accept?)
    requires Resolved(s, step) && Perform(s, step).Ok? && c in s.ctxs && ContextOk(s.ctxs[step.c])
    ensures DueGrows(s, Perform(s, step).value, c, 0)
  {
    hide CloseHandle, Dereference;
    var d := step.c;
    match step {
      case InitHandle(_, ok) =>
        if !ok { DereferenceDue(Put(s, d, s.ctxs[d].(handle := Gone)), d, c); }
      case Bind(_, ok) => if !ok { CloseDue(s, d, c); }
      case Connect(_, ok) => if !ok { CloseDue(s, d, c); }
      case Accept(_, ok) => if !ok { CloseDue(s, d, c); }
    }
  }

  lemma ConnectedDue(s: State, d: Context, ok: bool, reading: bool, c: Context)
    requires d in s.ctxs && c in s.ctxs && Perform(s, Connected(d, ok, reading)).Ok?
    ensures DueGrows(s, Perform(s, Connected(d, ok, reading)).value, c, 0)
  {
    hide CloseHandle;
    var t := Put(s, d, s.ctxs[d].(connecting := false));
    if !ok { CloseDue(t, d, c); } else if !reading { CloseDue(SetStatus(t, d, Established), d, c); }
  }

  lemma OpeningDue(s: State, step: Step, c: Context)
    requires Enabled(s, step) && (step.Connected? || step.Welcome? || step.ReadRefused? || step.ReadEnd?)
    requires Resolved(s, step) && Perform(s, step).Ok? && c in s.ctxs && ContextOk(s.ctxs[step.c])
    ensures DueGrows(s, Perform(s, step).value, c, if TakesLeave(s, step, c) then 1 else 0)
  {
    hide CloseHandle, ContextOk;
    var d := step.c;
    match step {
      case Connected(_, ok, reading) => ConnectedDue(s, d, ok, reading, c);
      case Welcome(_) =>
      case ReadRefused(_) => CloseDue(s, d, c);
      case ReadEnd(_) => CloseDue(Put(s, d, Farewell(s.ctxs[d])), d, c);
    }
  }

  lemma ClosingDue(s: State, step: Step, c: Context)
    requires Enabled(s, step) && (step.CloseCall? || step.ShutdownCall?)
    requires Resolved(s, step) && Perform(s, step).Ok? && c in s.ctxs && ContextOk(s.ctxs[step.c])
    ensures DueGrows(s, Perform(s, step).value, c, if TakesLeave(s, step, c) then 1 else 0)
  {
    hide CloseHandle;
    var d, f := step.c, s.ctxs[step.c];
    match step {
      case CloseCall(_) =>
        if f.status.Established? { CloseDue(NotifyAfterClose(s, d), d, c); }
        else if f.status.Listen? { CloseDue(s, d, c); }
      case ShutdownCall(_, ok) => if f.status.Established? && !ok { CloseDue(NotifyAfterClose(s, d), d, c); }
    }
  }

  lemma EndingDue(s: State, step: Step, c: Context)
    requires Enabled(s, step) && (step.ShutdownDone? || step.AfterClose?)
    requires Resolved(s, step) && Perform(s, step).Ok? && c in s.ctxs && ContextOk(s.ctxs[step.c])
    ensures DueGrows(s, Perform(s, step).value, c, if TakesLeave(s, step, c) then 1 else 0)
  {
    hide CloseHandle, Dereference;
    var d, f := step.c, s.ctxs[step.c];
    match step {
      case ShutdownDone(_) => CloseDue(Put(s, d, Farewell(f.(shutting := false, status := Shutdown))), d, c);
      case AfterClose(_) => DereferenceDue(Put(s, d, Ended(f)), d, c);
    }
  }

  lemma PoolDue(s: State, step: Step, c: Context)
    requires Resolved(s, step) && Perform(s, step).Ok? && c in s.ctxs && !Reuses(s, step, c) && !OpensHandle(step)
    requires !step.CloseCall? && !step.ShutdownCall? && !step.ShutdownDone? && !step.AfterClose?
    ensures DueGrows(s, Perform(s, step).value, c, 0)
  {
    hide PerformSend, Detach, Dereference, Remove;
    if BufferStep(step) {
      hide Perform;
      BufferStepSpares(s, step);
      return;
    }
    match step {
      case Send(d, b, spare, ok) => SendDue(s, d, b, spare, ok, c);
      case Written(r) => DetachDue(s, r, c);
      case UserDeref(d) => DereferenceDue(ReleaseContext(s, d), d, c);
      case _ =>
    }
  }

  /** The steps that end a connection, and no others, make one farewell due. */
  lemma FarewellsCounted(s: State, step: Step, c: Context)
    requires Inv(s) && Enabled(s, step) && Resolved(s, step) && Perform(s, step).Ok?
    requires c in s.ctxs && !Reuses(s, step, c)
    ensures DueGrows(s, Perform(s, step).value, c, if TakesLeave(s, step, c) then 1 else 0)
  {
    hide Inv, Perform, Enabled, DueGrows, ContextOk;
    if step.InitHandle? || step.Bind? || step.Connect? || step.Accept? {
      InvContext(s, step.c);
      SettingUpDue(s, step, c);
    } else if OpensHandle(step) {
      InvContext(s, step.c);
      OpeningDue(s, step, c);
    } else if step.CloseCall? || step.ShutdownCall? {
      InvContext(s, step.c);
      ClosingDue(s, step, c);
    } else if step.ShutdownDone? || step.AfterClose? {
      InvContext(s, step.c);
      EndingDue(s, step, c);
    } else {
      PoolDue(s, step, c);
    }
  }

  /** How often the connection of a context is ended in a run. */
  ghost function LeavesTaken(s: State, steps: seq<Step>, c: Context): nat
    requires Execution(s, steps)
    decreases |steps|
  {
    if steps == [] || !Perform(s, steps[0]).Ok? then 0
    else
      (if TakesLeave(s, steps[0], c) then 1 else 0) + LeavesTaken(Perform(s, steps[0]).value, steps[1..], c)
  }

  /** Meanwhile the context is not handed out for another connection. */
  ghost predicate StaysTheSame(s: State, steps: seq<Step>, c: Context)
    requires Execution(s, steps)
    decreases |steps|
  {
    steps == []
    || (!Reuses(s, steps[0], c)
        && (Perform(s, steps[0]).Ok? ==> StaysTheSame(Perform(s, steps[0]).value, steps[1..], c)))
  }

  lemma {:induction false} FarewellsOfRun(s: State, steps: seq<Step>, c: Context)
    requires Inv(s) && Execution(s, steps) && After(s, steps).Ok? && c in s.ctxs && StaysTheSame(s, steps, c)
    ensures DueGrows(s, After(s, steps).value, c, LeavesTaken(s, steps, c))
    decreases |steps|
  {
    hide Inv, Enabled, Resolved, Perform, FarewellsDue, TakesLeave, Reuses;
    if steps != [] {
      StepIsFine(s, steps[0]);
      FarewellsCounted(s, steps[0], c);
      FarewellsOfRun(Perform(s, steps[0]).value, steps[1..], c);
    }
  }

  /**
    From the moment a context is handed out until it is handed out again: `disconnected` is called as often
    as the connection was ended, or will be by the close callback, and that is at most once. It does not
    matter whether `connected` was ever called.
   */
  lemma FarewellsAreLeaves(s: State, spare: Context, steps: seq<Step>)
    requires Inv(s) && Enabled(s, Acquire(spare))
    requires var t := Activate(s, spare);
      Execution(t, steps) && After(t, steps).Ok? && StaysTheSame(t, steps, Picked(s, spare))
    ensures var c, t := Picked(s, spare), After(Activate(s, spare), steps).value;
      c in t.ctxs && FarewellsDue(t.ctxs[c]) == LeavesTaken(Activate(s, spare), steps, c) <= 1
  {
    hide Inv, Execution, After, StaysTheSame, LeavesTaken;
    var c, t := Picked(s, spare), Activate(s, spare);
    StepIsFine(s, Acquire(spare));
    FarewellsOfRun(t, steps, c);
    RunsAreSafe(t, steps);
    InvContext(After(t, steps).value, c);
  }

  /** The close callback settles it, and for an announced connection the status it finds says how. */
  lemma FarewellByStatus(s: State, c: Context)
    requires Inv(s) && Enabled(s, AfterClose(c))
    ensures Resolved(s, AfterClose(c)) && Perform(s, AfterClose(c)).Ok?
    ensures var t := Perform(s, AfterClose(c)).value;
      && c in t.ctxs && t.ctxs[c].handle.Gone?
      && t.ctxs[c].calls.farewells == s.ctxs[c].calls.farewells + (if s.ctxs[c].closeNotify then 1 else 0)
      && (s.ctxs[c].calls.greeted ==> t.ctxs[c].calls.farewells == if s.ctxs[c].status.Closing? then 1 else 0)
  {
    hide Inv;
    StepIsFine(s, AfterClose(c));
    InvContext(s, c);
  }

  /** A connection that is shut down before it is announced: when it is closing, and when it is closed. */
  function ShutDown(): Fields { Accepted().(status := ShuttingDown, shutting := true) }
  function TakenDown(): Fields { Farewell(Accepted()).(status := Closing, handle := InClose) }

  function NeverAnnounced(c: Context): seq<Step> {
    Accepting(c) + [ShutdownCall(c, true)] + [ShutdownDone(c)] + [AfterClose(c)]
  }

  lemma ShutsDown(c: Context, b: Buffer, r: WriteReq)
    ensures Perform(Young(c, b, r, ShutDown()), ShutdownDone(c)) == Ok(Young(c, b, r, TakenDown()))
  {
    var s, f := Young(c, b, r, ShutDown()), Farewell(ShutDown().(shutting := false, status := Shutdown));
    PutTwice(s, c, f, f.(status := Closing));
    PutTwice(s, c, f.(status := Closing), TakenDown());
    PutYoung(c, b, r, ShutDown(), TakenDown());
  }

  lemma GivesBack(c: Context, b: Buffer, r: WriteReq)
    ensures var o := Perform(Young(c, b, r, TakenDown()), AfterClose(c));
      && o.Ok? && c in o.value.ctxs && o.value.ctxs[c].handle.Gone?
      && o.value.ctxs[c].calls == Calls(false, 1, false)
  {
    hide Remove;
  }

  /**
    From a fresh container: a connection beyond `max_connections` is shut down at once. Its user is told that
    it is gone, and was never told that it was there.
   */
  lemma FarewellWithoutWelcome(c: Context, b: Buffer, r: WriteReq)
    ensures Execution(Init([c], [b], [r]), NeverAnnounced(c)) && After(Init([c], [b], [r]), NeverAnnounced(c)).Ok?
    ensures c in After(Init([c], [b], [r]), NeverAnnounced(c)).value.ctxs
    ensures var f := After(Init([c], [b], [r]), NeverAnnounced(c)).value.ctxs[c];
      f.handle.Gone? && !f.calls.greeted && f.calls.farewells == 1
  {
    hide Execution, After, Init, Dereference, CloseHandle;
    Accepts(c, b, r);
    PutYoung(c, b, r, Accepted(), ShutDown());
    ShutsDown(c, b, r);
    GivesBack(c, b, r);
    var s0 := Init([c], [b], [r]);
    OneMoreStep(s0, Accepting(c), Young(c, b, r, Accepted()), ShutdownCall(c, true));
    OneMoreStep(s0, Accepting(c) + [ShutdownCall(c, true)], Young(c, b, r, ShutDown()), ShutdownDone(c));
    OneMoreStep(s0, Accepting(c) + [ShutdownCall(c, true)] + [ShutdownDone(c)], Young(c, b, r, TakenDown()),
                AfterClose(c));
  }
}
