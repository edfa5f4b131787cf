/**
  What becomes of one connection: no step touches the connection of another context, and each context goes
  through its statuses by the calls and callbacks that name it alone. From that follows what the users of
  a listener and of a connection are told over its whole life.
 */
module SocketFates {
  import opened KsBuffer
  import opened Sockets
  import opened SocketRuns

  // ---------------------------------------------------------------------------------------------
  // One step and one context

  /** `step` is a call or callback for the connection of `c`. */
  predicate Concerns(step: Step, c: Context) {
    match step
    case Acquire(_) => false
    case Send(d, _, _, _) => d == c
    case Written(_) => false
    case UserRef(_) => false
    case UserDeref(_) => false
    case BufferAcquire(_) => false
    case BufferRef(_) => false
    case BufferDeref(_) => false
    case BufferWrite(_, _) => false
    case _ => step.c == c
  }

  /** A connection on its own: its status, what libuv owes for it, and what its user was told. */
  datatype Line = Line(
    status: Status, handle: Handle, connecting: bool, shutting: bool, closeNotify: bool, calls: Calls)

  function LineOf(f: Fields): Line { Line(f.status, f.handle, f.connecting, f.shutting, f.closeNotify, f.calls) }

  /** What a step that names a connection makes of it. */
  function Moved(l: Line, step: Step): Line {
    var closing := l.(status := Closing, handle := InClose);
    match step
    case InitHandle(_, ok) => if ok then l.(status := Initialized, handle := Open) else l.(handle := Gone)
    case Bind(_, ok) => if ok then l.(status := Listen) else closing
    case Connect(_, ok) => if ok then l.(status := Connecting, connecting := true) else closing
    case Accept(_, ok) => if ok then l.(status := Established) else closing
    case Connected(_, ok, reading) =>
      if ok && reading then l.(status := Established, connecting := false, calls := l.calls.(greeted := true))
      else closing.(connecting := false)
    case Welcome(_) => l.(calls := l.calls.(greeted := true))
    case ReadRefused(_) => closing
    case ReadEnd(_) => closing.(calls := OneMoreFarewell(l.calls))
    case CloseCall(_) =>
      if l.status.Established? then closing.(closeNotify := true) else if l.status.Listen? then closing else l
    case ShutdownCall(_, ok) =>
      if !l.status.Established? then l
      else if ok then l.(status := ShuttingDown, shutting := true)
      else closing.(closeNotify := true)
    case ShutdownDone(_) => closing.(shutting := false, calls := OneMoreFarewell(l.calls))
    case Send(_, _, _, ok) =>
      if l.status.Established? && !ok then l.(calls := l.calls.(refused := true), handle := InClose) else l
    case AfterClose(_) =>
      l.(status := Closed, handle := Gone, calls := if l.closeNotify then OneMoreFarewell(l.calls) else l.calls)
    case _ => l
  }

  function OneMoreFarewell(calls: Calls): Calls { calls.(farewells := calls.farewells + 1) }

  /** The context shows this connection, except that one that is put away has forgotten that it was closed. */
  predicate Shows(f: Fields, l: Line) {
    LineOf(f) == l || (f.status.Uninitialize? && LineOf(f).(status := l.status) == l)
  }

  predicate ShowsAfter(s: State, l: Line, c: Context) { c in s.ctxs && Shows(s.ctxs[c], l) }

  lemma DereferenceShows(s: State, d: Context, l: Line, c: Context)
    requires d in s.ctxs && Dereference(s, d).Ok? && ShowsAfter(s, l, c)
    ensures ShowsAfter(Dereference(s, d).value, l, c)
  {
    hide Remove;
  }

  lemma DetachShows(s: State, r: WriteReq, l: Line, c: Context)
    requires r in s.reqs && s.reqs[r].context in s.ctxs && s.reqs[r].buffer in s.bufs && Detach(s, r).Ok?
    requires ShowsAfter(s, l, c)
    ensures ShowsAfter(Detach(s, r).value, l, c)
  {
    hide Dereference, Remove;
    var Claim(d, b) := s.reqs[r];
    DereferenceShows(BufferDereference(Unlist(s, r, d), b), d, l, c);
  }

  lemma CloseShows(s: State, d: Context, g: Fields, c: Context)
    requires d in s.ctxs && c in s.ctxs && CloseHandle(Put(s, d, g), d).Ok?
    ensures ShowsAfter(CloseHandle(Put(s, d, g), d).value,
                       LineOf(if c == d then g.(status := Closing, handle := InClose) else s.ctxs[c]), c)
  {
    PutTwice(s, d, g, g.(status := Closing));
    PutTwice(s, d, g.(status := Closing), g.(status := Closing, handle := InClose));
  }

  /** Where a step leaves the connection of `c`. */
  function Left(s: State, step: Step, c: Context): Line
    requires c in s.ctxs
  {
    if Concerns(step, c) then Moved(LineOf(s.ctxs[c]), step) else LineOf(s.ctxs[c])
  }

  lemma InitMoves(s: State, d: Context, ok: bool, c: Context)
    requires d in s.ctxs && Perform(s, InitHandle(d, ok)).Ok? && c in s.ctxs
    ensures ShowsAfter(Perform(s, InitHandle(d, ok)).value, Left(s, InitHandle(d, ok), c), c)
  {
    hide Dereference;
    if !ok { DereferenceShows(Put(s, d, s.ctxs[d].(handle := Gone)), d, Left(s, InitHandle(d, ok), c), c); }
  }

  lemma SetUpMoves(s: State, step: Step, c: Context)
    requires step.Bind? || step.Connect? || step.Accept?
    requires Resolved(s, step) && Perform(s, step).Ok? && c in s.ctxs
    ensures ShowsAfter(Perform(s, step).value, Left(s, step, c), c)
  {
    hide CloseHandle;
    var d := step.c;
    PutSame(s, d);
    match step {
      case Bind(_, ok) => if !ok { CloseShows(s, d, s.ctxs[d], c); }
      case Connect(_, ok) => if !ok { CloseShows(s, d, s.ctxs[d], c); }
      case Accept(_, ok) => if !ok { CloseShows(s, d, s.ctxs[d], c); }
    }
  }

  lemma ConnectedMoves(s: State, d: Context, ok: bool, reading: bool, c: Context)
    requires d in s.ctxs && Perform(s, Connected(d, ok, reading)).Ok? && c in s.ctxs
    ensures ShowsAfter(Perform(s, Connected(d, ok, reading)).value, Left(s, Connected(d, ok, reading), c), c)
  {
    hide CloseHandle;
    var g := s.ctxs[d].(connecting := false);
    PutTwice(s, d, g, g.(status := Established));
    PutTwice(s, d, g, Greet(g.(status := Established)));
    if !ok { CloseShows(s, d, g, c); }
    else if !reading { CloseShows(s, d, g.(status := Established), c); }
  }

  lemma OpeningMoves(s: State, step: Step, c: Context)
    requires step.Welcome? || step.ReadRefused? || step.ReadEnd?
    requires Resolved(s, step) && Perform(s, step).Ok? && c in s.ctxs
    ensures ShowsAfter(Perform(s, step).value, Left(s, step, c), c)
  {
    hide CloseHandle;
    var d := step.c;
    PutSame(s, d);
    match step {
      case Welcome(_) =>
      case ReadRefused(_) => CloseShows(s, d, s.ctxs[d], c);
      case ReadEnd(_) => CloseShows(s, d, Farewell(s.ctxs[d]), c);
    }
  }

  lemma ClosingMoves(s: State, step: Step, c: Context)
    requires step.CloseCall? || step.ShutdownCall?
    requires Resolved(s, step) && Perform(s, step).Ok? && c in s.ctxs
    ensures ShowsAfter(Perform(s, step).value, Left(s, step, c), c)
  {
    hide CloseHandle;
    var d, f := step.c, s.ctxs[step.c];
    PutSame(s, d);
    match step {
      case CloseCall(_) =>
        if f.status.Established? { CloseShows(s, d, f.(closeNotify := true), c); }
        else if f.status.Listen? { CloseShows(s, d, f, c); }
      case ShutdownCall(_, ok) =>
        if f.status.Established? && !ok { CloseShows(s, d, f.(closeNotify := true), c); }
    }
  }

  lemma EndingMoves(s: State, step: Step, c: Context)
    requires step.ShutdownDone? || step.AfterClose?
    requires Resolved(s, step) && Perform(s, step).Ok? && c in s.ctxs
    ensures ShowsAfter(Perform(s, step).value, Left(s, step, c), c)
  {
    hide CloseHandle, Dereference;
    var d, f := step.c, s.ctxs[step.c];
    match step {
      case ShutdownDone(_) => CloseShows(s, d, Farewell(f.(shutting := false, status := Shutdown)), c);
      case AfterClose(_) => DereferenceShows(Put(s, d, Ended(f)), d, Left(s, step, c), c);
    }
  }

  lemma SendMoves(s: State, step: Step, c: Context)
    requires step.Send? && Resolved(s, step) && Perform(s, step).Ok? && c in s.ctxs
    ensures ShowsAfter(Perform(s, step).value, Left(s, step, c), c)
  {
    hide Detach;
    var Send(d, b, spare, ok) := step;
    if s.ctxs[d].status.Established? {
      var r := PickedReq(s, spare);
      var t := Promise(Attach(s, d, b, spare), r);
      assert ShowsAfter(t, LineOf(s.ctxs[c]), c);
      if !ok {
        DetachShows(t, r, LineOf(s.ctxs[c]), c);
        RefusalMoves(Settle(Detach(t, r).value, r), d, LineOf(s.ctxs[c]), c);
      }
    }
  }

  lemma RefusalMoves(u: State, d: Context, l: Line, c: Context)
    requires d in u.ctxs && ShowsAfter(u, l, c) && UvClose(MarkRefused(u, d), d).Ok?
    ensures ShowsAfter(UvClose(MarkRefused(u, d), d).value,
                       if c == d then l.(calls := l.calls.(refused := true), handle := InClose) else l, c)
  {
  }

  lemma PoolMoves(s: State, step: Step, c: Context)
    requires step.Written? || step.UserRef? || step.UserDeref?
    requires Resolved(s, step) && Perform(s, step).Ok? && c in s.ctxs
    ensures ShowsAfter(Perform(s, step).value, Left(s, step, c), c)
  {
    hide Detach, Dereference, Remove;
    match step {
      case Written(r) => DetachShows(s, r, LineOf(s.ctxs[c]), c);
      case UserRef(d) =>
      case UserDeref(d) => DereferenceShows(ReleaseContext(s, d), d, LineOf(s.ctxs[c]), c);
    }
  }

  lemma BufferMoves(s: State, step: Step, c: Context)
    requires BufferStep(step) && Resolved(s, step) && Perform(s, step).Ok? && c in s.ctxs
    ensures ShowsAfter(Perform(s, step).value, Left(s, step, c), c)
  {
    hide Perform;
    BufferStepSpares(s, step);
  }

  /**
    The effect of any step on the connection of any context: the calls and callbacks that name the context
    move it as `Moved` says, and all others leave it alone.
   */
  lemma StepMoves(s: State, step: Step, c: Context)
    requires Resolved(s, step) && Perform(s, step).Ok? && c in s.ctxs && !Reuses(s, step, c)
    ensures c in Perform(s, step).value.ctxs
    ensures Shows(Perform(s, step).value.ctxs[c],
                  if Concerns(step, c) then Moved(LineOf(s.ctxs[c]), step) else LineOf(s.ctxs[c]))
  {
    hide Perform, Shows, Moved, Concerns, LineOf;
    match step {
      case Acquire(_) => AcquireMoves(s, step, c);
      case InitHandle(d, ok) => InitMoves(s, d, ok, c);
      case Bind(_, _) => SetUpMoves(s, step, c);
      case Connect(_, _) => SetUpMoves(s, step, c);
      case Accept(_, _) => SetUpMoves(s, step, c);
      case Connected(d, ok, reading) => ConnectedMoves(s, d, ok, reading, c);
      case Welcome(_) => OpeningMoves(s, step, c);
      case ReadRefused(_) => OpeningMoves(s, step, c);
      case ReadEnd(_) => OpeningMoves(s, step, c);
      case CloseCall(_) => ClosingMoves(s, step, c);
      case ShutdownCall(_, _) => ClosingMoves(s, step, c);
      case ShutdownDone(_) => EndingMoves(s, step, c);
      case AfterClose(_) => EndingMoves(s, step, c);
      case Send(_, _, _, _) => SendMoves(s, step, c);
      case Written(_) => PoolMoves(s, step, c);
      case UserRef(_) => PoolMoves(s, step, c);
      case UserDeref(_) => PoolMoves(s, step, c);
      case _ => BufferMoves(s, step, c);
    }
  }

  lemma AcquireMoves(s: State, step: Step, c: Context)
    requires step.Acquire? && c in s.ctxs && !Reuses(s, step, c)
    ensures ShowsAfter(Perform(s, step).value, Left(s, step, c), c)
  {
  }

  // ---------------------------------------------------------------------------------------------
  // Whole runs

  /** A connection that starts with `l`, moved by those of the steps that name it. */
  function Fate(l: Line, steps: seq<Step>, c: Context): Line
    decreases |steps|
  {
    if steps == [] then l
    else Fate(if Concerns(steps[0], c) then Moved(l, steps[0]) else l, steps[1..], c)
  }

  /** Status and handle of a context show all of a connection, unless the context is put away. */
  lemma ShownWhole(f: Fields, l: Line)
    requires Shows(f, l) && ContextOk(f) && StatusFits(l.status, l.handle)
    ensures LineOf(f) == l || (f.handle.Gone? && f.status.Uninitialize? && l.status.Closed?)
  {
    hide CallsOk, NoDup;
  }

  /** What a step that can come, and does not end the run, finds. */
  predicate Finds(l: Line, step: Step) {
    match step
    case InitHandle(_, _) => l.handle.Raw?
    case ShutdownDone(_) => l.handle.Open?
    case CloseCall(_) => l.status.Established? ==> l.handle.Open?
    case ShutdownCall(_, _) => l.status.Established? ==> l.handle.Open?
    case Send(_, _, _, _) => l.status.Established? ==> l.handle.Open?
    case AfterClose(_) => l.handle.InClose?
    case _ => l.handle.Open?
  }

  lemma WhatItFinds(s: State, step: Step, c: Context)
    requires Enabled(s, step) && Concerns(step, c) && c in s.ctxs && ContextOk(s.ctxs[c])
    requires Resolved(s, step) && !ClosesTwice(s, step)
    ensures Finds(LineOf(s.ctxs[c]), step)
  {
    hide CallsOk, NoDup;
  }

  lemma MovedFits(l: Line, step: Step)
    requires StatusFits(l.status, l.handle) && Finds(l, step)
    ensures StatusFits(Moved(l, step).status, Moved(l, step).handle)
  {
  }

  /** To a context that is put away nothing happens any more. */
  lemma ClosedStays(f: Fields, l: Line, step: Step)
    requires Finds(LineOf(f), step) && f.handle.Gone? && f.status.Uninitialize? && l.status.Closed?
    ensures Moved(LineOf(f), step) == LineOf(f) && Moved(l, step) == l
  {
  }

  /** A move that does not end the run keeps status and handle fitting. */
  lemma FateStep(s: State, step: Step, c: Context, l: Line)
    requires Inv(s) && Enabled(s, step) && Resolved(s, step) && Perform(s, step).Ok?
    requires c in s.ctxs && !Reuses(s, step, c) && Shows(s.ctxs[c], l) && StatusFits(l.status, l.handle)
    ensures var l', t := if Concerns(step, c) then Moved(l, step) else l, Perform(s, step).value;
      c in t.ctxs && Shows(t.ctxs[c], l') && StatusFits(l'.status, l'.handle)
  {
    hide Inv, Perform, Moved, StatusFits, ContextOk, Finds;
    StepMoves(s, step, c);
    StepIsFine(s, step);
    InvContext(s, c);
    ShownWhole(s.ctxs[c], l);
    if Concerns(step, c) {
      WhatItFinds(s, step, c);
      if LineOf(s.ctxs[c]) == l { MovedFits(l, step); } else { ClosedStays(s.ctxs[c], l, step); }
    }
  }

  lemma {:induction false} FateOfRun(s: State, steps: seq<Step>, c: Context, l: Line)
    requires Inv(s) && Execution(s, steps) && After(s, steps).Ok? && StaysTheSame(s, steps, c)
    requires c in s.ctxs && Shows(s.ctxs[c], l) && StatusFits(l.status, l.handle)
    ensures c in After(s, steps).value.ctxs && Shows(After(s, steps).value.ctxs[c], Fate(l, steps, c))
    ensures StatusFits(Fate(l, steps, c).status, Fate(l, steps, c).handle)
    decreases |steps|
  {
    hide Inv, Enabled, Resolved, Perform, Moved, Shows, StatusFits, Concerns;
    if steps != [] {
      StepIsFine(s, steps[0]);
      FateStep(s, steps[0], c, l);
      FateOfRun(Perform(s, steps[0]).value, steps[1..], c,
                if Concerns(steps[0], c) then Moved(l, steps[0]) else l);
    }
  }

  /** A context that has just been handed out. */
  const FRESH := Line(Uninitialize, Raw, false, false, false, SILENT)

  /**
    Connections are independent. From the moment a context is handed out until it is handed out again, its
    status, its handle and what its user was told are those of a connection on its own, to which nothing
    happens but the calls and callbacks that name it. Only a context that is put away no longer says CLOSED.
   */
  lemma FatesAreIndependent(s: State, spare: Context, steps: seq<Step>)
    requires Inv(s) && Enabled(s, Acquire(spare))
    requires var t := Activate(s, spare);
      Execution(t, steps) && After(t, steps).Ok? && StaysTheSame(t, steps, Picked(s, spare))
    ensures var c, t := Picked(s, spare), After(Activate(s, spare), steps).value;
      && c in t.ctxs
      && var f, l := t.ctxs[c], Fate(FRESH, steps, c);
      && f.handle == l.handle && f.connecting == l.connecting && f.shutting == l.shutting
      && f.closeNotify == l.closeNotify && f.calls == l.calls
      && (f.status == l.status || (f.status.Uninitialize? && l.status.Closed? && l.handle.Gone?))
  {
    hide Inv, Execution, After, StaysTheSame, Fate, ContextOk;
    var c, t := Picked(s, spare), Activate(s, spare);
    StepIsFine(s, Acquire(spare));
    FateOfRun(t, steps, c, FRESH);
    RunsAreSafe(t, steps);
    InvContext(After(t, steps).value, c);
    ShownWhole(After(t, steps).value.ctxs[c], Fate(FRESH, steps, c));
  }

  // ---------------------------------------------------------------------------------------------
  // Listeners

  /** A listener, on its way from `uv_listen` to being given back: nobody is told anything about it. */
  predicate Listening(l: Line) {
    && l.calls == SILENT && !l.closeNotify && !l.shutting && !l.connecting
    && match l.handle
       case Raw => false
       case Open => l.status.Listen?
       case InClose => l.status.Closing?
       case Gone => l.status.Closed? || l.status.Uninitialize?
  }

  lemma ListeningMoves(s: State, step: Step, c: Context)
    requires Enabled(s, step) && Concerns(step, c) && c in s.ctxs && Listening(LineOf(s.ctxs[c]))
    ensures Listening(Moved(LineOf(s.ctxs[c]), step))
  {
  }

  lemma ListeningShown(f: Fields, l: Line)
    requires Shows(f, l) && Listening(l) && ContextOk(f)
    ensures Listening(LineOf(f))
  {
  }

  lemma ListeningStays(s: State, step: Step, c: Context)
    requires Inv(s) && Enabled(s, step) && Resolved(s, step) && Perform(s, step).Ok?
    requires c in s.ctxs && !Reuses(s, step, c) && Listening(LineOf(s.ctxs[c]))
    ensures c in Perform(s, step).value.ctxs && Listening(LineOf(Perform(s, step).value.ctxs[c]))
  {
    hide Inv, Perform, Moved, Shows, Listening, ContextOk, LineOf;
    StepMoves(s, step, c);
    StepIsFine(s, step);
    InvContext(Perform(s, step).value, c);
    if Concerns(step, c) { ListeningMoves(s, step, c); }
    ListeningShown(Perform(s, step).value.ctxs[c], Left(s, step, c));
  }

  lemma {:induction false} ListeningRuns(s: State, steps: seq<Step>, c: Context)
    requires Inv(s) && Execution(s, steps) && After(s, steps).Ok? && StaysTheSame(s, steps, c)
    requires c in s.ctxs && Listening(LineOf(s.ctxs[c]))
    ensures c in After(s, steps).value.ctxs && Listening(LineOf(After(s, steps).value.ctxs[c]))
    decreases |steps|
  {
    hide Inv, Enabled, Resolved, Perform, Listening;
    if steps != [] {
      StepIsFine(s, steps[0]);
      ListeningStays(s, steps[0], c);
      ListeningRuns(Perform(s, steps[0]).value, steps[1..], c);
    }
  }

  /**
    A successful bind leaves an open listener. However it ends, as long as the context is not handed out for
    something else neither `connected` nor `disconnected` is called for it, and none becomes due.
   */
  lemma ListenersAreNeverToldOf(s: State, c: Context, t: State, steps: seq<Step>)
    requires Inv(s) && Enabled(s, Bind(c, true)) && Resolved(s, Bind(c, true)) && Perform(s, Bind(c, true)) == Ok(t)
    requires Execution(t, steps) && After(t, steps).Ok? && StaysTheSame(t, steps, c)
    ensures c in t.ctxs && t.ctxs[c].status.Listen? && t.ctxs[c].handle.Open?
    ensures c in After(t, steps).value.ctxs
    ensures var g := After(t, steps).value.ctxs[c];
      && !g.calls.greeted && g.calls.farewells == 0 && FarewellsDue(g) == 0
      && (g.handle.Open? ==> g.status.Listen?)
  {
    hide Inv, Execution, After, StaysTheSame;
    InvContext(s, c);
    StepIsFine(s, Bind(c, true));
    ListeningRuns(t, steps, c);
  }

  // ---------------------------------------------------------------------------------------------
  // Welcomes

  /** The two steps that call `connected`. */
  predicate Announces(step: Step, c: Context) {
    (step.Welcome? && step.c == c) || (step.Connected? && step.c == c && step.ok && step.reading)
  }

  function Told(f: Fields): nat { if f.calls.greeted then 1 else 0 }

  lemma WelcomeStep(s: State, step: Step, c: Context)
    requires Inv(s) && Enabled(s, step) && Resolved(s, step) && Perform(s, step).Ok?
    requires c in s.ctxs && !Reuses(s, step, c)
    ensures c in Perform(s, step).value.ctxs
    ensures Told(Perform(s, step).value.ctxs[c]) == Told(s.ctxs[c]) + if Announces(step, c) then 1 else 0
  {
    hide Inv, Perform;
    StepMoves(s, step, c);
    InvContext(s, c);
  }

  function Announcements(steps: seq<Step>, c: Context): nat {
    if steps == [] then 0 else (if Announces(steps[0], c) then 1 else 0) + Announcements(steps[1..], c)
  }

  lemma {:induction false} WelcomeRuns(s: State, steps: seq<Step>, c: Context)
    requires Inv(s) && Execution(s, steps) && After(s, steps).Ok? && StaysTheSame(s, steps, c) && c in s.ctxs
    ensures c in After(s, steps).value.ctxs
    ensures Told(After(s, steps).value.ctxs[c]) == Told(s.ctxs[c]) + Announcements(steps, c)
    decreases |steps|
  {
    hide Inv, Enabled, Resolved, Perform, Told, Announces;
    if steps != [] {
      StepIsFine(s, steps[0]);
      WelcomeStep(s, steps[0], c);
      WelcomeRuns(Perform(s, steps[0]).value, steps[1..], c);
    }
  }

  /**
    `connected` is called at most once while a context is handed out: when reading starts on an accepted
    connection, or when a connect succeeds and reading starts; never otherwise.
   */
  lemma WelcomedOnce(s: State, spare: Context, steps: seq<Step>)
    requires Inv(s) && Enabled(s, Acquire(spare))
    requires var t := Activate(s, spare);
      Execution(t, steps) && After(t, steps).Ok? && StaysTheSame(t, steps, Picked(s, spare))
    ensures var c, t := Picked(s, spare), After(Activate(s, spare), steps).value;
      c in t.ctxs && Announcements(steps, c) == if t.ctxs[c].calls.greeted then 1 else 0
  {
    hide Inv, Execution, After, StaysTheSame;
    StepIsFine(s, Acquire(spare));
    WelcomeRuns(Activate(s, spare), steps, Picked(s, spare));
  }
}
