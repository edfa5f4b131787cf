/**
  Every run of the model is a run of the objects: any list of steps that can be executed can be performed
  on a container, step after step, and leaves the objects as the model says.
 */
module ContainerRuns {
  import opened KsBuffer
  import opened Sockets
  import opened SocketRuns
  import opened Containers

  /** The step can be taken now, and it does not end the run. */
  ghost predicate CanGo(k: Container, step: Step)
    reads k, k.contexts, k.allBuffers, k.requests
  {
    && k.Valid() && Inv(k.State())
    && Enabled(k.State(), step) && Resolved(k.State(), step) && Perform(k.State(), step).Ok?
  }

  /** The memory a step would be given is as the allocator leaves it, unless it is the container's already. */
  ghost predicate SparesFit(k: Container, step: Step)
    reads k, if step.BufferAcquire? then {step.spareBuffer} else {}, if step.Send? then {step.spareReq} else {}
  {
    match step
    case BufferAcquire(b) => b in k.allBuffers || Pristine(b)
    case Send(_, _, r, _) => r in k.requests || r.context == null
    case _ => true
  }

  /** The container has lost no write request. */
  ghost predicate Accounted(k: Container)
    reads k, k.contexts, k.allBuffers, k.requests
  {
    forall r :: r in k.requests ==> r in k.State().reqs || r in k.State().pool
  }

  predicate OfHandle(step: Step) { OpensHandle(step) || step.CloseCall? || step.ShutdownCall? || step.ShutdownDone? }

  /** The steps that open, read, close and shut down a handle. */
  method PerformOnHandle(k: Container, step: Step)
    requires OfHandle(step) && CanGo(k, step)
    modifies k`active, k`inactive, k`connections, k.contexts
    ensures k.Valid() && Inv(k.State()) && Ok(k.State()) == Perform(old(k.State()), step)
  {
    hide Inv, Perform, Container.Valid, CloseHandle, Dereference;
    StepIsFine(k.State(), step);
    HandleKnown(k, step);
    match step {
      case InitHandle(c, ok) => k.InitHandle(c, ok);
      case Bind(c, ok) => k.Listen(c, ok);
      case Connect(c, ok) => k.StartConnect(c, ok);
      case Accept(c, ok) => k.Accept(c, ok);
      case Connected(c, ok, reading) => k.ConnectedCallback(c, ok, reading);
      case Welcome(c) => k.StartReading(c, true);
      case ReadRefused(c) => k.StartReading(c, false);
      case ReadEnd(c) => k.ReadEnded(c);
      case CloseCall(c) => var _ := k.Close(c);
      case ShutdownCall(c, ok) => var _ := k.Shutdown(c, ok);
      case ShutdownDone(c) => k.ShutdownCallback(c);
    }
  }

  lemma HandleKnown(k: Container, step: Step)
    requires OfHandle(step) && Resolved(k.State(), step)
    ensures step.c in k.contexts && k.State().ctxs[step.c] == step.c.Value()
  {
  }

  /** The memory a step takes for itself. */
  ghost function DrawnContexts(step: Step): set<Context> { if step.Acquire? then {step.spare} else {} }

  ghost function DrawnBuffers(k: Container, step: Step): set<Buffer>
    reads k
  {
    if step.BufferAcquire? && k.buffers == [] then {step.spareBuffer} else {}
  }

  ghost function DrawnReqs(k: Container, step: Step): set<WriteReq>
    reads k, if step.Send? then {step.c} else {}
  {
    if step.Send? && k.writereqBuffers == [] && step.c.status.Established? then {step.spareReq} else {}
  }

  predicate OfContext(step: Step) { step.Acquire? || step.AfterClose? || step.UserRef? || step.UserDeref? }
  predicate OfBuffer(step: Step) { step.BufferAcquire? || step.BufferRef? || step.BufferDeref? || step.BufferWrite? }
  predicate OfWrite(step: Step) { step.Send? || step.Written? }

  /** The steps that take contexts from their pool and give them back. */
  method PerformOnContexts(k: Container, step: Step)
    requires OfContext(step) && CanGo(k, step)
    modifies k`active, k`inactive, k`connections, k`uniqidIterators, k`contexts, k.contexts, DrawnContexts(step)
    ensures k.Valid() && Inv(k.State()) && Ok(k.State()) == Perform(old(k.State()), step)
    ensures k.contexts <= old(k.contexts) + DrawnContexts(step)
  {
    hide Inv, Perform, Container.Valid, Dereference, Enabled;
    ContextKnown(k, step);
    match step {
      case Acquire(spare) => var _ := k.Activated(spare);
      case AfterClose(c) => k.AfterClosed(c);
      case UserRef(c) => k.Hold(c);
      case UserDeref(c) => k.Release(c);
    }
  }

  /** The steps that take buffers from their pool, use them, and give them back. */
  method PerformOnBuffers(k: Container, step: Step)
    requires OfBuffer(step) && CanGo(k, step) && SparesFit(k, step)
    modifies k`buffers, k`usingBuffers, k`allBuffers, k.allBuffers, DrawnBuffers(k, step)
    ensures k.Valid() && Inv(k.State()) && Ok(k.State()) == Perform(old(k.State()), step)
    ensures k.allBuffers == old(k.allBuffers) + old(DrawnBuffers(k, step))
  {
    hide Inv, Perform, Container.Valid, BufferDereference, Enabled;
    BufferKnown(k, step);
    match step {
      case BufferAcquire(spare) => var _ := k.NewBuffer(spare);
      case BufferRef(b) => k.HoldBuffer(b);
      case BufferDeref(b) => k.ReleaseBuffer(b);
      case BufferWrite(b, n) => k.GrowBuffer(b, n);
    }
  }

  /** The steps that give write requests to libuv and take them back. */
  method PerformOnWrites(k: Container, step: Step)
    requires OfWrite(step) && CanGo(k, step) && SparesFit(k, step) && Accounted(k)
    modifies k`active, k`inactive, k`connections, k`buffers, k`usingBuffers, k`writereqBuffers, k`requests, k`inflight
    modifies k.contexts, k.allBuffers, k.requests, DrawnReqs(k, step)
    ensures k.Valid() && Inv(k.State()) && Ok(k.State()) == Perform(old(k.State()), step)
    ensures k.requests == old(k.requests) + old(DrawnReqs(k, step))
  {
    hide Inv, Perform, Container.Valid, Enabled;
    WriteKnown(k, step);
    match step {
      case Send(c, b, spare, ok) =>
        SendMeans(k.State(), c, b, spare, ok);
        var _ := k.Send(c, b, spare, ok);
      case Written(r) =>
        WrittenMeans(k.State(), r);
        k.WriteCallback(r, r.context, r.buffer);
    }
  }

  lemma WrittenMeans(s: State, r: WriteReq)
    requires Resolved(s, Written(r))
    ensures Perform(s, Written(r)) == PerformWritten(s, r)
  {
  }

  // What the methods ask for is what the model's guards say.

  lemma ContextKnown(k: Container, step: Step)
    requires OfContext(step) && CanGo(k, step)
    ensures match step
      case Acquire(spare) => k.uniqidIterators + 1 < ID_LIMIT && (k.inactive == [] ==> spare !in k.contexts)
      case UserRef(c) => c in k.contexts && c.active
      case _ => step.c in k.contexts && Enabled(k.State(), step)
  {
    hide Inv, Perform, Container.Valid;
    if step.UserRef? { assert k.State().ctxs[step.c] == step.c.Value(); }
  }

  lemma BufferKnown(k: Container, step: Step)
    requires OfBuffer(step) && CanGo(k, step) && SparesFit(k, step)
    ensures match step
      case BufferAcquire(spare) => k.buffers == [] ==> spare !in k.allBuffers && Pristine(spare)
      case BufferRef(b) => b in k.allBuffers && b in k.usingBuffers
      case BufferDeref(b) => b in k.allBuffers && b.users > 0
      case BufferWrite(b, _) => b in k.allBuffers && b.users > 0
      case _ => true
  {
    hide Inv, Perform, Container.Valid;
  }

  lemma WriteKnown(k: Container, step: Step)
    requires OfWrite(step) && CanGo(k, step) && SparesFit(k, step) && Accounted(k)
    ensures match step
      case Send(c, b, spare, ok) =>
        && c in k.contexts && b in k.allBuffers && b in k.usingBuffers
        && (c.status.Established? ==> c.held.handle.Open?)
        && (k.writereqBuffers == [] ==> spare !in k.requests && spare.context == null)
        && (k.writereqBuffers != [] ==> PickedReq(k.State(), spare) in k.requests)
        && k.State().ctxs[c] == c.Value()
      case Written(r) =>
        && r in k.requests && r.context != null && r.buffer != null && r.context in k.contexts
          && r.buffer in k.allBuffers
        && r in k.State().reqs && k.State().reqs[r] == Claim(r.context, r.buffer)
      case _ => true
  {
    hide Inv, Perform;
    if step.Send? {
      assert k.State().ctxs[step.c] == step.c.Value();
      StepIsFine(k.State(), step);
      SendNotTwice(k.State(), step.c, step.b, step.spareReq, step.ok);
    }
  }

  /** A send that goes through was not made on a closing handle. */
  lemma SendNotTwice(s: State, c: Context, b: Buffer, spare: WriteReq, ok: bool)
    requires Inv(s) && Enabled(s, Send(c, b, spare, ok)) && b in s.bufs
    requires !ClosesTwice(s, Send(c, b, spare, ok))
    ensures s.ctxs[c].status.Established? ==> s.ctxs[c].handle.Open?
  {
    hide Inv;
    InvContext(s, c);
  }

  // ---------------------------------------------------------------------------------------------
  // One step, and all of them

  /** The request a send has taken is in flight, or back in the pool. */
  lemma SendPlaces(s: State, c: Context, b: Buffer, spare: WriteReq, ok: bool)
    requires c in s.ctxs && b in s.bufs && s.ctxs[c].status.Established? && PerformSend(s, c, b, spare, ok).Ok?
    ensures var t := PerformSend(s, c, b, spare, ok).value;
      PickedReq(s, spare) in t.reqs || PickedReq(s, spare) in t.pool
  {
    hide Dereference, BufferDereference;
  }

  /** Requests stay accounted for; `taken` is the one a send may have added. */
  lemma StaysAccounted(s: State, t: State, step: Step, requests: set<WriteReq>, taken: set<WriteReq>)
    requires Resolved(s, step) && Perform(s, step) == Ok(t)
    requires forall r :: r in requests ==> r in s.reqs || r in s.pool
    requires taken <= if step.Send? && s.pool == [] && s.ctxs[step.c].status.Established? then {step.spareReq} else {}
    ensures forall r :: r in requests + taken ==> r in t.reqs || r in t.pool
  {
    hide Perform, PerformSend;
    StepRemembers(s, step);
    if step.Send? && s.ctxs[step.c].status.Established? {
      SendMeans(s, step.c, step.b, step.spareReq, step.ok);
      SendPlaces(s, step.c, step.b, step.spareReq, step.ok);
    }
  }

  /** Any step that can be taken is performed on the objects. */
  method PerformStep(k: Container, step: Step)
    requires CanGo(k, step) && SparesFit(k, step) && Accounted(k)
    modifies k, k.contexts, k.allBuffers, k.requests
    modifies DrawnContexts(step), DrawnBuffers(k, step), DrawnReqs(k, step)
    ensures k.Valid() && Inv(k.State()) && Accounted(k) && Ok(k.State()) == Perform(old(k.State()), step)
    ensures k.contexts <= old(k.contexts) + DrawnContexts(step)
    ensures k.allBuffers == old(k.allBuffers) + old(DrawnBuffers(k, step))
    ensures k.requests == old(k.requests) + old(DrawnReqs(k, step))
  {
    hide Inv, Perform, Container.Valid, Container.State, Enabled;
    ghost var s, requests, drawn := k.State(), k.requests, DrawnReqs(k, step);
    DrawnFits(k, step);
    if OfHandle(step) {
      PerformOnHandle(k, step);
    } else if OfContext(step) {
      PerformOnContexts(k, step);
    } else if OfBuffer(step) {
      PerformOnBuffers(k, step);
    } else {
      PerformOnWrites(k, step);
    }
    StaysAccounted(s, k.State(), step, requests, drawn);
  }

  lemma DrawnFits(k: Container, step: Step)
    requires Resolved(k.State(), step)
    ensures var s := k.State();
      DrawnReqs(k, step)
      <= if step.Send? && s.pool == [] && s.ctxs[step.c].status.Established? then {step.spareReq} else {}
  {
    if step.Send? { assert k.State().ctxs[step.c] == step.c.Value(); }
  }

  ghost function SpareContexts(steps: seq<Step>): set<Context> {
    set step | step in steps && step.Acquire? :: step.spare
  }

  ghost function SpareBuffers(steps: seq<Step>): set<Buffer> {
    set step | step in steps && step.BufferAcquire? :: step.spareBuffer
  }

  ghost function SpareReqs(steps: seq<Step>): set<WriteReq> {
    set step | step in steps && step.Send? :: step.spareReq
  }

  lemma Unrolled(s: State, steps: seq<Step>, i: nat)
    requires i < |steps| && Execution(s, steps[i..]) && After(s, steps[i..]).Ok?
    ensures Enabled(s, steps[i]) && Resolved(s, steps[i]) && Perform(s, steps[i]).Ok?
    ensures var t := Perform(s, steps[i]).value;
      Execution(t, steps[i + 1..]) && After(t, steps[i + 1..]) == After(s, steps[i..])
  {
    hide Enabled, Resolved, Perform;
    assert steps[i..][0] == steps[i] && steps[i..][1..] == steps[i + 1..];
  }

  lemma NothingLeft(s: State, steps: seq<Step>)
    requires steps == []
    ensures After(s, steps) == Ok(s)
  {
  }

  /**
    Refinement: whatever list of steps can be executed without an abort, performing it on the objects
    leads to the state the model gives. The constructor of `Container` establishes what is asked of `k`.
   */
  method Replay(k: Container, steps: seq<Step>)
    requires k.Valid() && Inv(k.State()) && Accounted(k)
    requires Execution(k.State(), steps) && After(k.State(), steps).Ok?
    requires forall step :: step in steps ==> SparesFit(k, step)
    modifies k, k.contexts, k.allBuffers, k.requests, SpareContexts(steps), SpareBuffers(steps), SpareReqs(steps)
    ensures k.Valid() && Inv(k.State()) && Accounted(k) && After(old(k.State()), steps) == Ok(k.State())
  {
    hide Inv, Perform, Execution, After, Container.Valid, Container.State, Enabled, Resolved, Accounted;
    var i := 0;
    assert steps[0..] == steps;
    while i < |steps|
      invariant i <= |steps| && k.Valid() && Inv(k.State()) && Accounted(k)
      invariant Execution(k.State(), steps[i..]) && After(k.State(), steps[i..]) == After(old(k.State()), steps)
      invariant forall j :: i <= j < |steps| ==> SparesFit(k, steps[j])
      invariant k.contexts <= old(k.contexts) + SpareContexts(steps)
      invariant k.allBuffers <= old(k.allBuffers) + SpareBuffers(steps)
      invariant k.requests <= old(k.requests) + SpareReqs(steps)
    {
      Unrolled(k.State(), steps, i);
      PerformStep(k, steps[i]);
      i := i + 1;
    }
    NothingLeft(k.State(), steps[i..]);
  }

  /** From a new container, by calls alone: a connection comes in, and a user's buffer is on its way out. */
  method AcceptAndSend() returns (k: Container, c: Context, b: Buffer, err: int, ghost r: WriteReq)
    ensures k.Valid() && Inv(k.State()) && c in k.contexts && b in k.allBuffers && err == 0
    ensures r in k.inflight && r in k.State().reqs && k.State().reqs[r] == Claim(c, b)
  {
    hide Inv, Perform, PerformSend, Execution, After, Container.Valid, Container.State, Init, AcceptSteps, Resolved;
    var buffer := new Buffer();
    var req := new WriteReq();
    k, c := FirstConnection();
    b := k.NewBuffer(buffer);
    ghost var s := k.State();
    k.KnownContext(c);
    k.KnownBuffer(b);
    r := PickedReq(s, req);
    SendPromises(s, c, b, req);
    err := k.Send(c, b, req, true);
    InflightIs(k);
  }

  /** An accepted write is in flight, for this context and this buffer. */
  lemma SendPromises(s: State, c: Context, b: Buffer, spare: WriteReq)
    requires c in s.ctxs && b in s.bufs && s.ctxs[c].status.Established?
    ensures var o, r := PerformSend(s, c, b, spare, true), PickedReq(s, spare);
      o.Ok? && r in o.value.inflight && r in o.value.reqs && o.value.reqs[r] == Claim(c, b)
  {
  }

  lemma InflightIs(k: Container)
    ensures k.State().inflight == k.inflight
  {
  }

  method FirstConnection() returns (k: Container, c: Context)
    ensures fresh(k) && fresh(k.contexts) && fresh(k.allBuffers) && fresh(k.requests)
    ensures k.Valid() && Inv(k.State()) && k.allBuffers == {} && k.requests == {} && c in k.contexts
    ensures c.status.Established? && c.held.handle.Open?
  {
    hide Inv, Perform, Execution, After, Container.Valid, Container.State, Init, AcceptSteps, Resolved;
    k := new Container(0, 0, 0);
    FirstId(k);
    var context := new Context();
    c := k.ConnectionCallback(context, true, true, false, true, true);
  }

  lemma FirstId(k: Container)
    requires k.State() == Init(k.inactive, k.buffers, k.writereqBuffers)
    ensures k.uniqidIterators == 1
  {
  }
}
