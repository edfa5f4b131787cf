/**
  Progress of the socket container: what libuv still owes it runs out, where it then rests, and whether
  the container may be destroyed after `ks_socket_stop` and the callbacks that are due.
 */
module SocketRest {
  import opened KsBuffer
  import opened Sockets
  import opened SocketRuns

  /** The callbacks libuv owes; all other steps are calls from outside, or data and connections coming in. */
  predicate Callback(step: Step) { step.Connected? || step.ShutdownDone? || step.Written? || step.AfterClose? }

  predicate AllCallbacks(steps: seq<Step>) { forall i :: 0 <= i < |steps| ==> Callback(steps[i]) }

  predicate RestingFields(f: Fields) { !f.connecting && !f.shutting && !f.handle.InClose? }

  /** Nothing is owed. */
  ghost predicate AtRest(s: State) {
    s.inflight == {} && forall c :: c in s.ctxs ==> RestingFields(s.ctxs[c])
  }

  /** A callback that can come, if any can. */
  ghost function Due(s: State): Step
    requires !AtRest(s)
  {
    if s.inflight != {} then
      var r :| r in s.inflight; Written(r)
    else
      var c :| c in s.ctxs && !RestingFields(s.ctxs[c]);
      if s.ctxs[c].connecting then Connected(c, false, false)
      else if s.ctxs[c].shutting then ShutdownDone(c)
      else AfterClose(c)
  }

  lemma DueIsEnabled(s: State)
    requires !AtRest(s)
    ensures Callback(Due(s)) && Enabled(s, Due(s))
  {
  }

  /** At rest no callback can come, and otherwise one can. */
  lemma RestIff(s: State)
    requires Inv(s)
    ensures AtRest(s) <==> forall step :: Callback(step) ==> !Enabled(s, step)
  {
    hide Inv, Due;
    if !AtRest(s) { DueIsEnabled(s); }
  }

  // ---------------------------------------------------------------------------------------------
  // What a callback does to handles and users

  /** The same contexts with the same handles, held by the same users. */
  ghost predicate SameHandles(a: map<Context, Fields>, b: map<Context, Fields>) {
    && a.Keys == b.Keys
    && forall c :: c in a ==>
         && a[c].handle == b[c].handle && a[c].users == b[c].users
         && a[c].connecting == b[c].connecting && a[c].shutting == b[c].shutting
  }

  ghost predicate SameUsers(a: map<Buffer, Pooled>, b: map<Buffer, Pooled>) {
    a.Keys == b.Keys && forall d :: d in a ==> a[d].users == b[d].users
  }

  /** What a callback makes of its context's handle. */
  function Effect(f: Fields, step: Step): Fields {
    match step
    case Connected(_, ok, reading) => f.(connecting := false, handle := if ok && reading then f.handle else InClose)
    case ShutdownDone(_) => f.(shutting := false, handle := InClose)
    case AfterClose(_) => f.(handle := Gone)
    case _ => f
  }

  lemma DereferenceHandles(s: State, c: Context)
    requires c in s.ctxs && Dereference(s, c).Ok?
    ensures var t := Dereference(s, c).value;
      SameHandles(s.ctxs, t.ctxs) && t.bufs == s.bufs && t.inflight == s.inflight
  {
    hide Remove;
  }

  lemma DetachHandles(s: State, r: WriteReq)
    requires r in s.reqs && s.reqs[r].context in s.ctxs && s.reqs[r].buffer in s.bufs && Detach(s, r).Ok?
    ensures var t := Detach(s, r).value;
      SameHandles(s.ctxs, t.ctxs) && SameUsers(s.bufs, t.bufs) && t.inflight == s.inflight
  {
    hide Dereference, Remove;
    var Claim(c, b) := s.reqs[r];
    DereferenceHandles(BufferDereference(Unlist(s, r, c), b), c);
  }

  lemma CloseHandles(s: State, c: Context, f: Fields)
    requires c in s.ctxs && CloseHandle(Put(s, c, f), c).Ok?
    ensures CloseHandle(Put(s, c, f), c) == Ok(Put(s, c, f.(status := Closing, handle := InClose)))
  {
    PutTwice(s, c, f, f.(status := Closing));
    PutTwice(s, c, f.(status := Closing), f.(status := Closing, handle := InClose));
  }

  lemma ConnectedEffect(s: State, c: Context, ok: bool, reading: bool)
    requires c in s.ctxs && Perform(s, Connected(c, ok, reading)).Ok?
    ensures var t := Perform(s, Connected(c, ok, reading)).value;
      && t.bufs == s.bufs && t.inflight == s.inflight
      && SameHandles(s.ctxs[c := Effect(s.ctxs[c], Connected(c, ok, reading))], t.ctxs)
  {
    hide CloseHandle;
    var f := s.ctxs[c].(connecting := false);
    PutTwice(s, c, f, f.(status := Established));
    PutTwice(s, c, f, Greet(f.(status := Established)));
    if !ok { CloseHandles(s, c, f); } else if !reading { CloseHandles(s, c, f.(status := Established)); }
  }

  lemma WrittenEffect(s: State, r: WriteReq)
    requires Resolved(s, Written(r)) && Perform(s, Written(r)).Ok?
    ensures var t := Perform(s, Written(r)).value;
      SameUsers(s.bufs, t.bufs) && SameHandles(s.ctxs, t.ctxs) && t.inflight == s.inflight - {r}
  {
    hide Detach, SameUsers, SameHandles;
    DetachHandles(s, r);
  }

  lemma AfterCloseEffect(s: State, c: Context)
    requires c in s.ctxs && Perform(s, AfterClose(c)).Ok?
    ensures var t := Perform(s, AfterClose(c)).value;
      && t.bufs == s.bufs && t.inflight == s.inflight
      && SameHandles(s.ctxs[c := Effect(s.ctxs[c], AfterClose(c))], t.ctxs)
  {
    hide Dereference;
    DereferenceHandles(Put(s, c, Ended(s.ctxs[c])), c);
  }

  lemma ShutdownDoneEffect(s: State, c: Context)
    requires c in s.ctxs && Perform(s, ShutdownDone(c)).Ok?
    ensures var t := Perform(s, ShutdownDone(c)).value;
      && t.bufs == s.bufs && t.inflight == s.inflight
      && SameHandles(s.ctxs[c := Effect(s.ctxs[c], ShutdownDone(c))], t.ctxs)
  {
    hide CloseHandle;
    CloseHandles(s, c, Farewell(s.ctxs[c].(shutting := false, status := Shutdown)));
  }

  /** A write callback changes no handle, and the three others that of their context in one way. */
  lemma CallbackEffect(s: State, step: Step)
    requires Callback(step) && Resolved(s, step) && Perform(s, step).Ok?
    ensures var t := Perform(s, step).value;
      && SameUsers(s.bufs, t.bufs)
      && (if step.Written? then SameHandles(s.ctxs, t.ctxs) && t.inflight == s.inflight - {step.r}
          else SameHandles(s.ctxs[step.c := Effect(s.ctxs[step.c], step)], t.ctxs) && t.inflight == s.inflight)
  {
    hide Perform, SameHandles;
    match step {
      case Written(r) => WrittenEffect(s, r);
      case AfterClose(c) => AfterCloseEffect(s, c);
      case ShutdownDone(c) => ShutdownDoneEffect(s, c);
      case Connected(c, ok, reading) => ConnectedEffect(s, c, ok, reading);
    }
  }

  // ---------------------------------------------------------------------------------------------
  // Callbacks run out

  ghost function Opens(ctxs: map<Context, Fields>): set<Context> {
    set c | c in ctxs && ctxs[c].handle.Open?
  }

  ghost function Unclosed(ctxs: map<Context, Fields>): set<Context> {
    set c | c in ctxs && (ctxs[c].handle.Open? || ctxs[c].handle.InClose?)
  }

  ghost function Connects(ctxs: map<Context, Fields>): set<Context> {
    set c | c in ctxs && ctxs[c].connecting
  }

  /** An upper bound on the callbacks still to come. */
  ghost function Work(ctxs: map<Context, Fields>, inflight: set<WriteReq>): nat {
    |inflight| + |Opens(ctxs)| + |Unclosed(ctxs)| + |Connects(ctxs)|
  }

  lemma SubsetSizes<T>(a: set<T>, b: set<T>)
    requires a <= b
    ensures |a| <= |b| && (a != b ==> |a| < |b|)
  {
    assert b == a + (b - a) && a * (b - a) == {};
  }

  lemma SameWork(a: map<Context, Fields>, b: map<Context, Fields>, inflight: set<WriteReq>)
    requires SameHandles(a, b)
    ensures Work(a, inflight) == Work(b, inflight)
  {
    assert Opens(a) == Opens(b) && Unclosed(a) == Unclosed(b) && Connects(a) == Connects(b);
  }

  /** The context has got further, and never comes back. */
  lemma EffectWorks(ctxs: map<Context, Fields>, step: Step, inflight: set<WriteReq>)
    requires Callback(step) && !step.Written? && step.c in ctxs
    requires var f := ctxs[step.c];
      match step
      case Connected(_, _, _) => f.connecting && f.handle.Open?
      case ShutdownDone(_) => f.handle.Open?
      case _ => f.handle.InClose?
    ensures Work(ctxs[step.c := Effect(ctxs[step.c], step)], inflight) < Work(ctxs, inflight)
  {
    var c, ctxs' := step.c, ctxs[step.c := Effect(ctxs[step.c], step)];
    assert Opens(ctxs') <= Opens(ctxs) && Unclosed(ctxs') <= Unclosed(ctxs) && Connects(ctxs') <= Connects(ctxs);
    SubsetSizes(Opens(ctxs'), Opens(ctxs));
    SubsetSizes(Unclosed(ctxs'), Unclosed(ctxs));
    SubsetSizes(Connects(ctxs'), Connects(ctxs));
    assert step.Connected? ==> c in Connects(ctxs) && c !in Connects(ctxs');
    assert step.ShutdownDone? ==> c in Opens(ctxs) && c !in Opens(ctxs');
    assert step.AfterClose? ==> c in Unclosed(ctxs) && c !in Unclosed(ctxs');
  }

  /** What can come, and what `uv_close` then found, says where the context stood. */
  lemma CallbackStands(s: State, step: Step)
    requires Inv(s) && Enabled(s, step) && Callback(step) && !step.Written? && Perform(s, step).Ok?
    ensures var f := s.ctxs[step.c];
      match step
      case Connected(_, _, _) => f.connecting && !f.shutting && f.handle.Open?
      case ShutdownDone(_) => f.shutting && f.handle.Open?
      case _ => f.handle.InClose?
  {
    hide Inv, Perform;
    InvContext(s, step.c);
    StepIsFine(s, step);
  }

  lemma CallbackWorks(s: State, step: Step)
    requires Inv(s) && Enabled(s, step) && Resolved(s, step) && Callback(step) && Perform(s, step).Ok?
    ensures Work(Perform(s, step).value.ctxs, Perform(s, step).value.inflight) < Work(s.ctxs, s.inflight)
  {
    hide Inv, Perform, Work, SameHandles, SameUsers, Effect;
    var t := Perform(s, step).value;
    CallbackEffect(s, step);
    if step.Written? {
      SameWork(s.ctxs, t.ctxs, t.inflight);
      WorkOfFewer(s.ctxs, s.inflight, step.r);
    } else {
      CallbackStands(s, step);
      EffectWorks(s.ctxs, step, s.inflight);
      SameWork(s.ctxs[step.c := Effect(s.ctxs[step.c], step)], t.ctxs, t.inflight);
    }
  }

  lemma WorkOfFewer(ctxs: map<Context, Fields>, inflight: set<WriteReq>, r: WriteReq)
    requires r in inflight
    ensures Work(ctxs, inflight - {r}) < Work(ctxs, inflight)
  {
  }

  /** Progress: after at most `Work` callbacks nothing is owed any more. */
  lemma {:induction false} CallbacksEnd(s: State, steps: seq<Step>)
    requires Inv(s) && Execution(s, steps) && AllCallbacks(steps) && After(s, steps).Ok?
    ensures |steps| + Work(After(s, steps).value.ctxs, After(s, steps).value.inflight) <= Work(s.ctxs, s.inflight)
    decreases |steps|
  {
    hide Inv, Enabled, Resolved, Perform, Work;
    if steps != [] {
      CallbackWorks(s, steps[0]);
      StepIsFine(s, steps[0]);
      assert AllCallbacks(steps[1..]);
      CallbacksEnd(Perform(s, steps[0]).value, steps[1..]);
    }
  }

  /** From a calm state the callbacks that are owed can come, and then nothing is owed. */
  lemma {:induction false} Settles(s: State) returns (steps: seq<Step>)
    requires Inv(s) && Calm(s)
    ensures Execution(s, steps) && AllCallbacks(steps) && After(s, steps).Ok? && AtRest(After(s, steps).value)
    decreases Work(s.ctxs, s.inflight)
  {
    hide Inv, Calm, Enabled, Resolved, Perform, Work, AtRest, Due;
    if AtRest(s) {
      steps := [];
    } else {
      var step := Due(s);
      DueIsEnabled(s);
      StepIsFine(s, step);
      CalmMeansSingleClose(s, step);
      CalmGoesOn(s, step);
      CallbackWorks(s, step);
      var rest := Settles(Perform(s, step).value);
      steps := [step] + rest;
      assert steps[1..] == rest;
    }
  }

  lemma CalmGoesOn(s: State, step: Step)
    requires Calm(s) && Inv(s) && Enabled(s, step) && Resolved(s, step) && Callback(step) && Perform(s, step).Ok?
    ensures Calm(Perform(s, step).value)
  {
    hide Inv, Calm, Enabled, Perform;
    StepStaysCalm(s, step);
  }

  // ---------------------------------------------------------------------------------------------
  // Stopping, and destroying afterwards

  /** What `ks_socket_close` makes of an open context: only a connection gets a farewell. */
  function Stopped(f: Fields): Fields {
    if f.status.Established? then f.(closeNotify := true, status := Closing, handle := InClose)
    else if f.status.Listen? then f.(status := Closing, handle := InClose)
    else f
  }

  /** `ks_socket_stop` leads from `s` to `t`. */
  ghost predicate StoppedAll(s: State, t: State) {
    && t == s.(ctxs := t.ctxs) && t.ctxs.Keys == s.ctxs.Keys
    && forall c :: c in s.ctxs ==> t.ctxs[c] == Stopped(s.ctxs[c])
  }

  lemma StoppedFields(f: Fields)
    requires ContextOk(f) && CalmFields(f)
    ensures ContextOk(Stopped(f)) && CalmFields(Stopped(f))
    ensures Stuck(Stopped(f)) <==> f.handle.Raw? || f.status.Initialized?
  {
  }

  lemma StopKeeps(s: State, t: State)
    requires Inv(s) && Calm(s) && StoppedAll(s, t)
    ensures Inv(t) && Calm(t)
  {
    hide CalmFields, ContextOk, Stuck, ListsOk, WritesOk, BuffersOk, TableOk;
    assert forall c :: c in s.ctxs <==> c in t.ctxs;
    forall c | c in t.ctxs ensures ContextOk(t.ctxs[c]) && CalmFields(t.ctxs[c]) {
      assert ContextOk(s.ctxs[c]) && CalmFields(s.ctxs[c]);
      StoppedFields(s.ctxs[c]);
    }
    LikeLists(s.ctxs, t.ctxs, s.active, s.inactive);
    LikeWrites(s.ctxs, t.ctxs, s.reqs, s.pool, s.inflight);
    LikeTable(s.ctxs, t.ctxs, s.table, s.lastId);
  }

  /** The same contexts as far as the lists, the writes and the table know them. */
  ghost predicate Like(a: map<Context, Fields>, b: map<Context, Fields>) {
    && a.Keys == b.Keys
    && forall c :: c in a ==>
         a[c].active == b[c].active && a[c].uniqid == b[c].uniqid && a[c].sendorder == b[c].sendorder
  }

  lemma LikeLists(a: map<Context, Fields>, b: map<Context, Fields>, active: seq<Context>, inactive: seq<Context>)
    requires Like(a, b) && ListsOk(a, active, inactive)
    ensures ListsOk(b, active, inactive)
  {
    assert forall c :: c in a <==> c in b;
  }

  lemma LikeWrites(a: map<Context, Fields>, b: map<Context, Fields>, reqs: map<WriteReq, Claim>, pool: seq<WriteReq>,
                   inflight: set<WriteReq>)
    requires Like(a, b) && WritesOk(a, reqs, pool, inflight)
    ensures WritesOk(b, reqs, pool, inflight)
  {
    assert forall c :: c in a <==> c in b;
  }

  lemma LikeTable(a: map<Context, Fields>, b: map<Context, Fields>, table: map<nat, Context>, lastId: nat)
    requires Like(a, b) && TableOk(a, table, lastId)
    ensures TableOk(b, table, lastId)
  {
    assert forall c :: c in a <==> c in b;
  }

  /** A context that no callback will ever close: its handle is open or not initialised, and nothing is owed for it. */
  predicate Stuck(f: Fields) { f.handle.Raw? || (f.handle.Open? && !f.connecting && !f.shutting) }

  ghost predicate SomeStuck(ctxs: map<Context, Fields>) { exists c :: c in ctxs && Stuck(ctxs[c]) }

  /** A connection attempt succeeds: its handle stays open. */
  predicate Succeeds(step: Step) { step.Connected? && step.ok && step.reading }

  lemma StuckAfter(s: State, step: Step)
    requires Inv(s) && Enabled(s, step) && Resolved(s, step) && Callback(step) && Perform(s, step).Ok?
    ensures SomeStuck(Perform(s, step).value.ctxs) <==> SomeStuck(s.ctxs) || Succeeds(step)
  {
    hide Inv, Perform, SomeStuck, SameHandles, SameUsers, Enabled, Resolved;
    var t := Perform(s, step).value;
    CallbackEffect(s, step);
    if step.Written? {
      SameStuck(s.ctxs, t.ctxs);
    } else {
      CallbackStands(s, step);
      assert step.c in s.ctxs by { ResolvedContext(s, step); }
      EffectStuck(s.ctxs, step);
      SameStuck(s.ctxs[step.c := Effect(s.ctxs[step.c], step)], t.ctxs);
    }
  }

  lemma ResolvedContext(s: State, step: Step)
    requires Resolved(s, step) && Callback(step) && !step.Written?
    ensures step.c in s.ctxs
  {
  }

  lemma SameStuck(a: map<Context, Fields>, b: map<Context, Fields>)
    requires SameHandles(a, b)
    ensures SomeStuck(a) <==> SomeStuck(b)
  {
    assert forall c :: c in a <==> c in b;
    assert forall c :: c in a ==> (Stuck(a[c]) <==> Stuck(b[c]));
  }

  lemma EffectStuck(ctxs: map<Context, Fields>, step: Step)
    requires Callback(step) && !step.Written? && step.c in ctxs
    requires var f := ctxs[step.c];
      match step
      case Connected(_, _, _) => f.connecting && !f.shutting && f.handle.Open?
      case ShutdownDone(_) => f.shutting && f.handle.Open?
      case _ => f.handle.InClose?
    ensures SomeStuck(ctxs[step.c := Effect(ctxs[step.c], step)]) <==> SomeStuck(ctxs) || Succeeds(step)
  {
    var c, ctxs' := step.c, ctxs[step.c := Effect(ctxs[step.c], step)];
    assert !Stuck(ctxs[c]) && (Stuck(ctxs'[c]) <==> Succeeds(step));
    if d :| d in ctxs && Stuck(ctxs[d]) { assert d != c && ctxs'[d] == ctxs[d]; }
    if d :| d in ctxs' && Stuck(ctxs'[d]) { assert d == c || ctxs'[d] == ctxs[d]; }
    assert c in ctxs';
  }

  /** No user holds a reference. */
  ghost predicate NobodyHolds(ctxs: map<Context, Fields>, bufs: map<Buffer, Pooled>) {
    (forall c :: c in ctxs ==> ctxs[c].users == 0) && (forall b :: b in bufs ==> bufs[b].users == 0)
  }

  /** Every user holds what he held before. */
  ghost predicate SameHoldings(a: map<Context, Fields>, b: map<Context, Fields>,
                               bufs: map<Buffer, Pooled>, bufs': map<Buffer, Pooled>) {
    a.Keys == b.Keys && (forall c :: c in a ==> a[c].users == b[c].users) && SameUsers(bufs, bufs')
  }

  lemma HoldingsTell(a: map<Context, Fields>, b: map<Context, Fields>,
                     bufs: map<Buffer, Pooled>, bufs': map<Buffer, Pooled>)
    requires SameHoldings(a, b, bufs, bufs')
    ensures NobodyHolds(a, bufs) <==> NobodyHolds(b, bufs')
  {
    assert (forall c :: c in a <==> c in b) && (forall d :: d in bufs <==> d in bufs');
  }

  lemma HoldingsChain(s: State, t: State, u: State)
    requires SameHoldings(s.ctxs, t.ctxs, s.bufs, t.bufs) && SameHoldings(t.ctxs, u.ctxs, t.bufs, u.bufs)
    ensures SameHoldings(s.ctxs, u.ctxs, s.bufs, u.bufs)
  {
    assert (forall c :: c in s.ctxs <==> c in t.ctxs) && (forall d :: d in s.bufs <==> d in t.bufs);
  }

  lemma UsersAfter(s: State, step: Step)
    requires Callback(step) && Resolved(s, step) && Perform(s, step).Ok?
    ensures var t := Perform(s, step).value; SameHoldings(s.ctxs, t.ctxs, s.bufs, t.bufs)
  {
    hide Perform, SameHoldings, SameHandles, SameUsers;
    CallbackEffect(s, step);
    var t := Perform(s, step).value;
    if step.Written? {
      SameHolders(s.ctxs, s.ctxs, t.ctxs, s.bufs, t.bufs);
    } else {
      SameHolders(s.ctxs, s.ctxs[step.c := Effect(s.ctxs[step.c], step)], t.ctxs, s.bufs, t.bufs);
    }
  }

  lemma SameHolders(before: map<Context, Fields>, a: map<Context, Fields>, b: map<Context, Fields>,
                    bufs: map<Buffer, Pooled>, bufs': map<Buffer, Pooled>)
    requires before.Keys == a.Keys && forall c :: c in before ==> before[c].users == a[c].users
    requires SameHandles(a, b) && SameUsers(bufs, bufs')
    ensures SameHoldings(before, b, bufs, bufs')
  {
    assert forall c :: c in before <==> c in a;
  }

  /**
    A run of callbacks from a calm state: it never aborts, changes no user's holdings, and what is stuck at
    its end is known from its start.
   */
  lemma {:induction false} CallbackRuns(s: State, steps: seq<Step>)
    requires Inv(s) && Calm(s) && Execution(s, steps) && AllCallbacks(steps)
    ensures After(s, steps).Ok? && Inv(After(s, steps).value)
    ensures var t := After(s, steps).value;
      && SameHoldings(s.ctxs, t.ctxs, s.bufs, t.bufs)
      && (SomeStuck(t.ctxs) <==> SomeStuck(s.ctxs) || exists i :: 0 <= i < |steps| && Succeeds(steps[i]))
    decreases |steps|
  {
    hide Inv, Calm, Enabled, Resolved, Perform, SameHoldings, SomeStuck, Succeeds;
    if steps == [] {
      SameHolders(s.ctxs, s.ctxs, s.ctxs, s.bufs, s.bufs);
    } else {
      var step, rest := steps[0], steps[1..];
      StepIsFine(s, step);
      CalmMeansSingleClose(s, step);
      CalmGoesOn(s, step);
      UsersAfter(s, step);
      StuckAfter(s, step);
      assert AllCallbacks(rest);
      CallbackRuns(Perform(s, step).value, rest);
      HoldingsChain(s, Perform(s, step).value, After(Perform(s, step).value, rest).value);
      assert forall i :: 0 <= i < |rest| ==> rest[i] == steps[i + 1];
      if i :| 0 <= i < |steps| && Succeeds(steps[i]) { assert i == 0 || Succeeds(rest[i - 1]); }
      if i :| 0 <= i < |rest| && Succeeds(rest[i]) { assert Succeeds(steps[i + 1]); }
    }
  }

  /** At rest the assertions of destroy hold exactly if no context is stuck and no user holds anything. */
  lemma RestDestroys(s: State)
    requires Inv(s) && AtRest(s)
    ensures s.active == [] && s.using == [] <==> NobodyHolds(s.ctxs, s.bufs) && !SomeStuck(s.ctxs)
  {
    hide ContextsOk, ListsOk, BuffersOk, TableOk;
    DestroyAsserts(s);
    NothingInFlight(s);
    forall c | c in s.ctxs ensures Stuck(s.ctxs[c]) <==> !s.ctxs[c].handle.Gone? { assert RestingFields(s.ctxs[c]); }
  }

  lemma NothingInFlight(s: State)
    requires WritesOk(s.ctxs, s.reqs, s.pool, s.inflight) && s.inflight == {}
    ensures s.reqs == map[]
  {
    assert s.reqs.Keys == {};
  }

  /**
    Stop, let the callbacks that are due come, destroy: the assertions of `ks_socket_container_destroy`
    hold then if and only if, at the call of `ks_socket_stop`, no user held a reference and no context was
    between its allocation and its first use, and no connection attempt then under way succeeded. The last
    is a connection that `ks_socket_stop` passes over, since it is neither listening nor established yet.
   */
  lemma StopThenDestroy(s: State, u: State, steps: seq<Step>)
    requires Inv(s) && Calm(s) && StoppedAll(s, u)
    requires Execution(u, steps) && AllCallbacks(steps)
    ensures After(u, steps).Ok?
    ensures var t := After(u, steps).value;
      AtRest(t) ==>
        (t.active == [] && t.using == [] <==>
           && NobodyHolds(s.ctxs, s.bufs)
           && (forall c :: c in s.ctxs ==> !s.ctxs[c].handle.Raw? && !s.ctxs[c].status.Initialized?)
           && (forall i :: 0 <= i < |steps| ==> !Succeeds(steps[i])))
  {
    hide Inv, Execution, After, AtRest, Succeeds, StoppedAll, SameHoldings, NobodyHolds;
    StopKeeps(s, u);
    CallbackRuns(u, steps);
    var t := After(u, steps).value;
    HoldingsTell(u.ctxs, t.ctxs, u.bufs, t.bufs);
    if AtRest(t) { RestDestroys(t); }
    StuckByStop(s, u);
  }

  lemma StuckByStop(s: State, t: State)
    requires Inv(s) && Calm(s) && StoppedAll(s, t)
    ensures SomeStuck(t.ctxs) <==> exists c :: c in s.ctxs && (s.ctxs[c].handle.Raw? || s.ctxs[c].status.Initialized?)
    ensures NobodyHolds(t.ctxs, t.bufs) <==> NobodyHolds(s.ctxs, s.bufs)
  {
    hide ContextOk, CalmFields, ListsOk, WritesOk, BuffersOk, TableOk, Stuck;
    assert forall c :: c in s.ctxs <==> c in t.ctxs;
    forall c | c in s.ctxs
      ensures Stuck(t.ctxs[c]) <==> s.ctxs[c].handle.Raw? || s.ctxs[c].status.Initialized?
    {
      assert ContextOk(s.ctxs[c]) && CalmFields(s.ctxs[c]);
      StoppedFields(s.ctxs[c]);
    }
    forall c | c in s.ctxs ensures t.ctxs[c].users == s.ctxs[c].users {}
  }

  /** No connection attempt is under way. */
  ghost predicate NoneConnecting(ctxs: map<Context, Fields>) { forall c :: c in ctxs ==> !ctxs[c].connecting }

  lemma NoneConnectingAfter(s: State, step: Step)
    requires Callback(step) && Resolved(s, step) && Perform(s, step).Ok? && NoneConnecting(s.ctxs)
    ensures NoneConnecting(Perform(s, step).value.ctxs)
  {
    hide Perform, SameUsers;
    CallbackEffect(s, step);
    var t := Perform(s, step).value;
    var a := if step.Written? then s.ctxs else s.ctxs[step.c := Effect(s.ctxs[step.c], step)];
    assert NoneConnecting(a);
    assert SameHandles(a, t.ctxs) && forall c :: c in a <==> c in t.ctxs;
  }

  /** Callbacks do not start an attempt, so none succeeds where none is under way. */
  lemma {:induction false} NoneSucceeds(s: State, steps: seq<Step>)
    requires Inv(s) && Calm(s) && Execution(s, steps) && AllCallbacks(steps) && NoneConnecting(s.ctxs)
    ensures forall i :: 0 <= i < |steps| ==> !Succeeds(steps[i])
    decreases |steps|
  {
    hide Inv, Calm, Resolved, Perform, NoneConnecting, Succeeds, Enabled;
    if steps != [] {
      var step, rest := steps[0], steps[1..];
      StepIsFine(s, step);
      CalmMeansSingleClose(s, step);
      CalmGoesOn(s, step);
      NoneConnectingAfter(s, step);
      NoAttempt(s, step);
      assert AllCallbacks(rest);
      NoneSucceeds(Perform(s, step).value, rest);
      assert forall i :: 0 < i < |steps| ==> steps[i] == rest[i - 1];
    }
  }

  lemma NoAttempt(s: State, step: Step)
    requires Enabled(s, step) && NoneConnecting(s.ctxs)
    ensures !Succeeds(step)
  {
  }

  /** The steps are callbacks after which nothing is owed. */
  ghost predicate Drains(s: State, steps: seq<Step>) {
    Execution(s, steps) && AllCallbacks(steps) && After(s, steps).Ok? && AtRest(After(s, steps).value)
  }

  /** The two assertions of `ks_socket_container_destroy`. */
  predicate Destroyable(s: State) { s.active == [] && s.using == [] }

  /** What a caller of `ks_socket_stop` can look up. */
  ghost predicate SafeToStop(s: State) {
    && NobodyHolds(s.ctxs, s.bufs)
    && forall c :: c in s.ctxs ==>
         !s.ctxs[c].handle.Raw? && !s.ctxs[c].status.Initialized? && !s.ctxs[c].status.Connecting?
  }

  lemma StopStartsNothing(s: State, u: State)
    requires Inv(s) && StoppedAll(s, u) && SafeToStop(s)
    ensures NoneConnecting(u.ctxs)
  {
    hide ListsOk, WritesOk, BuffersOk, TableOk;
    forall c | c in u.ctxs ensures !u.ctxs[c].connecting {
      assert c in s.ctxs && ContextOk(s.ctxs[c]) && u.ctxs[c] == Stopped(s.ctxs[c]);
    }
  }

  /** An attempt the stop passes over may succeed. */
  lemma AttemptGoesOn(s: State, u: State, c: Context)
    requires Inv(s) && StoppedAll(s, u) && c in s.ctxs && s.ctxs[c].status.Connecting?
    ensures Enabled(u, Connected(c, true, true)) && Resolved(u, Connected(c, true, true))
  {
    hide ListsOk, WritesOk, BuffersOk, TableOk;
    assert ContextOk(s.ctxs[c]) && u.ctxs[c] == Stopped(s.ctxs[c]);
  }

  /** The stopped container settles in a way that leaves something behind. */
  lemma SomethingStays(s: State, u: State) returns (steps: seq<Step>)
    requires Inv(s) && Calm(s) && StoppedAll(s, u) && !SafeToStop(s)
    ensures Drains(u, steps) && !Destroyable(After(u, steps).value)
  {
    hide Inv, Calm, Execution, After, AtRest, StoppedAll, NobodyHolds, Enabled, Resolved, Perform;
    StopKeeps(s, u);
    if c :| c in s.ctxs && s.ctxs[c].status.Connecting? {
      var step := Connected(c, true, true);
      AttemptGoesOn(s, u, c);
      StepIsFine(u, step);
      CalmMeansSingleClose(u, step);
      CalmGoesOn(u, step);
      var t := Perform(u, step).value;
      var rest := Settles(t);
      FirstOf(u, step);
      RunsCompose(u, [step], t, rest);
      steps := [step] + rest;
      assert Succeeds(steps[0]);
    } else {
      steps := Settles(u);
    }
    StopThenDestroy(s, u, steps);
  }

  /**
    Stop, let the callbacks that are due come, destroy: whatever libuv answers in them, this is safe if and
    only if at the call of `ks_socket_stop` no user holds a reference, and no context is between its
    allocation and its first use, or connecting.
   */
  lemma StopIsSafeIff(s: State, u: State)
    requires Inv(s) && Calm(s) && StoppedAll(s, u)
    ensures (forall steps :: Drains(u, steps) ==> Destroyable(After(u, steps).value)) <==> SafeToStop(s)
  {
    hide Inv, Calm, Execution, After, AtRest, StoppedAll, NobodyHolds, Succeeds;
    if SafeToStop(s) {
      StopKeeps(s, u);
      StopStartsNothing(s, u);
      forall steps | Drains(u, steps) ensures Destroyable(After(u, steps).value) {
        NoneSucceeds(u, steps);
        StopThenDestroy(s, u, steps);
      }
    } else {
      var steps := SomethingStays(s, u);
    }
  }

  /**
    From a fresh container: the user starts to connect and stops the container, which passes the attempt
    over; when it then succeeds nothing is owed any more, and the context is active.
   */
  lemma StopMissesConnecting(c: Context, b: Buffer, r: WriteReq)
    ensures var run := [Acquire(c), InitHandle(c, true)] + [Connect(c, true)];
      && Execution(Init([c], [b], [r]), run) && After(Init([c], [b], [r]), run).Ok?
      && var s := After(Init([c], [b], [r]), run).value;
      && NobodyHolds(s.ctxs, s.bufs) && StoppedAll(s, s)
      && Execution(s, [Connected(c, true, true)]) && After(s, [Connected(c, true, true)]).Ok?
      && var t := After(s, [Connected(c, true, true)]).value;
      && AtRest(t) && t.active == [c]
  {
    hide Execution, After, Init;
    var s0, f1 := Init([c], [b], [r]), Started(2);
    var f2 := f1.(status := Initialized, handle := Open);
    var f3 := f2.(status := Connecting, connecting := true);
    var f4 := Greet(f3.(connecting := false, status := Established));
    var s := Young(c, b, r, f3);
    Activates(c, b, r);
    PutYoung(c, b, r, f1, f2);
    PutYoung(c, b, r, f2, f3);
    PutYoung(c, b, r, f3, f3.(connecting := false));
    PutYoung(c, b, r, f3.(connecting := false), f4);
    OneMoreStep(s0, [Acquire(c)], Young(c, b, r, f1), InitHandle(c, true));
    assert [Acquire(c)] + [InitHandle(c, true)] == [Acquire(c), InitHandle(c, true)];
    OneMoreStep(s0, [Acquire(c), InitHandle(c, true)], Young(c, b, r, f2), Connect(c, true));
    FirstOf(s, Connected(c, true, true));
  }
}
