/**
  The queue thread: any number of posting threads, one worker thread driven by a semaphore, and the
  loop thread that starts and stops the worker and is woken by a coalescing async notification.

  Every lock section, semaphore call and `uv_async_send` is one atomic `Action`; a run is a sequence
  of actions. The history fields (`accepted`, `processed`, `completed`, `freed`, `beforeExit`,
  `starts`, `orphaned`) are read by no guard: they only record what happened.
 */
module QueueThread {

  /** An order as the queues carry it; its constructor is the order's `flag`. */
  datatype Order = Post(id: nat) | Exit

  /** Where a posting thread stands inside `ks_queue_thread_post`. */
  datatype Poster = Idle | Checked(order: nat) | Pushed

  /** Where the worker stands inside `_ks_queue_thread_entry`. */
  datatype Worker = Absent | Waiting | Woken | Processing(order: nat) | Processed(order: nat) | Queued | Exited

  /** Where the loop thread stands: idle, inside the completion callback, or inside `ks_queue_thread_stop`. */
  datatype Loop =
    | Ready | Testing | Popping | Completing(order: nat) | Freeing(order: nat)
    | StopPushing | StopPosting | Joining | Closing

  datatype State = State(
    maxCount: nat,
    started: bool,
    open: bool,          // the async handle is initialised and not closed
    notify: bool,        // a notification is pending; sends coalesce into it
    sem: nat,
    input: seq<Order>,
    output: seq<nat>,
    posters: seq<Poster>,
    worker: Worker,
    loop: Loop,
    accepted: seq<nat>,  // orders pushed by posters, in push order
    processed: seq<nat>,
    completed: seq<nat>,
    freed: seq<nat>,
    beforeExit: nat,     // |accepted| when the latest exit order was pushed
    starts: nat,
    orphaned: bool)      // the latest start found orders in the output queue, and nobody has looked there since

  datatype Action =
    | PosterCheck(p: nat, order: nat) | PosterPush(p: nat) | PosterSignal(p: nat)
    | WorkerWait | WorkerPop | WorkerProcess | WorkerOutput | WorkerNotify
    | LoopWake | LoopTest | LoopPop | LoopComplete | LoopFree
    | Start | Stop | StopPush | StopSignal | Join | CloseAsync

  function Init(maxCount: nat, posters: nat): State {
    State(maxCount, false, false, false, 0, [], [], seq(posters, _ => Idle), Absent, Ready,
          [], [], [], [], 0, 0, false)
  }

  /** Whether the thread an action belongs to is at that point and not blocked. */
  predicate Enabled(s: State, a: Action) {
    match a
    case PosterCheck(p, _) => p < |s.posters| && s.posters[p].Idle?
    case PosterPush(p) => p < |s.posters| && s.posters[p].Checked?
    case PosterSignal(p) => p < |s.posters| && s.posters[p].Pushed?
    case WorkerWait => s.worker.Waiting? && s.sem > 0
    case WorkerPop => s.worker.Woken?
    case WorkerProcess => s.worker.Processing?
    case WorkerOutput => s.worker.Processed?
    case WorkerNotify => s.worker.Queued?
    case LoopWake => s.loop.Ready? && s.open && s.notify
    case LoopTest => s.loop.Testing?
    case LoopPop => s.loop.Popping?
    case LoopComplete => s.loop.Completing?
    case LoopFree => s.loop.Freeing?
    case Start => s.loop.Ready?
    case Stop => s.loop.Ready?
    case StopPush => s.loop.StopPushing?
    case StopSignal => s.loop.StopPosting?
    case Join => s.loop.Joining? && s.worker.Exited?
    case CloseAsync => s.loop.Closing?
  }

  // Whose action it is: a poster's, the worker's, or the loop thread's, in its completion loop or in a call.
  predicate OfPoster(a: Action) { a.PosterCheck? || a.PosterPush? || a.PosterSignal? }
  predicate OfWorker(a: Action) {
    a.WorkerWait? || a.WorkerPop? || a.WorkerProcess? || a.WorkerOutput? || a.WorkerNotify?
  }
  predicate OfLoop(a: Action) { a.LoopWake? || a.LoopTest? || a.LoopPop? || a.LoopComplete? || a.LoopFree? }
  predicate OfControl(a: Action) { a.Start? || a.Stop? || a.StopPush? || a.StopSignal? || a.Join? || a.CloseAsync? }

  function Next(s: State, a: Action): State
    requires Enabled(s, a)
  {
    if OfPoster(a) then PosterNext(s, a)
    else if OfWorker(a) then WorkerNext(s, a)
    else if OfLoop(a) then LoopNext(s, a)
    else ControlNext(s, a)
  }

  /** Inside `ks_queue_thread_post`. */
  function PosterNext(s: State, a: Action): State
    requires Enabled(s, a) && OfPoster(a)
  {
    match a
    case PosterCheck(p, o) =>
      if |s.input| >= s.maxCount then s else s.(posters := s.posters[p := Checked(o)])
    case PosterPush(p) =>
      var o := s.posters[p].order;
      s.(input := s.input + [Post(o)], accepted := s.accepted + [o], posters := s.posters[p := Pushed])
    case PosterSignal(p) => s.(sem := s.sem + 1, posters := s.posters[p := Idle])
  }

  /** Inside `_ks_queue_thread_entry`. */
  function WorkerNext(s: State, a: Action): State
    requires Enabled(s, a) && OfWorker(a)
  {
    match a
    case WorkerWait => s.(sem := s.sem - 1, worker := Woken)
    case WorkerPop =>
      if s.input == [] then s.(worker := Waiting)
      else if s.input[0].Exit? then s.(input := s.input[1..], worker := Exited)
      else s.(input := s.input[1..], worker := Processing(s.input[0].id))
    case WorkerProcess => s.(worker := Processed(s.worker.order), processed := s.processed + [s.worker.order])
    case WorkerOutput => s.(worker := Queued, output := s.output + [s.worker.order])
    case WorkerNotify => s.(worker := Waiting, notify := true, orphaned := false)
  }

  /** Inside `_ks_queue_thread_complete`. */
  function LoopNext(s: State, a: Action): State
    requires Enabled(s, a) && OfLoop(a)
  {
    match a
    case LoopWake => s.(notify := false, loop := Testing)
    case LoopTest => if s.output == [] then s.(loop := Ready, orphaned := false) else s.(loop := Popping)
    case LoopPop =>
      if s.output == [] then s.(loop := Testing)
      else s.(loop := Completing(s.output[0]), output := s.output[1..])
    case LoopComplete => s.(loop := Freeing(s.loop.order), completed := s.completed + [s.loop.order])
    case LoopFree => s.(loop := Testing, freed := s.freed + [s.loop.order])
  }

  /** `ks_queue_thread_start`, and inside `ks_queue_thread_stop`. */
  function ControlNext(s: State, a: Action): State
    requires Enabled(s, a) && OfControl(a)
  {
    match a
    case Start =>
      if s.started then s
      else s.(started := true, open := true, notify := false, worker := Waiting,
              starts := s.starts + 1, orphaned := s.output != [])
    case Stop => if s.started then s.(started := false, loop := StopPushing) else s
    case StopPush => s.(input := s.input + [Exit], loop := StopPosting, beforeExit := |s.accepted|)
    case StopSignal => s.(sem := s.sem + 1, loop := Joining)
    case Join => s.(worker := Absent, loop := Closing)
    case CloseAsync => s.(open := false, notify := false, loop := Ready)
  }

  /** `run` can be executed from `s`, action after action. */
  predicate Executable(s: State, run: seq<Action>)
    decreases |run|
  {
    run == [] || (Enabled(s, run[0]) && Executable(Next(s, run[0]), run[1..]))
  }

  function After(s: State, run: seq<Action>): State
    requires Executable(s, run)
    decreases |run|
  {
    if run == [] then s else After(Next(s, run[0]), run[1..])
  }

  // ---------------------------------------------------------------------------------------------
  // What the invariant talks about

  function CountChecked(ps: seq<Poster>): nat {
    if ps == [] then 0 else (if ps[0].Checked? then 1 else 0) + CountChecked(ps[1..])
  }

  function CountPushed(ps: seq<Poster>): nat {
    if ps == [] then 0 else (if ps[0].Pushed? then 1 else 0) + CountPushed(ps[1..])
  }

  /** The posted orders among `q`, exit orders dropped. */
  function Posts(q: seq<Order>): seq<nat> {
    if q == [] then [] else (if q[0].Post? then [q[0].id] else []) + Posts(q[1..])
  }

  function CountExits(q: seq<Order>): nat {
    if q == [] then 0 else (if q[0].Exit? then 1 else 0) + CountExits(q[1..])
  }

  /** How many orders stand before the first exit order. */
  function AheadOfExit(q: seq<Order>): nat {
    if q == [] || q[0].Exit? then 0 else 1 + AheadOfExit(q[1..])
  }

  function InProcess(w: Worker): seq<nat> { if w.Processing? then [w.order] else [] }
  function InHand(w: Worker): seq<nat> { if w.Processed? then [w.order] else [] }
  function InCompletion(l: Loop): seq<nat> { if l.Completing? then [l.order] else [] }
  function InRelease(l: Loop): seq<nat> { if l.Freeing? then [l.order] else [] }

  predicate Draining(l: Loop) { l.Testing? || l.Popping? || l.Completing? || l.Freeing? }
  predicate Stopping(l: Loop) { l.StopPushing? || l.StopPosting? || l.Joining? }

  /** Input length = semaphore count + threads between push and post + worker between wait and pop. */
  predicate SemaphoreAccounts(s: State) {
    |s.input| == s.sem + CountPushed(s.posters)
                 + (if s.loop.StopPosting? then 1 else 0) + (if s.worker.Woken? then 1 else 0)
  }

  /** Nothing is lost, duplicated or reordered on the way from acceptance to completion. */
  predicate InOrder(s: State) {
    && s.accepted == s.processed + InProcess(s.worker) + Posts(s.input)
    && s.processed == s.completed + InCompletion(s.loop) + s.output + InHand(s.worker)
    && s.completed == s.freed + InRelease(s.loop)
  }

  /** The worker lives exactly while started or stopping, and so does the handle it notifies. */
  predicate Alive(s: State) {
    && (s.loop.Ready? || Draining(s.loop) ==> s.started == s.open && s.started == !s.worker.Absent?)
    && (Draining(s.loop) ==> s.started)
    && (Stopping(s.loop) ==> !s.started && s.open && !s.worker.Absent?)
    && (s.loop.Closing? ==> !s.started && s.open && s.worker.Absent?)
    && (s.starts == 0 ==> s.output == [] && s.worker.Absent? && s.loop.Ready?)
    && (s.starts <= 1 ==> !s.orphaned)
  }

  /** One exit order per stop: in the input queue, or already taken by the worker. */
  predicate ExitAccounts(s: State) {
    && CountExits(s.input) + (if s.worker.Exited? then 1 else 0)
      == (if s.loop.StopPosting? || s.loop.Joining? then 1 else 0)
    && (s.loop.StopPosting? || s.loop.Joining? ==>
          if s.worker.Exited? then |s.processed| == s.beforeExit
          else |s.processed| + |InProcess(s.worker)| + AheadOfExit(s.input) == s.beforeExit)
    && s.beforeExit <= |s.accepted|
  }

  /** A non-empty output queue always has somebody on the way to it, unless a start found it non-empty. */
  predicate NoLostWakeup(s: State) {
    && (s.open && s.output != [] ==> s.notify || Draining(s.loop) || s.worker.Queued? || s.orphaned)
    && (s.loop.Popping? ==> s.output != [])
    && (s.orphaned && !Draining(s.loop) ==> s.output != [])
  }

  /** The check-then-push race lets at most one order per further poster through. */
  predicate RaceBounded(s: State) {
    |s.posters| > 0 ==> |Posts(s.input)| + CountChecked(s.posters) <= s.maxCount + |s.posters| - 1
  }

  predicate Inv(s: State) {
    && SemaphoreAccounts(s) && InOrder(s) && Alive(s) && ExitAccounts(s) && NoLostWakeup(s) && RaceBounded(s)
  }

  // ---------------------------------------------------------------------------------------------
  // Counting lemmas

  lemma {:induction false} UpdateCounts(ps: seq<Poster>, p: nat, to: Poster)
    requires p < |ps|
    ensures CountChecked(ps[p := to]) + (if ps[p].Checked? then 1 else 0)
      == CountChecked(ps) + (if to.Checked? then 1 else 0)
    ensures CountPushed(ps[p := to]) + (if ps[p].Pushed? then 1 else 0)
      == CountPushed(ps) + (if to.Pushed? then 1 else 0)
  {
    if p == 0 {
      assert ps[p := to][1..] == ps[1..];
    } else {
      UpdateCounts(ps[1..], p - 1, to);
      assert ps[p := to][1..] == ps[1..][p - 1 := to];
    }
  }

  lemma {:induction false} CountsBounded(ps: seq<Poster>)
    ensures CountChecked(ps) + CountPushed(ps) <= |ps|
  {
    if ps != [] { CountsBounded(ps[1..]); }
  }

  lemma {:induction false} IdleCounts(n: nat)
    ensures CountChecked(seq(n, _ => Idle)) == CountPushed(seq(n, _ => Idle)) == 0
  {
    var ps := seq(n, _ => Idle);
    if n > 0 {
      IdleCounts(n - 1);
      assert ps[1..] == seq(n - 1, _ => Idle);
    }
  }

  lemma {:induction false} AppendPosts(q: seq<Order>, o: Order)
    ensures Posts(q + [o]) == Posts(q) + (if o.Post? then [o.id] else [])
  {
    if q == [] {
      assert q + [o] == [o];
    } else {
      AppendPosts(q[1..], o);
      assert (q + [o])[1..] == q[1..] + [o];
    }
  }

  lemma {:induction false} AppendExits(q: seq<Order>, o: Order)
    ensures CountExits(q + [o]) == CountExits(q) + (if o.Exit? then 1 else 0)
  {
    if q == [] {
      assert q + [o] == [o];
    } else {
      AppendExits(q[1..], o);
      assert (q + [o])[1..] == q[1..] + [o];
    }
  }

  lemma {:induction false} CountOrders(q: seq<Order>)
    ensures |q| == |Posts(q)| + CountExits(q)
    ensures CountExits(q) == 0 ==> AheadOfExit(q) == |q| == |Posts(q)|
  {
    if q != [] { CountOrders(q[1..]); }
  }

  lemma {:induction false} AppendAhead(q: seq<Order>, o: Order)
    ensures AheadOfExit(q + [o]) == if CountExits(q) == 0 && o.Post? then |q| + 1 else AheadOfExit(q)
  {
    CountOrders(q);
    if q == [] {
      assert q + [o] == [o];
    } else {
      AppendAhead(q[1..], o);
      assert (q + [o])[1..] == q[1..] + [o];
    }
  }

  lemma AppendOrder(q: seq<Order>, o: Order)
    ensures Posts(q + [o]) == Posts(q) + (if o.Post? then [o.id] else [])
    ensures CountExits(q + [o]) == CountExits(q) + (if o.Exit? then 1 else 0)
    ensures AheadOfExit(q + [o]) == if CountExits(q) == 0 && o.Post? then |q| + 1 else AheadOfExit(q)
    ensures CountExits(q) == 0 ==> AheadOfExit(q) == |q| == |Posts(q)|
    ensures |q| == |Posts(q)| + CountExits(q)
  {
    hide Posts, CountExits, AheadOfExit;
    AppendPosts(q, o);
    AppendExits(q, o);
    AppendAhead(q, o);
    CountOrders(q);
  }

  // ---------------------------------------------------------------------------------------------
  // The invariant holds in every run

  lemma InitInv(maxCount: nat, posters: nat)
    ensures Inv(Init(maxCount, posters))
  {
    IdleCounts(posters);
  }

  lemma PosterKeepsOrder(s: State, a: Action)
    requires InOrder(s) && Enabled(s, a) && OfPoster(a)
    ensures InOrder(Next(s, a))
  {
    AppendOrder(s.input, Post(if a.PosterPush? then s.posters[a.p].order else 0));
  }

  lemma PosterKeepsSemaphore(s: State, a: Action)
    requires SemaphoreAccounts(s) && Enabled(s, a) && OfPoster(a)
    ensures SemaphoreAccounts(Next(s, a))
  {
    hide CountChecked, CountPushed;
    UpdateCounts(s.posters, a.p, Next(s, a).posters[a.p]);
  }

  lemma PosterKeepsRace(s: State, a: Action)
    requires RaceBounded(s) && Enabled(s, a) && OfPoster(a)
    ensures RaceBounded(Next(s, a))
  {
    hide CountChecked, CountPushed, Posts;
    UpdateCounts(s.posters, a.p, Next(s, a).posters[a.p]);
    CountsBounded(Next(s, a).posters);
    CountOrders(s.input);
    AppendPosts(s.input, Post(if a.PosterPush? then s.posters[a.p].order else 0));
  }

  lemma PosterKeepsExit(s: State, a: Action)
    requires ExitAccounts(s) && InOrder(s) && Enabled(s, a) && OfPoster(a)
    ensures ExitAccounts(Next(s, a))
  {
    AppendOrder(s.input, Post(if a.PosterPush? then s.posters[a.p].order else 0));
  }

  lemma PosterKeepsInv(s: State, a: Action)
    requires Inv(s) && Enabled(s, a) && OfPoster(a)
    ensures Inv(Next(s, a))
  {
    hide InOrder, SemaphoreAccounts, RaceBounded, ExitAccounts;
    PosterKeepsOrder(s, a);
    PosterKeepsSemaphore(s, a);
    PosterKeepsRace(s, a);
    PosterKeepsExit(s, a);
  }

  /** What the accounts need to know of the order. */
  lemma AcceptedAreProcessed(s: State)
    requires InOrder(s)
    ensures |s.accepted| == |s.processed| + |InProcess(s.worker)| + |Posts(s.input)|
  {
  }

  lemma Regroup<T>(a: seq<T>, b: seq<T>, c: seq<T>)
    ensures a + [] + (b + c) == a + b + c
  {
  }

  lemma PopKeepsOrder(s: State)
    requires InOrder(s) && s.worker.Woken?
    ensures InOrder(Next(s, WorkerPop))
  {
    var t := Next(s, WorkerPop);
    assert t.processed == s.processed && InHand(t.worker) == InHand(s.worker) == InProcess(s.worker) == [];
    if s.input != [] {
      Regroup(s.processed, InProcess(t.worker), Posts(t.input));
    }
  }

  lemma WorkerKeepsOrder(s: State, a: Action)
    requires InOrder(s) && Enabled(s, a) && OfWorker(a)
    ensures InOrder(Next(s, a))
  {
    if a.WorkerPop? { PopKeepsOrder(s); }
  }

  lemma WorkerKeepsSemaphore(s: State, a: Action)
    requires SemaphoreAccounts(s) && Enabled(s, a) && OfWorker(a)
    ensures SemaphoreAccounts(Next(s, a))
  {
    hide CountPushed, PosterNext, LoopNext, ControlNext;
  }

  lemma WorkerKeepsRace(s: State, a: Action)
    requires RaceBounded(s) && Enabled(s, a) && OfWorker(a)
    ensures RaceBounded(Next(s, a))
  {
    hide CountChecked, Posts, PosterNext, LoopNext, ControlNext;
    FewerPosts(s.input);
  }

  lemma FewerPosts(q: seq<Order>)
    ensures q != [] ==> |Posts(q[1..])| <= |Posts(q)|
  {
  }

  lemma WorkerKeepsLife(s: State, a: Action)
    requires SemaphoreAccounts(s) && Alive(s) && NoLostWakeup(s) && Enabled(s, a) && OfWorker(a)
    ensures Alive(Next(s, a)) && NoLostWakeup(Next(s, a))
  {
    hide CountPushed;
  }

  lemma WorkerKeepsExit(s: State, a: Action)
    requires Inv(s) && Enabled(s, a) && OfWorker(a)
    ensures ExitAccounts(Next(s, a))
  {
  }

  lemma WorkerKeepsInv(s: State, a: Action)
    requires Inv(s) && Enabled(s, a) && OfWorker(a)
    ensures Inv(Next(s, a))
  {
    WorkerKeepsOrder(s, a);
    hide SemaphoreAccounts, InOrder, Alive, ExitAccounts, NoLostWakeup, RaceBounded, Enabled, Next;
    WorkerKeepsSemaphore(s, a);
    WorkerKeepsRace(s, a);
    WorkerKeepsLife(s, a);
    WorkerKeepsExit(s, a);
  }

  lemma MoveFirst<T>(a: seq<T>, b: seq<T>, c: seq<T>)
    requires b != []
    ensures a + [] + b + c == a + [b[0]] + b[1..] + c
  {
  }

  lemma LoopPopKeepsOrder(s: State)
    requires InOrder(s) && s.loop.Popping?
    ensures InOrder(Next(s, LoopPop))
  {
    if s.output != [] { MoveFirst(s.completed, s.output, InHand(s.worker)); }
  }

  lemma LoopCompleteKeepsOrder(s: State)
    requires InOrder(s) && s.loop.Completing?
    ensures InOrder(Next(s, LoopComplete))
  {
    assert s.completed + [s.loop.order] + [] + s.output == s.completed + [s.loop.order] + s.output;
  }

  lemma LoopKeepsOrder(s: State, a: Action)
    requires InOrder(s) && Enabled(s, a) && OfLoop(a)
    ensures InOrder(Next(s, a))
  {
    if a.LoopPop? {
      LoopPopKeepsOrder(s);
    } else if a.LoopComplete? {
      LoopCompleteKeepsOrder(s);
    }
  }

  lemma LoopKeepsInv(s: State, a: Action)
    requires Inv(s) && Enabled(s, a) && OfLoop(a)
    ensures Inv(Next(s, a))
  {
    hide SemaphoreAccounts, InOrder, Alive, ExitAccounts, NoLostWakeup, RaceBounded, Enabled, Next;
    LoopKeepsOrder(s, a);
    LoopKeepsCounts(s, a);
    LoopKeepsLife(s, a);
  }

  lemma LoopKeepsCounts(s: State, a: Action)
    requires SemaphoreAccounts(s) && ExitAccounts(s) && RaceBounded(s) && Enabled(s, a) && OfLoop(a)
    ensures SemaphoreAccounts(Next(s, a)) && ExitAccounts(Next(s, a)) && RaceBounded(Next(s, a))
  {
    hide Next, Enabled, OfLoop, Posts, CountChecked, CountPushed, CountExits, AheadOfExit;
    LoopSparesInput(s, a);
    LoopSparesWorker(s, a);
    LoopIsNotStopping(s, a);
  }

  // The completion loop works on the output queue and its history only.

  lemma LoopSparesInput(s: State, a: Action)
    requires Enabled(s, a) && OfLoop(a)
    ensures var t := Next(s, a);
      t.maxCount == s.maxCount && t.sem == s.sem && t.input == s.input && t.posters == s.posters
  {
    hide PosterNext, WorkerNext, ControlNext;
    match a {
      case LoopWake =>
      case LoopTest =>
      case LoopPop =>
      case LoopComplete =>
      case LoopFree =>
    }
  }

  lemma LoopSparesWorker(s: State, a: Action)
    requires Enabled(s, a) && OfLoop(a)
    ensures var t := Next(s, a);
      t.worker == s.worker && t.accepted == s.accepted && t.processed == s.processed && t.beforeExit == s.beforeExit
  {
    hide PosterNext, WorkerNext, ControlNext;
    match a {
      case LoopWake =>
      case LoopTest =>
      case LoopPop =>
      case LoopComplete =>
      case LoopFree =>
    }
  }

  lemma LoopIsNotStopping(s: State, a: Action)
    requires Enabled(s, a) && OfLoop(a)
    ensures !s.loop.StopPosting? && !s.loop.Joining? && !Next(s, a).loop.StopPosting? && !Next(s, a).loop.Joining?
  {
    hide PosterNext, WorkerNext, ControlNext;
  }

  lemma LoopKeepsLife(s: State, a: Action)
    requires Alive(s) && NoLostWakeup(s) && Enabled(s, a) && OfLoop(a)
    ensures Alive(Next(s, a)) && NoLostWakeup(Next(s, a))
  {
  }


  lemma ControlKeepsOrder(s: State, a: Action)
    requires Alive(s) && InOrder(s) && Enabled(s, a) && OfControl(a)
    ensures InOrder(Next(s, a))
  {
    hide Posts;
    AppendPosts(s.input, Exit);
  }

  lemma ControlKeepsExit(s: State, a: Action)
    requires ExitAccounts(s) && Alive(s) && InOrder(s) && Enabled(s, a) && OfControl(a)
    ensures ExitAccounts(Next(s, a))
  {
    hide InOrder, Posts, CountExits, AheadOfExit;
    AcceptedAreProcessed(s);
    AppendOrder(s.input, Exit);
  }

  lemma ControlKeepsInv(s: State, a: Action)
    requires Inv(s) && Enabled(s, a) && OfControl(a)
    ensures Inv(Next(s, a))
  {
    hide SemaphoreAccounts, InOrder, Alive, ExitAccounts, NoLostWakeup, RaceBounded, Enabled, Next;
    ControlKeepsOrder(s, a);
    ControlKeepsExit(s, a);
    ControlKeepsCounts(s, a);
    ControlKeepsLife(s, a);
  }

  lemma ControlKeepsCounts(s: State, a: Action)
    requires SemaphoreAccounts(s) && Alive(s) && RaceBounded(s) && Enabled(s, a) && OfControl(a)
    ensures SemaphoreAccounts(Next(s, a)) && RaceBounded(Next(s, a))
  {
    hide Posts, CountChecked, CountPushed;
    AppendPosts(s.input, Exit);
  }

  lemma ControlKeepsLife(s: State, a: Action)
    requires Alive(s) && NoLostWakeup(s) && ExitAccounts(s) && Enabled(s, a) && OfControl(a)
    ensures Alive(Next(s, a)) && NoLostWakeup(Next(s, a))
  {
    hide ExitAccounts;
    ExitHasRoom(s);
  }

  /** While the loop thread is not stopping, the worker has not exited. */
  lemma ExitHasRoom(s: State)
    requires ExitAccounts(s)
    ensures !s.loop.StopPosting? && !s.loop.Joining? ==> !s.worker.Exited?
  {
  }

  lemma StepKeepsInv(s: State, a: Action)
    requires Inv(s) && Enabled(s, a)
    ensures Inv(Next(s, a))
  {
    hide Inv, Enabled, Next;
    if OfPoster(a) {
      PosterKeepsInv(s, a);
    } else if OfWorker(a) {
      WorkerKeepsInv(s, a);
    } else if OfLoop(a) {
      LoopKeepsInv(s, a);
    } else {
      ControlKeepsInv(s, a);
    }
  }

  lemma {:induction false} RunKeepsInv(s: State, run: seq<Action>)
    requires Inv(s) && Executable(s, run)
    ensures Inv(After(s, run))
    decreases |run|
  {
    hide Inv, Enabled, Next;
    if run != [] {
      StepKeepsInv(s, run[0]);
      RunKeepsInv(Next(s, run[0]), run[1..]);
    }
  }

  // ---------------------------------------------------------------------------------------------
  // Safety of every run

  lemma Chain<T>(a: seq<T>, b: seq<T>, c: seq<T>, d: seq<T>, e: seq<T>, f: seq<T>)
    ensures a + b + c + d + e + f == a + (b + c + d + e + f)
    ensures a <= a + b + c + d <= a + b + c + d + e + f
  {
  }

  lemma ReachableInv(maxCount: nat, posters: nat, run: seq<Action>)
    requires Executable(Init(maxCount, posters), run)
    ensures Inv(After(Init(maxCount, posters), run))
  {
    hide Inv;
    InitInv(maxCount, posters);
    RunKeepsInv(Init(maxCount, posters), run);
  }

  lemma InvIsInOrder(s: State)
    requires Inv(s)
    ensures InOrder(s)
  {
  }

  /** Completion is FIFO and exactly once, and every completed order but the one in hand is freed. */
  lemma CompletedInPushOrder(maxCount: nat, posters: nat, run: seq<Action>)
    requires Executable(Init(maxCount, posters), run)
    ensures var s := After(Init(maxCount, posters), run);
      && s.accepted
        == s.completed + (InCompletion(s.loop) + s.output + InHand(s.worker) + InProcess(s.worker) + Posts(s.input))
      && s.freed <= s.completed <= s.processed <= s.accepted
      && s.completed == s.freed + InRelease(s.loop)
  {
    hide Executable, After, Inv;
    ReachableInv(maxCount, posters, run);
    InvIsInOrder(After(Init(maxCount, posters), run));
    OrderSpelledOut(After(Init(maxCount, posters), run));
  }

  lemma OrderSpelledOut(s: State)
    requires InOrder(s)
    ensures s.accepted
      == s.completed + (InCompletion(s.loop) + s.output + InHand(s.worker) + InProcess(s.worker) + Posts(s.input))
    ensures s.freed <= s.completed <= s.processed <= s.accepted
    ensures s.completed == s.freed + InRelease(s.loop)
  {
    Chain(s.completed, InCompletion(s.loop), s.output, InHand(s.worker), InProcess(s.worker), Posts(s.input));
  }

  /** Both pops find an entry, and the worker never notifies through a closed handle. */
  lemma PopsNeverFail(maxCount: nat, posters: nat, run: seq<Action>)
    requires Executable(Init(maxCount, posters), run)
    ensures var s := After(Init(maxCount, posters), run);
      && (Enabled(s, WorkerPop) ==> s.input != [])
      && (Enabled(s, LoopPop) ==> s.output != [])
      && (Enabled(s, WorkerNotify) ==> s.open)
      && (s.worker.Waiting? && s.sem > 0 ==> s.input != [])
  {
    hide Executable, After, Inv;
    ReachableInv(maxCount, posters, run);
    PopsFind(After(Init(maxCount, posters), run));
  }

  lemma PopsFind(s: State)
    requires Inv(s)
    ensures s.worker.Woken? || (s.worker.Waiting? && s.sem > 0) ==> s.input != []
    ensures s.loop.Popping? ==> s.output != []
    ensures s.worker.Queued? ==> s.open
  {
    hide InOrder, RaceBounded;
  }

  /** When the join of `ks_queue_thread_stop` returns, exactly the orders pushed before the exit order are processed. */
  lemma JoinMeansProcessed(maxCount: nat, posters: nat, run: seq<Action>)
    requires Executable(Init(maxCount, posters), run)
    requires Enabled(After(Init(maxCount, posters), run), Join)
    ensures var s := After(Init(maxCount, posters), run);
      && s.beforeExit <= |s.accepted|
      && s.processed == s.accepted[..s.beforeExit]
      && s.processed == s.completed + s.output
  {
    hide Executable, After, Inv;
    ReachableInv(maxCount, posters, run);
    JoinedAt(After(Init(maxCount, posters), run));
  }

  lemma JoinedAt(s: State)
    requires Inv(s) && s.loop.Joining? && s.worker.Exited?
    ensures s.beforeExit <= |s.accepted| && s.processed == s.accepted[..s.beforeExit]
      && s.processed == s.completed + s.output
  {
    hide SemaphoreAccounts, NoLostWakeup, RaceBounded, Alive;
  }

  /** The input queue overshoots its limit by at most one order per further poster, and one exit order. */
  lemma RaceBound(maxCount: nat, posters: nat, run: seq<Action>)
    requires posters > 0 && Executable(Init(maxCount, posters), run)
    ensures var s := After(Init(maxCount, posters), run);
      && |Posts(s.input)| <= maxCount + posters - 1
      && CountExits(s.input) <= 1
      && |s.input| == |Posts(s.input)| + CountExits(s.input)
  {
    hide Executable, After, Inv;
    ReachableInv(maxCount, posters, run);
    RunKeepsSizes(Init(maxCount, posters), run);
    BoundedAt(After(Init(maxCount, posters), run));
  }

  lemma BoundedAt(s: State)
    requires Inv(s) && |s.posters| > 0
    ensures |Posts(s.input)| <= s.maxCount + |s.posters| - 1 && CountExits(s.input) <= 1
    ensures |s.input| == |Posts(s.input)| + CountExits(s.input)
  {
    hide InOrder, SemaphoreAccounts, NoLostWakeup, Alive;
    AppendOrder(s.input, Exit);
  }

  function PostRun(p: nat, order: nat): seq<Action> {
    [PosterCheck(p, order), PosterPush(p), PosterSignal(p)]
  }

  /**
    A post, with nobody in between: whatever the threads are doing and whether or not the worker runs, it is
    accepted exactly if fewer than `maxCount` orders are in the input queue. Then the order stands last there,
    one more wakeup is due, and nothing else changes; otherwise nothing changes at all.
   */
  lemma PostIsAcceptedIff(maxCount: nat, posters: nat, run: seq<Action>, p: nat, order: nat)
    requires Executable(Init(maxCount, posters), run)
    requires var s := After(Init(maxCount, posters), run); p < |s.posters| && s.posters[p].Idle?
    ensures var s := After(Init(maxCount, posters), run);
      if |s.input| < maxCount then
        Executable(s, PostRun(p, order)) && After(s, PostRun(p, order))
          == s.(input := s.input + [Post(order)], accepted := s.accepted + [order], sem := s.sem + 1)
      else
        Executable(s, [PosterCheck(p, order)]) && After(s, [PosterCheck(p, order)]) == s
  {
    hide Executable, After;
    RunKeepsSizes(Init(maxCount, posters), run);
    PostAt(After(Init(maxCount, posters), run), p, order);
  }

  lemma PostAt(s: State, p: nat, order: nat)
    requires p < |s.posters| && s.posters[p].Idle?
    ensures
      if |s.input| < s.maxCount then
        Executable(s, PostRun(p, order)) && After(s, PostRun(p, order))
          == s.(input := s.input + [Post(order)], accepted := s.accepted + [order], sem := s.sem + 1)
      else
        Executable(s, [PosterCheck(p, order)]) && After(s, [PosterCheck(p, order)]) == s
  {
    if |s.input| < s.maxCount {
      ThreeSteps(s, PosterCheck(p, order), PosterPush(p), PosterSignal(p));
      assert s.posters[p := Checked(order)][p := Pushed][p := Idle] == s.posters;
    } else {
      assert [PosterCheck(p, order)][1..] == [];
    }
  }

  /** No action adds a poster or moves the limit. */
  lemma NextKeepsSizes(s: State, a: Action)
    requires Enabled(s, a)
    ensures Next(s, a).maxCount == s.maxCount && |Next(s, a).posters| == |s.posters|
  {
    if OfPoster(a) {} else if OfWorker(a) {} else if OfLoop(a) {} else {}
  }

  lemma {:induction false} RunKeepsSizes(s: State, run: seq<Action>)
    requires Executable(s, run)
    ensures After(s, run).maxCount == s.maxCount && |After(s, run).posters| == |s.posters|
    decreases |run|
  {
    hide Enabled, Next;
    if run != [] {
      NextKeepsSizes(s, run[0]);
      RunKeepsSizes(Next(s, run[0]), run[1..]);
    }
  }

  lemma {:induction false} RunAppend(s: State, run: seq<Action>, a: Action)
    requires Executable(s, run) && Enabled(After(s, run), a)
    ensures Executable(s, run + [a]) && After(s, run + [a]) == Next(After(s, run), a)
    decreases |run|
  {
    if run == [] {
      assert run + [a] == [a];
    } else {
      RunAppend(Next(s, run[0]), run[1..], a);
      assert (run + [a])[1..] == run[1..] + [a];
    }
  }

  /** A run that fills the input queue to `k` with every poster idle again. */
  lemma {:induction false} FillRun(maxCount: nat, posters: nat, k: nat) returns (run: seq<Action>)
    requires posters > 0 && k <= maxCount
    ensures Executable(Init(maxCount, posters), run)
    ensures var s := After(Init(maxCount, posters), run);
      s.maxCount == maxCount && |s.input| == k && s.posters == seq(posters, _ => Idle)
  {
    var i := Init(maxCount, posters);
    if k == 0 {
      run := [];
    } else {
      var r := FillRun(maxCount, posters, k - 1);
      RunAppend(i, r, PosterCheck(0, k));
      RunAppend(i, r + [PosterCheck(0, k)], PosterPush(0));
      run := r + [PosterCheck(0, k)] + [PosterPush(0)] + [PosterSignal(0)];
      RunAppend(i, r + [PosterCheck(0, k)] + [PosterPush(0)], PosterSignal(0));
      assert After(i, run).posters == seq(posters, _ => Idle);
    }
  }

  /** Then the first `j` posters all pass the size check before anybody pushes. */
  lemma {:induction false} CheckRun(maxCount: nat, posters: nat, j: nat) returns (run: seq<Action>)
    requires maxCount > 0 && 0 < posters && j <= posters
    ensures Executable(Init(maxCount, posters), run)
    ensures var s := After(Init(maxCount, posters), run);
      && s.maxCount == maxCount && |s.input| == maxCount - 1 && |s.posters| == posters
      && forall p :: 0 <= p < posters ==> s.posters[p] == if p < j then Checked(p) else Idle
  {
    if j == 0 {
      run := FillRun(maxCount, posters, maxCount - 1);
    } else {
      var r := CheckRun(maxCount, posters, j - 1);
      RunAppend(Init(maxCount, posters), r, PosterCheck(j - 1, j - 1));
      run := r + [PosterCheck(j - 1, j - 1)];
    }
  }

  lemma {:induction false} PushRun(maxCount: nat, posters: nat, j: nat) returns (run: seq<Action>)
    requires maxCount > 0 && 0 < posters && j <= posters
    ensures Executable(Init(maxCount, posters), run)
    ensures var s := After(Init(maxCount, posters), run);
      && |s.input| == maxCount - 1 + j && |s.posters| == posters
      && forall p :: j <= p < posters ==> s.posters[p].Checked?
  {
    if j == 0 {
      run := CheckRun(maxCount, posters, posters);
    } else {
      var r := PushRun(maxCount, posters, j - 1);
      RunAppend(Init(maxCount, posters), r, PosterPush(j - 1));
      run := r + [PosterPush(j - 1)];
    }
  }

  /** The bound of `RaceBound` is attained for every limit and every number of posters. */
  lemma RaceBoundIsTight(maxCount: nat, posters: nat) returns (run: seq<Action>)
    requires maxCount > 0 && posters > 0
    ensures Executable(Init(maxCount, posters), run)
    ensures |After(Init(maxCount, posters), run).input| == maxCount + posters - 1
  {
    run := PushRun(maxCount, posters, posters);
  }

  // ---------------------------------------------------------------------------------------------
  // Progress: left alone, the threads come to rest, and what they leave behind is known exactly

  /** Actions the threads take by themselves; the others are calls made from outside. */
  predicate Internal(a: Action) { !(a.PosterCheck? || a.Start? || a.Stop?) }

  ghost predicate Quiescent(s: State) { forall a :: Internal(a) ==> !Enabled(s, a) }

  predicate AllInternal(run: seq<Action>) { forall i :: 0 <= i < |run| ==> Internal(run[i]) }

  function WorkerWork(w: Worker): nat {
    match w
    case Woken => 1
    case Processing(_) => 9
    case Processed(_) => 8
    case Queued => 3
    case _ => 0
  }

  function LoopWork(l: Loop): nat {
    match l
    case Testing => 1
    case Completing(_) => 3
    case Freeing(_) => 2
    case StopPushing => 16
    case StopPosting => 5
    case Joining => 2
    case Closing => 1
    case _ => 0
  }

  /** An upper bound on the internal actions still ahead. */
  function Work(s: State): nat {
    10 * |s.input| + 2 * s.sem + 4 * |s.output| + (if s.notify then 2 else 0)
    + 14 * CountChecked(s.posters) + 3 * CountPushed(s.posters) + WorkerWork(s.worker) + LoopWork(s.loop)
  }

  lemma PosterWorks(s: State, a: Action)
    requires Enabled(s, a) && (a.PosterPush? || a.PosterSignal?)
    ensures Work(Next(s, a)) < Work(s)
  {
    hide CountChecked, CountPushed;
    UpdateCounts(s.posters, a.p, Next(s, a).posters[a.p]);
  }

  lemma WorkerWorks(s: State, a: Action)
    requires Enabled(s, a) && OfWorker(a) && (a.WorkerPop? ==> s.input != [])
    ensures Work(Next(s, a)) < Work(s)
  {
    hide CountChecked, CountPushed, PosterNext, LoopNext, ControlNext;
  }

  lemma LoopWorks(s: State, a: Action)
    requires Enabled(s, a) && OfLoop(a) && (a.LoopPop? ==> s.output != [])
    ensures Work(Next(s, a)) < Work(s)
  {
    hide CountChecked, CountPushed;
  }

  lemma ControlWorks(s: State, a: Action)
    requires Enabled(s, a) && OfControl(a) && Internal(a)
    ensures Work(Next(s, a)) < Work(s)
  {
    hide CountChecked, CountPushed;
  }

  lemma InternalStepWorks(s: State, a: Action)
    requires Inv(s) && Enabled(s, a) && Internal(a)
    ensures Work(Next(s, a)) < Work(s)
  {
    hide Inv, Next, Work;
    PopsFind(s);
    if OfPoster(a) {
      PosterWorks(s, a);
    } else if OfWorker(a) {
      WorkerWorks(s, a);
    } else if OfLoop(a) {
      LoopWorks(s, a);
    } else {
      ControlWorks(s, a);
    }
  }

  /** No livelock: after at most `Work(s)` internal actions nothing internal can move. */
  lemma {:induction false} InternalRunsEnd(s: State, run: seq<Action>)
    requires Inv(s) && Executable(s, run) && AllInternal(run)
    ensures |run| + Work(After(s, run)) <= Work(s)
    decreases |run|
  {
    hide Inv, Enabled, Next, Work;
    if run != [] {
      InternalStepWorks(s, run[0]);
      StepKeepsInv(s, run[0]);
      assert AllInternal(run[1..]);
      InternalRunsEnd(Next(s, run[0]), run[1..]);
    }
  }

  lemma {:induction false} QuiescentPosters(s: State, ps: seq<Poster>, from: nat)
    requires Quiescent(s) && from <= |s.posters| && ps == s.posters[from..]
    ensures CountChecked(ps) == CountPushed(ps) == 0
    decreases |ps|
  {
    if ps != [] {
      assert !Enabled(s, PosterPush(from)) && !Enabled(s, PosterSignal(from));
      QuiescentPosters(s, ps[1..], from + 1);
    }
  }

  lemma RestingWorker(s: State)
    requires !Enabled(s, WorkerWait) && !Enabled(s, WorkerPop) && !Enabled(s, WorkerProcess)
    requires !Enabled(s, WorkerOutput) && !Enabled(s, WorkerNotify)
    ensures s.worker.Absent? || s.worker.Exited? || (s.worker.Waiting? && s.sem == 0)
  {
  }

  lemma RestingLoop(s: State)
    requires !Enabled(s, LoopWake) && !Enabled(s, LoopTest) && !Enabled(s, LoopPop) && !Enabled(s, LoopComplete)
    requires !Enabled(s, LoopFree) && !Enabled(s, StopPush) && !Enabled(s, StopSignal) && !Enabled(s, Join)
    requires !Enabled(s, CloseAsync)
    ensures s.loop.Ready? || (s.loop.Joining? && !s.worker.Exited?)
    ensures s.loop.Ready? ==> !(s.open && s.notify)
  {
  }

  lemma QuiescentThreads(s: State)
    requires Quiescent(s)
    ensures CountPushed(s.posters) == 0
    ensures s.worker.Absent? || s.worker.Exited? || (s.worker.Waiting? && s.sem == 0)
    ensures s.loop.Ready? || (s.loop.Joining? && !s.worker.Exited?)
    ensures s.loop.Ready? ==> !(s.open && s.notify)
  {
    assert s.posters[0..] == s.posters;
    QuiescentPosters(s, s.posters, 0);
    RestingWorker(s);
    RestingLoop(s);
  }

  /**
    Where the threads rest. `ks_queue_thread_stop` always returns (the loop thread is never stuck in
    the join). While the thread runs, every accepted order has been processed, and what has not been
    completed and freed is in the output queue; the lemmas about starts below say when that happens.
   */
  lemma RestIsComplete(maxCount: nat, posters: nat, run: seq<Action>)
    requires Executable(Init(maxCount, posters), run)
    requires Quiescent(After(Init(maxCount, posters), run))
    ensures var s := After(Init(maxCount, posters), run);
      && s.loop.Ready?
      && (s.started ==> s.input == [] && s.processed == s.accepted && s.accepted == s.completed + s.output)
      && (s.started ==> (s.output != [] <==> s.orphaned))
      && s.freed == s.completed
  {
    hide Executable, After, Inv, Quiescent;
    ReachableInv(maxCount, posters, run);
    RestAt(After(Init(maxCount, posters), run));
  }

  lemma RestAt(s: State)
    requires Inv(s) && Quiescent(s)
    ensures s.loop.Ready? && s.freed == s.completed
    ensures s.started ==> s.input == [] && s.processed == s.accepted && s.accepted == s.completed + s.output
    ensures s.started ==> (s.output != [] <==> s.orphaned) && (s.completed == s.accepted <==> !s.orphaned)
  {
    hide Quiescent;
    QuiescentThreads(s);
    assert s.loop.Joining? || s.started ==> s.input == [];
    assert s.processed == s.completed + s.output;
  }

  /** Every `Start` in the run that really starts finds the output queue empty. */
  predicate CleanStarts(s: State, run: seq<Action>)
    requires Executable(s, run)
    decreases |run|
  {
    run == [] || ((run[0].Start? && !s.started ==> s.output == []) && CleanStarts(Next(s, run[0]), run[1..]))
  }

  lemma {:induction false} CleanStartsLeaveNoOrphan(s: State, run: seq<Action>)
    requires Executable(s, run) && CleanStarts(s, run) && !s.orphaned
    ensures !After(s, run).orphaned
    decreases |run|
  {
    if run != [] { CleanStartsLeaveNoOrphan(Next(s, run[0]), run[1..]); }
  }

  /** The guarantee callers rely on: with clean starts, at rest everything accepted is completed, once and in order. */
  lemma CleanRunsComplete(maxCount: nat, posters: nat, run: seq<Action>)
    requires Executable(Init(maxCount, posters), run)
    requires CleanStarts(Init(maxCount, posters), run)
    requires Quiescent(After(Init(maxCount, posters), run)) && After(Init(maxCount, posters), run).started
    ensures After(Init(maxCount, posters), run).completed == After(Init(maxCount, posters), run).accepted
  {
    CleanStartsLeaveNoOrphan(Init(maxCount, posters), run);
    RestIsComplete(maxCount, posters, run);
  }

  /** No lost wakeup, although sends coalesce: an order in the output queue always has somebody on the way to it. */
  lemma CleanRunsWake(maxCount: nat, posters: nat, run: seq<Action>)
    requires Executable(Init(maxCount, posters), run) && CleanStarts(Init(maxCount, posters), run)
    ensures var s := After(Init(maxCount, posters), run);
      s.open && s.output != [] ==> s.notify || Draining(s.loop) || s.worker.Queued?
  {
    hide Executable, After, CleanStarts;
    CleanStartsLeaveNoOrphan(Init(maxCount, posters), run);
    ReachableInv(maxCount, posters, run);
  }

  /** The first start is always clean, so a thread that is started once never loses a wakeup. */
  lemma StartedOnceNeverOrphans(maxCount: nat, posters: nat, run: seq<Action>)
    requires Executable(Init(maxCount, posters), run)
    requires After(Init(maxCount, posters), run).starts <= 1
    ensures var s := After(Init(maxCount, posters), run);
      s.open && s.output != [] ==> s.notify || Draining(s.loop) || s.worker.Queued?
  {
    hide Executable, After;
    ReachableInv(maxCount, posters, run);
  }

  /** From any reachable state the threads can come to rest by themselves. */
  lemma {:induction false} Settles(s: State) returns (run: seq<Action>)
    requires Inv(s)
    ensures Executable(s, run) && AllInternal(run) && Quiescent(After(s, run))
    decreases Work(s)
  {
    hide Inv, Enabled, Next, Work;
    if Quiescent(s) {
      run := [];
    } else {
      var a :| Internal(a) && Enabled(s, a);
      StepKeepsInv(s, a);
      InternalStepWorks(s, a);
      var rest := Settles(Next(s, a));
      run := [a] + rest;
      assert run[1..] == rest;
    }
  }

  // ---------------------------------------------------------------------------------------------
  // What a start finds and what a stop leaves

  /** No stop is called in the run; further starts may be, they do nothing to a started thread. */
  predicate NoStop(run: seq<Action>) { forall i :: 0 <= i < |run| ==> !run[i].Stop? }

  /**
    The thread has been running since a start at which `n` orders were processed. If that start found
    orders in the output queue (`late`), they wait until another order is processed, and no longer.
   */
  predicate SinceStart(s: State, n: nat, late: bool) {
    && s.started && (s.loop.Ready? || Draining(s.loop)) && |s.processed| >= n
    && if !late then !s.orphaned
       else
         && (s.orphaned ==> |s.processed| == n || s.worker.Processed? || s.worker.Queued?)
         && (|s.processed| == n ==>
               && s.orphaned && !s.notify && s.loop.Ready?
               && (s.worker.Waiting? || s.worker.Woken? || s.worker.Processing?))
  }

  lemma PosterSinceStart(s: State, a: Action, n: nat, late: bool)
    requires Enabled(s, a) && OfPoster(a) && SinceStart(s, n, late)
    ensures SinceStart(Next(s, a), n, late) && |s.accepted| <= |Next(s, a).accepted|
  {
  }

  lemma WorkerSinceStart(s: State, a: Action, n: nat, late: bool)
    requires ExitAccounts(s) && Enabled(s, a) && OfWorker(a) && SinceStart(s, n, late)
    ensures SinceStart(Next(s, a), n, late) && |s.accepted| <= |Next(s, a).accepted|
  {
  }

  lemma LoopSinceStart(s: State, a: Action, n: nat, late: bool)
    requires Enabled(s, a) && OfLoop(a) && SinceStart(s, n, late)
    ensures SinceStart(Next(s, a), n, late) && Next(s, a).accepted == s.accepted
  {
  }

  lemma ControlSinceStart(s: State, a: Action, n: nat, late: bool)
    requires Enabled(s, a) && OfControl(a) && !a.Stop? && SinceStart(s, n, late)
    ensures Next(s, a) == s
  {
    assert a.Start?;
  }

  lemma StepSinceStart(s: State, a: Action, n: nat, late: bool)
    requires ExitAccounts(s) && Enabled(s, a) && !a.Stop? && SinceStart(s, n, late)
    ensures SinceStart(Next(s, a), n, late) && |s.accepted| <= |Next(s, a).accepted|
  {
    hide ExitAccounts, Enabled, Next, SinceStart;
    if OfPoster(a) {
      PosterSinceStart(s, a, n, late);
    } else if OfWorker(a) {
      WorkerSinceStart(s, a, n, late);
    } else if OfLoop(a) {
      LoopSinceStart(s, a, n, late);
    } else {
      ControlSinceStart(s, a, n, late);
    }
  }

  lemma {:induction false} RunSinceStart(s: State, run: seq<Action>, n: nat, late: bool)
    requires Inv(s) && Executable(s, run) && NoStop(run) && SinceStart(s, n, late)
    ensures SinceStart(After(s, run), n, late) && |s.accepted| <= |After(s, run).accepted|
    decreases |run|
  {
    hide Enabled, Next, SinceStart, SemaphoreAccounts, InOrder, Alive, ExitAccounts, NoLostWakeup, RaceBounded;
    if run != [] {
      StepSinceStart(s, run[0], n, late);
      StepKeepsInv(s, run[0]);
      assert NoStop(run[1..]);
      RunSinceStart(Next(s, run[0]), run[1..], n, late);
    }
  }

  lemma AtStart(s: State)
    requires Inv(s) && s.loop.Ready? && !s.started
    ensures SinceStart(Next(s, Start), |s.processed|, s.output != [])
    ensures |s.accepted| == |s.processed| + |Posts(s.input)|
  {
  }

  /**
    When a start loses the wakeup. Whatever is posted afterwards, a thread that comes to rest without
    another stop has completed everything, unless the start found orders in the output queue and no
    order was waiting in the input queue or has been accepted since.
   */
  lemma StartLoses(s: State, run: seq<Action>)
    requires Inv(s) && s.loop.Ready? && !s.started
    requires Executable(Next(s, Start), run) && NoStop(run) && Quiescent(After(Next(s, Start), run))
    ensures var t := After(Next(s, Start), run);
      t.completed == t.accepted <==> s.output == [] || Posts(s.input) != [] || |t.accepted| > |s.accepted|
  {
    hide Executable, After, Inv, Quiescent, Next;
    var u, t := Next(s, Start), After(Next(s, Start), run);
    StepKeepsInv(s, Start);
    RunKeepsInv(u, run);
    AtStart(s);
    RunSinceStart(u, run, |s.processed|, s.output != []);
    StartAccepts(s);
    RestAt(t);
    QuiescentThreads(t);
  }

  lemma StartAccepts(s: State)
    requires s.loop.Ready?
    ensures Next(s, Start).accepted == s.accepted && Next(s, Start).posters == s.posters
  {
  }

  /** Posters past the size check are bound to be accepted. */
  lemma {:induction false} CheckedAreAccepted(s: State, run: seq<Action>)
    requires Executable(s, run) && AllInternal(run)
    ensures |After(s, run).accepted| + CountChecked(After(s, run).posters) == |s.accepted| + CountChecked(s.posters)
    decreases |run|
  {
    hide Executable, Enabled, Next;
    if run != [] {
      Unrolled(s, run);
      StepAccepts(s, run[0]);
      assert AllInternal(run[1..]);
      CheckedAreAccepted(Next(s, run[0]), run[1..]);
    }
  }

  lemma Unrolled(s: State, run: seq<Action>)
    requires run != [] && Executable(s, run)
    ensures Enabled(s, run[0]) && Executable(Next(s, run[0]), run[1..])
  {
  }

  lemma PosterAccepts(s: State, a: Action)
    requires Enabled(s, a) && (a.PosterPush? || a.PosterSignal?)
    ensures |Next(s, a).accepted| + CountChecked(Next(s, a).posters) == |s.accepted| + CountChecked(s.posters)
  {
    hide CountChecked, CountPushed;
    UpdateCounts(s.posters, a.p, Next(s, a).posters[a.p]);
  }

  lemma OnlyPostersAccept(s: State, a: Action)
    requires Enabled(s, a) && !OfPoster(a)
    ensures Next(s, a).accepted == s.accepted && Next(s, a).posters == s.posters
  {
    if OfWorker(a) {} else if OfLoop(a) {} else {}
  }

  lemma StepAccepts(s: State, a: Action)
    requires Enabled(s, a) && Internal(a)
    ensures |Next(s, a).accepted| + CountChecked(Next(s, a).posters) == |s.accepted| + CountChecked(s.posters)
  {
    hide Enabled, Next, CountChecked;
    if OfPoster(a) { PosterAccepts(s, a); } else { OnlyPostersAccept(s, a); }
  }

  lemma RestingPosters(s: State)
    requires Quiescent(s)
    ensures CountChecked(s.posters) == 0
  {
    assert s.posters[0..] == s.posters;
    QuiescentPosters(s, s.posters, 0);
  }

  /**
    The same, told from the queues as they are when `ks_queue_thread_start` is called: left alone, the
    thread completes everything if and only if no order waits in the output queue, or one waits in the
    input queue, or one is about to be pushed.
   */
  lemma StartLosesIff(s: State, run: seq<Action>)
    requires Inv(s) && s.loop.Ready? && !s.started
    requires Executable(Next(s, Start), run) && AllInternal(run) && Quiescent(After(Next(s, Start), run))
    ensures var t := After(Next(s, Start), run);
      t.completed == t.accepted <==> s.output == [] || Posts(s.input) != [] || CountChecked(s.posters) > 0
  {
    hide Executable, After, Inv, Quiescent, Next;
    assert NoStop(run);
    StartLoses(s, run);
    StartAccepts(s);
    CheckedAreAccepted(Next(s, Start), run);
    RestingPosters(After(Next(s, Start), run));
  }

  /** From the call of a stop on: the completion loop does not run again. */
  predicate SinceStop(s: State, completed: seq<nat>) {
    !s.started && !Draining(s.loop) && (s.loop.Ready? ==> !s.open) && s.completed == completed
  }

  lemma {:induction false} RunSinceStop(s: State, run: seq<Action>, completed: seq<nat>)
    requires Executable(s, run) && AllInternal(run) && SinceStop(s, completed)
    ensures SinceStop(After(s, run), completed)
    decreases |run|
  {
    hide Executable, Enabled, Next, SinceStop;
    if run != [] {
      Unrolled(s, run);
      StepSinceStop(s, run[0], completed);
      assert AllInternal(run[1..]);
      RunSinceStop(Next(s, run[0]), run[1..], completed);
    }
  }

  lemma StepSinceStop(s: State, a: Action, completed: seq<nat>)
    requires Enabled(s, a) && Internal(a) && SinceStop(s, completed)
    ensures SinceStop(Next(s, a), completed)
  {
  }

  /** In a stopped thread both queues are empty exactly when every accepted order has been completed. */
  lemma StoppedQueues(s: State)
    requires Inv(s) && s.loop.Ready? && !s.started
    ensures s.input == [] && s.output == [] <==> s.completed == s.accepted
    ensures s.completed <= s.accepted
  {
    AppendOrder(s.input, Exit);
    assert |s.accepted| == |s.completed| + |s.output| + |Posts(s.input)|;
  }

  /**
    `ks_queue_thread_destroy` of a running thread stops it and then asserts both queues empty. Whenever
    the stop returns, the assertions hold exactly if nothing has been accepted beyond what was completed
    before the call. Posters that are past the size check get their orders in sooner or later, so that
    the assertions hold however late they look if and only if, at the call, every accepted order was
    completed and no poster was past the check.
   */
  lemma DestroyAsserts(s: State, run: seq<Action>)
    requires Inv(s) && s.loop.Ready? && s.started
    requires Executable(Next(s, Stop), run) && AllInternal(run) && After(Next(s, Stop), run).loop.Ready?
    ensures var t := After(Next(s, Stop), run);
      && (t.input == [] && t.output == [] <==> t.accepted == s.completed)
      && (Quiescent(t) ==>
            (t.input == [] && t.output == [] <==> s.completed == s.accepted && CountChecked(s.posters) == 0))
  {
    hide Executable, After, Inv, Quiescent;
    var u, t := Next(s, Stop), After(Next(s, Stop), run);
    StepKeepsInv(s, Stop);
    RunKeepsInv(u, run);
    RunSinceStop(u, run, s.completed);
    StoppedQueues(t);
    assert s.completed <= s.accepted by { InvIsInOrder(s); OrderSpelledOut(s); }
    CheckedAreAccepted(u, run);
    if Quiescent(t) { RestingPosters(t); }
  }

  /** Destroying a thread that is not running: the stop does nothing, and the assertions look at once. */
  lemma DestroyAssertsStopped(maxCount: nat, posters: nat, run: seq<Action>)
    requires Executable(Init(maxCount, posters), run)
    requires var s := After(Init(maxCount, posters), run); s.loop.Ready? && !s.started
    ensures var s := After(Init(maxCount, posters), run);
      && Next(s, Stop) == s
      && (s.input == [] && s.output == [] <==> s.completed == s.accepted)
  {
    hide Executable, After, Inv;
    ReachableInv(maxCount, posters, run);
    StoppedQueues(After(Init(maxCount, posters), run));
  }

  /** One order served and stopped before the loop got to its notification, then a second start. */
  function OrphaningRun(): seq<Action> {
    [Start, PosterCheck(0, 7), PosterPush(0), PosterSignal(0), WorkerWait, WorkerPop, WorkerProcess, WorkerOutput,
     WorkerNotify, Stop, StopPush, StopSignal, WorkerWait, WorkerPop, Join, CloseAsync, Start]
  }

  lemma {:induction false} RunConcat(s: State, a: seq<Action>, b: seq<Action>)
    requires Executable(s, a) && Executable(After(s, a), b)
    ensures Executable(s, a + b) && After(s, a + b) == After(After(s, a), b)
    decreases |a|
  {
    hide Enabled, Next;
    if a == [] {
      assert a + b == b;
    } else {
      RunConcat(Next(s, a[0]), a[1..], b);
      assert (a + b)[1..] == a[1..] + b;
    }
  }

  lemma ThreeSteps(s: State, a: Action, b: Action, c: Action)
    requires Enabled(s, a) && Enabled(Next(s, a), b) && Enabled(Next(Next(s, a), b), c)
    ensures Executable(s, [a, b, c]) && After(s, [a, b, c]) == Next(Next(Next(s, a), b), c)
  {
    hide Enabled, Next;
    RunAppend(s, [], a);
    RunAppend(s, [a], b);
    RunAppend(s, [a, b], c);
    assert [] + [a] == [a] && [a] + [b] == [a, b] && [a, b] + [c] == [a, b, c];
  }

  /** Where the first nine actions of `OrphaningRun` lead: order 7 is in the output queue, a notification pending. */
  function Notified(maxCount: nat): State {
    State(maxCount, true, true, true, 0, [], [7], [Idle], Waiting, Ready, [7], [7], [], [], 0, 1, false)
  }

  lemma ReachPushed(maxCount: nat)
    requires maxCount > 0
    ensures Executable(Init(maxCount, 1), OrphaningRun()[..3])
    ensures After(Init(maxCount, 1), OrphaningRun()[..3]) == FirstPushed(maxCount)
  {
    var s := Init(maxCount, 1);
    assert s.posters == [Idle];
    ThreeSteps(s, Start, PosterCheck(0, 7), PosterPush(0));
    assert OrphaningRun()[..3] == [Start, PosterCheck(0, 7), PosterPush(0)];
  }

  /** The first order is in the input queue, its poster about to signal. */
  function FirstPushed(maxCount: nat): State {
    Notified(maxCount).(notify := false, input := [Post(7)], output := [], posters := [Pushed], processed := [])
  }

  /** The worker has taken it. */
  function FirstTaken(maxCount: nat): State {
    Notified(maxCount).(notify := false, output := [], worker := Processing(7), processed := [])
  }

  lemma PushedToTaken(maxCount: nat)
    ensures var run := [PosterSignal(0), WorkerWait, WorkerPop];
      Executable(FirstPushed(maxCount), run) && After(FirstPushed(maxCount), run) == FirstTaken(maxCount)
  {
    hide Executable, After;
    ThreeSteps(FirstPushed(maxCount), PosterSignal(0), WorkerWait, WorkerPop);
  }

  lemma TakenToNotified(maxCount: nat)
    ensures var run := [WorkerProcess, WorkerOutput, WorkerNotify];
      Executable(FirstTaken(maxCount), run) && After(FirstTaken(maxCount), run) == Notified(maxCount)
  {
    hide Executable, After;
    ThreeSteps(FirstTaken(maxCount), WorkerProcess, WorkerOutput, WorkerNotify);
  }

  lemma PushedToNotified(maxCount: nat)
    ensures Executable(FirstPushed(maxCount), OrphaningRun()[3..9])
    ensures After(FirstPushed(maxCount), OrphaningRun()[3..9]) == Notified(maxCount)
  {
    hide Executable, After, Enabled, Next;
    PushedToTaken(maxCount);
    TakenToNotified(maxCount);
    var r0, r1 := [PosterSignal(0), WorkerWait, WorkerPop], [WorkerProcess, WorkerOutput, WorkerNotify];
    RunConcat(FirstPushed(maxCount), r0, r1);
    assert OrphaningRun()[3..9] == r0 + r1;
  }

  lemma ReachNotified(maxCount: nat)
    requires maxCount > 0
    ensures Executable(Init(maxCount, 1), OrphaningRun()[..9])
    ensures After(Init(maxCount, 1), OrphaningRun()[..9]) == Notified(maxCount)
  {
    hide Enabled, Next, Executable, After;
    ReachPushed(maxCount);
    PushedToNotified(maxCount);
    RunConcat(Init(maxCount, 1), OrphaningRun()[..3], OrphaningRun()[3..9]);
    assert OrphaningRun()[..9] == OrphaningRun()[..3] + OrphaningRun()[3..9];
  }

  /** Where the stop returns: the order is still in the output queue. */
  function Stopped(maxCount: nat): State {
    Notified(maxCount).(started := false, open := false, notify := false, worker := Absent, beforeExit := 1)
  }

  lemma StopReturns(maxCount: nat)
    ensures Executable(Notified(maxCount), OrphaningRun()[9..16])
    ensures After(Notified(maxCount), OrphaningRun()[9..16]) == Stopped(maxCount)
  {
    var s := Notified(maxCount);
    var t := s.(started := false, sem := 1, input := [Exit], loop := Joining, beforeExit := 1);
    var u := t.(sem := 0, input := [], loop := Closing, worker := Absent);
    ThreeSteps(s, Stop, StopPush, StopSignal);
    ThreeSteps(t, WorkerWait, WorkerPop, Join);
    var r0, r1 := OrphaningRun()[9..12], OrphaningRun()[12..15];
    RunConcat(s, r0, r1);
    assert After(s, r0 + r1) == u;
    RunAppend(s, r0 + r1, CloseAsync);
    assert OrphaningRun()[9..16] == r0 + r1 + [CloseAsync];
  }

  lemma StopAndRestart(maxCount: nat)
    ensures Executable(Notified(maxCount), OrphaningRun()[9..])
    ensures After(Notified(maxCount), OrphaningRun()[9..])
         == Notified(maxCount).(notify := false, beforeExit := 1, starts := 2, orphaned := true)
  {
    hide Executable, After;
    StopReturns(maxCount);
    RunAppend(Notified(maxCount), OrphaningRun()[9..16], Start);
    assert OrphaningRun()[9..] == OrphaningRun()[9..16] + [Start];
  }

  /**
    Destroying can fail: when the stop of this run returns, as it would inside the destroy call, an order
    is in the output queue, because the loop did not get to its notification before.
   */
  lemma DestroyFails(maxCount: nat)
    requires maxCount > 0
    ensures Executable(Init(maxCount, 1), OrphaningRun()[..16]) && OrphaningRun()[9] == Stop
    ensures var s := After(Init(maxCount, 1), OrphaningRun()[..16]);
      s.loop.Ready? && !s.started && s.output == [7] && s.accepted == [7] && s.completed == []
  {
    hide Executable, After;
    ReachNotified(maxCount);
    StopReturns(maxCount);
    RunConcat(Init(maxCount, 1), OrphaningRun()[..9], OrphaningRun()[9..16]);
    assert OrphaningRun()[..16] == OrphaningRun()[..9] + OrphaningRun()[9..16];
  }

  lemma OrphanRests(s: State)
    requires s.posters == [Idle] && s.worker.Waiting? && s.sem == 0 && s.loop.Ready? && !s.notify
    ensures Quiescent(s)
  {
  }

  /**
    Restarting over a non-empty output queue does lose the wakeup: the second start leaves an order
    processed but not completed, with nothing pending that would ever complete it.
   */
  lemma RestartOrphans(maxCount: nat)
    requires maxCount > 0
    ensures Executable(Init(maxCount, 1), OrphaningRun())
    ensures var s := After(Init(maxCount, 1), OrphaningRun());
      s.started && Quiescent(s) && s.accepted == [7] && s.processed == [7] && s.output == [7] && s.completed == []
  {
    hide Enabled, Next, Executable, After, Quiescent;
    ReachNotified(maxCount);
    StopAndRestart(maxCount);
    RunConcat(Init(maxCount, 1), OrphaningRun()[..9], OrphaningRun()[9..]);
    assert OrphaningRun() == OrphaningRun()[..9] + OrphaningRun()[9..];
    OrphanRests(After(Init(maxCount, 1), OrphaningRun()));
  }
}
