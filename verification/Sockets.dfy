/**
  Socket contexts, buffers and write requests: reference-counted objects recycled through the pools of
  one container, while libuv holds handles open and writes in flight.

  A `State` is what the C code keeps, together with what libuv and the users of the container hold.
  The functions below are the C functions; a `Step` is one call from outside or one libuv callback.
  Objects appear here only as identities, the values of their fields are in the maps of `State`; the methods
  that change the objects themselves, and do just this to them, are in module Containers.
 */
module Sockets {
  import opened KsBuffer

  datatype Status =
    Uninitialize | Initialized | Connecting | Listen | Established | ShuttingDown | Shutdown | Closing | Closed

  class Context {
    var status: Status
    var refcount: int
    var active: bool
    var uniqid: nat
    var closeNotify: bool            // after_close_disconnected
    var sendorder: seq<WriteReq>
    ghost var held: Held

    /** `calloc` leaves every field zero. */
    constructor ()
      ensures Value() == ZERO
    {
      status, refcount, active, uniqid, closeNotify, sendorder := Uninitialize, 0, false, 0, false, [];
      held := Held(Gone, false, false, 0, SILENT);
    }

    /** The fields `ks_socket_refernece` gives a context taken from the inactive list. */
    method Start(id: nat)
      modifies this
      ensures Value() == Started(id)
    {
      active := true;
      refcount := 1;
      status := Uninitialize;
      uniqid := id;
      closeNotify := false;
      sendorder := [];
      held := Held(Raw, false, false, 0, SILENT);
    }

    /** The fields `ks_socket_derefernece` resets when the last reference is gone. */
    method Retire()
      modifies this
      ensures Value() == old(Value()).(active := false, status := Uninitialize)
    {
      active := false;
      status := Uninitialize;
    }

    /** The `disconnected` callback. */
    ghost method SayFarewell()
      modifies this`held
      ensures Value() == Farewell(old(Value()))
    {
      held := held.(calls := held.calls.(farewells := held.calls.farewells + 1));
    }

    /** The `connected` callback. */
    ghost method SayWelcome()
      modifies this`held
      ensures Value() == Greet(old(Value()))
    {
      held := held.(calls := held.calls.(greeted := true));
    }

    ghost function Value(): Fields
      reads this
    {
      Fields(status, refcount, active, uniqid, closeNotify, sendorder,
             held.handle, held.connecting, held.shutting, held.users, held.calls)
    }
  }

  class WriteReq {
    var context: Context?
    var buffer: Buffer?

    constructor ()
      ensures context == null && buffer == null
    {
      context, buffer := null, null;
    }
  }

  /** What libuv and the users hold of a context, and what the users have been told. */
  datatype Held = Held(handle: Handle, connecting: bool, shutting: bool, users: nat, calls: Calls)

  /**
    What has happened to a context since it was taken from the inactive list: whether `connected` was
    called, how often `disconnected` was, and whether a write was refused.
   */
  datatype Calls = Calls(greeted: bool, farewells: nat, refused: bool)

  const SILENT := Calls(false, 0, false)

  /** libuv's view of a context's handle: not yet initialised, open, closing, or given back for good. */
  datatype Handle = Raw | Open | InClose | Gone

  /** The fields of a context and, after them, what libuv and the users hold of it. */
  datatype Fields = Fields(
    status: Status, refcount: int, active: bool, uniqid: nat, closeNotify: bool, sendorder: seq<WriteReq>,
    handle: Handle,
    connecting: bool,   // the connect callback is still to come
    shutting: bool,     // the shutdown callback is still to come
    users: nat,         // references held by users
    calls: Calls)

  /** A context straight from `calloc`. */
  const ZERO := Fields(Uninitialize, 0, false, 0, false, [], Gone, false, false, 0, SILENT)

  /** A context as `ks_socket_refernece` hands it out. */
  function Started(id: nat): Fields {
    Fields(Uninitialize, 1, true, id, false, [], Raw, false, false, 0, SILENT)
  }

  /** What a write request in flight refers to. */
  datatype Claim = Claim(context: Context, buffer: Buffer)

  /** What matters of a buffer here: its references, the bytes in use, and how many references users hold. */
  datatype Pooled = Pooled(refcount: int, size: nat, users: nat)

  datatype State = State(
    ctxs: map<Context, Fields>,
    active: seq<Context>,
    inactive: seq<Context>,
    table: map<nat, Context>,
    lastId: nat,                 // uniqid_iterators
    bufs: map<Buffer, Pooled>,
    free: seq<Buffer>,           // the list `buffers`
    using: seq<Buffer>,
    reqs: map<WriteReq, Claim>,
    pool: seq<WriteReq>,         // the list `writereq_buffers`
    inflight: set<WriteReq>)     // libuv: the writes whose callback is still to come

  /** A failed `assert` of the C code, or libuv aborting over a second `uv_close`, ends the run. */
  datatype Outcome<+T> = Ok(value: T) | AssertionFailed | UvAbort

  // ---------------------------------------------------------------------------------------------
  // Lists

  predicate NoDup<T(==)>(s: seq<T>) { forall i, j :: 0 <= i < j < |s| ==> s[i] != s[j] }

  /** `list_del` of an entry. */
  function Remove<T(==)>(s: seq<T>, x: T): seq<T> {
    if s == [] then [] else if s[0] == x then s[1..] else [s[0]] + Remove(s[1..], x)
  }

  lemma {:induction false} RemoveFrom<T>(s: seq<T>, x: T)
    requires NoDup(s)
    ensures NoDup(Remove(s, x)) && x !in Remove(s, x)
    ensures forall y :: y in Remove(s, x) <==> y in s && y != x
    ensures |Remove(s, x)| == if x in s then |s| - 1 else |s|
  {
    if s != [] {
      assert forall y :: y in s <==> y == s[0] || y in s[1..];
      if s[0] == x {
        assert forall i :: 1 <= i < |s| ==> s[i] != x;
      } else {
        RemoveFrom(s[1..], x);
        var r := Remove(s[1..], x);
        assert forall y :: y in [s[0]] + r <==> y == s[0] || y in r;
        assert s[0] !in s[1..];
      }
    }
  }

  lemma AppendTo<T>(s: seq<T>, x: T)
    requires NoDup(s) && x !in s
    ensures NoDup(s + [x]) && NoDup([x] + s)
    ensures forall y :: y in s + [x] <==> y in s || y == x
    ensures forall y :: y in [x] + s <==> y in s || y == x
  {
  }

  // ---------------------------------------------------------------------------------------------
  // The C functions

  function Picked(s: State, spare: Context): Context { if s.inactive == [] then spare else s.inactive[0] }

  /** `ks_socket_refernece(container, NULL)`; `spare` is what `socket_context_new` returns, if it is called. */
  function Activate(s: State, spare: Context): State {
    var c := Picked(s, spare);
    s.(inactive := if s.inactive == [] then [] else s.inactive[1..],
       ctxs := s.ctxs[c := Started(s.lastId + 1)],
       lastId := s.lastId + 1,
       active := s.active + [c],
       table := s.table[s.lastId + 1 := c])
  }

  function Put(s: State, c: Context, f: Fields): State { s.(ctxs := s.ctxs[c := f]) }

  function PutBuffer(s: State, b: Buffer, p: Pooled): State { s.(bufs := s.bufs[b := p]) }

  /** `ks_socket_refernece(container, context)` */
  function AddRef(s: State, c: Context): State
    requires c in s.ctxs
  {
    Put(s, c, s.ctxs[c].(refcount := s.ctxs[c].refcount + 1))
  }

  function Dereference(s: State, c: Context): (o: Outcome<State>)
    requires c in s.ctxs
    ensures o.Ok? ==> forall d :: d in s.ctxs ==> d in o.value.ctxs
  {
    var f := s.ctxs[c].(refcount := s.ctxs[c].refcount - 1);
    if f.refcount > 0 then Ok(Put(s, c, f))
    else if f.sendorder != [] then AssertionFailed
    else if !f.status.Closed? && !f.status.Uninitialize? then AssertionFailed
    else Ok(Recycle(s, c, f))
  }

  /** The last reference is gone. */
  function Recycle(s: State, c: Context, f: Fields): State {
    Put(s, c, f.(active := false, status := Uninitialize))
      .(table := s.table - {f.uniqid}, active := Remove(s.active, c), inactive := s.inactive + [c])
  }

  function BufferAddRef(s: State, b: Buffer): State
    requires b in s.bufs
  {
    var n := s.bufs[b].refcount + 1;
    PutBuffer(s, b, s.bufs[b].(refcount := n, size := if n == 1 then 0 else s.bufs[b].size))
  }

  function BufferDereference(s: State, b: Buffer): State
    requires b in s.bufs
  {
    var n := s.bufs[b].refcount - 1;
    if n > 0 then PutBuffer(s, b, s.bufs[b].(refcount := n))
    else PutBuffer(s, b, s.bufs[b].(refcount := n, size := 0)).(using := Remove(s.using, b), free := s.free + [b])
  }

  function PickedBuffer(s: State, spare: Buffer): Buffer { if s.free == [] then spare else s.free[|s.free| - 1] }

  /** A free or a new buffer moves to the buffers in use. */
  function TakeBuffer(s: State, spare: Buffer): State {
    var b := PickedBuffer(s, spare);
    if s.free == [] then PutBuffer(s, b, Pooled(0, 0, 0)).(using := s.using + [b])
    else s.(free := s.free[..|s.free| - 1], using := s.using + [b])
  }

  /** `ks_socket_buffer_refernece(container, NULL)` */
  function BufferNew(s: State, spare: Buffer): State
    requires s.free != [] ==> s.free[|s.free| - 1] in s.bufs
  {
    BufferAddRef(TakeBuffer(s, spare), PickedBuffer(s, spare))
  }

  function PickedReq(s: State, spare: WriteReq): WriteReq { if s.pool == [] then spare else s.pool[|s.pool| - 1] }

  function TakeReq(s: State): State { s.(pool := if s.pool == [] then [] else s.pool[..|s.pool| - 1]) }

  /** The write request starts to refer to the context and the buffer. */
  function Enlist(s: State, r: WriteReq, c: Context, b: Buffer): State
    requires c in s.ctxs
  {
    Put(s, c, s.ctxs[c].(sendorder := [r] + s.ctxs[c].sendorder)).(reqs := s.reqs[r := Claim(c, b)])
  }

  /** The part of `ks_socket_send` before `uv_write`. */
  function Attach(s: State, c: Context, b: Buffer, spare: WriteReq): State
    requires c in s.ctxs && b in s.bufs
  {
    Enlist(BufferAddRef(AddRef(TakeReq(s), c), b), PickedReq(s, spare), c, b)
  }

  function Unlist(s: State, r: WriteReq, c: Context): State
    requires c in s.ctxs
  {
    Put(s, c, s.ctxs[c].(sendorder := Remove(s.ctxs[c].sendorder, r)))
  }

  /** `ks_write_cb` after its notification, and what `ks_socket_send` does when `uv_write` fails. */
  function Detach(s: State, r: WriteReq): (o: Outcome<State>)
    requires r in s.reqs && s.reqs[r].context in s.ctxs && s.reqs[r].buffer in s.bufs
    ensures o.Ok? ==> forall d :: d in s.ctxs ==> d in o.value.ctxs
  {
    var Claim(c, b) := s.reqs[r];
    match Dereference(BufferDereference(Unlist(s, r, c), b), c)
    case Ok(u) => Ok(u.(reqs := u.reqs - {r}, pool := u.pool + [r]))
    case AssertionFailed => AssertionFailed
    case UvAbort => UvAbort
  }

  function SetStatus(s: State, c: Context, status: Status): State
    requires c in s.ctxs
  {
    Put(s, c, s.ctxs[c].(status := status))
  }

  /** `ks_socket_find` */
  function Find(s: State, id: nat): (c: Context?) {
    if id in s.table then s.table[id] else null
  }

  // ---------------------------------------------------------------------------------------------
  // The invariant

  function Base(h: Handle): nat { if h.Gone? then 0 else 1 }

  predicate StatusFits(status: Status, h: Handle) {
    match h
    case Raw => status.Uninitialize?
    case Open => status.Initialized? || status.Connecting? || status.Listen? || status.Established?
      || status.ShuttingDown?
    case InClose => status.Closing? || status.Established?
    case Gone => status.Closed? || status.Uninitialize?
  }

  /** A connection that was announced is, or will be, taken leave of once, unless a refused write closed it. */
  predicate CallsOk(f: Fields) {
    var due := f.calls.farewells + if f.closeNotify then 1 else 0;
    match f.handle
    case Raw => f.calls == SILENT && !f.closeNotify
    case Open => due == 0 && !f.calls.refused && (f.calls.greeted ==> f.status.Established? || f.status.ShuttingDown?)
    case InClose =>
      && (f.calls.refused <==> f.status.Established?)
      && (if f.calls.refused then due == 0 else due <= 1 && (f.calls.greeted ==> due == 1))
    case Gone => f.calls.farewells <= 1 && (f.calls.greeted ==> (f.calls.farewells == 1 <==> !f.calls.refused))
  }

  /** The reference count is one for the handle until it is given back, the pending writes, and the users. */
  predicate ContextOk(f: Fields) {
    && f.refcount == Base(f.handle) + |f.sendorder| + f.users
    && (if f.active then f.refcount >= 1 else f.refcount == 0 && f.status.Uninitialize?)
    && StatusFits(f.status, f.handle)
    && (f.sendorder != [] ==> f.handle.Open? || f.handle.InClose?)
    && (f.shutting ==> f.status.ShuttingDown? || f.handle.InClose?)
    && (f.status.ShuttingDown? ==> f.shutting)
    && (f.connecting <==> f.status.Connecting?)
    && CallsOk(f)
    && NoDup(f.sendorder)
  }

  ghost predicate ContextsOk(ctxs: map<Context, Fields>) { forall c :: c in ctxs ==> ContextOk(ctxs[c]) }

  /** Every context is on exactly one of the two lists, as its `active` flag says. */
  ghost predicate ListsOk(ctxs: map<Context, Fields>, active: seq<Context>, inactive: seq<Context>) {
    && NoDup(active) && NoDup(inactive)
    && (forall c :: c in active ==> c in ctxs && ctxs[c].active)
    && (forall c :: c in inactive ==> c in ctxs && !ctxs[c].active)
    && (forall c :: c in ctxs ==> if ctxs[c].active then c in active else c in inactive)
  }

  /** Every write request that is used is on the `sendorder` of its context and no other. */
  ghost predicate Enlisted(ctxs: map<Context, Fields>, reqs: map<WriteReq, Claim>) {
    && (forall c, r :: c in ctxs && r in ctxs[c].sendorder ==> r in reqs && reqs[r].context == c)
    && (forall r :: r in reqs ==> reqs[r].context in ctxs && r in ctxs[reqs[r].context].sendorder)
  }

  /** Every write request is in the pool, or in flight and on the `sendorder` of its context and no other. */
  ghost predicate WritesOk(ctxs: map<Context, Fields>, reqs: map<WriteReq, Claim>, pool: seq<WriteReq>,
                           inflight: set<WriteReq>) {
    && (forall r :: r in inflight ==> r in reqs) && (forall r :: r in reqs ==> r in inflight)
    && Enlisted(ctxs, reqs)
    && NoDup(pool) && (forall r :: r in pool ==> r !in reqs)
  }

  /** The writes in flight that carry the buffer. */
  ghost function Carriers(reqs: map<WriteReq, Claim>, b: Buffer): set<WriteReq> {
    set r | r in reqs && reqs[r].buffer == b
  }

  ghost function Carried(reqs: map<WriteReq, Claim>, b: Buffer): nat { |Carriers(reqs, b)| }

  /** A buffer is free exactly when nothing refers to it, and a free buffer is empty. */
  predicate BufferOk(p: Pooled, free: bool, carried: nat) {
    p.refcount == p.users + carried && if free then p.refcount == 0 && p.size == 0 else p.refcount >= 1
  }

  ghost predicate BuffersOk(bufs: map<Buffer, Pooled>, free: seq<Buffer>, using: seq<Buffer>,
                            reqs: map<WriteReq, Claim>) {
    && NoDup(free) && NoDup(using)
    && (forall b :: b in free ==> b in bufs && b !in using)
    && (forall b :: b in using ==> b in bufs)
    && (forall b :: b in bufs ==> b in free || b in using)
    && (forall b :: b in bufs ==> BufferOk(bufs[b], b in free, Carried(reqs, b)))
    && (forall r :: r in reqs ==> reqs[r].buffer in bufs)
  }

  /** The id table maps exactly the ids of the active contexts to them. */
  ghost predicate TableOk(ctxs: map<Context, Fields>, table: map<nat, Context>, lastId: nat) {
    && (forall c :: c in ctxs && ctxs[c].active ==> ctxs[c].uniqid in table && table[ctxs[c].uniqid] == c)
    && (forall id :: id in table ==> id <= lastId && table[id] in ctxs)
    && (forall id :: id in table ==> ctxs[table[id]].active && ctxs[table[id]].uniqid == id)
  }

  ghost predicate Inv(s: State) {
    && ContextsOk(s.ctxs)
    && ListsOk(s.ctxs, s.active, s.inactive)
    && WritesOk(s.ctxs, s.reqs, s.pool, s.inflight)
    && BuffersOk(s.bufs, s.free, s.using, s.reqs)
    && TableOk(s.ctxs, s.table, s.lastId)
  }

  // ---------------------------------------------------------------------------------------------
  // Changing one context or one buffer

  lemma ListsFrame(ctxs: map<Context, Fields>, active: seq<Context>, inactive: seq<Context>, c: Context, f: Fields)
    requires ListsOk(ctxs, active, inactive) && c in ctxs && f.active == ctxs[c].active
    ensures ListsOk(ctxs[c := f], active, inactive)
  {
  }

  lemma WritesFrame(ctxs: map<Context, Fields>, reqs: map<WriteReq, Claim>, pool: seq<WriteReq>,
                    inflight: set<WriteReq>, c: Context, f: Fields)
    requires WritesOk(ctxs, reqs, pool, inflight) && c in ctxs && f.sendorder == ctxs[c].sendorder
    ensures WritesOk(ctxs[c := f], reqs, pool, inflight)
  {
  }

  lemma TableFrame(ctxs: map<Context, Fields>, table: map<nat, Context>, lastId: nat, c: Context, f: Fields)
    requires TableOk(ctxs, table, lastId) && c in ctxs && f.uniqid == ctxs[c].uniqid && f.active == ctxs[c].active
    ensures TableOk(ctxs[c := f], table, lastId)
  {
  }

  lemma ContextsFrame(ctxs: map<Context, Fields>, c: Context, f: Fields)
    requires ContextsOk(ctxs) && ContextOk(f)
    ensures ContextsOk(ctxs[c := f])
  {
  }

  /** A new count, status or holder of one context keeps the invariant if the context's own part of it holds. */
  lemma PutKeeps(s: State, c: Context, f: Fields)
    requires Inv(s) && c in s.ctxs && ContextOk(f)
    requires f.active == s.ctxs[c].active && f.sendorder == s.ctxs[c].sendorder && f.uniqid == s.ctxs[c].uniqid
    ensures Inv(Put(s, c, f))
  {
    ContextsFrame(s.ctxs, c, f);
    ListsFrame(s.ctxs, s.active, s.inactive, c, f);
    WritesFrame(s.ctxs, s.reqs, s.pool, s.inflight, c, f);
    TableFrame(s.ctxs, s.table, s.lastId, c, f);
  }

  lemma BuffersFrame(bufs: map<Buffer, Pooled>, free: seq<Buffer>, using: seq<Buffer>, reqs: map<WriteReq, Claim>,
                     b: Buffer, p: Pooled)
    requires BuffersOk(bufs, free, using, reqs) && b in bufs && BufferOk(p, b in free, Carried(reqs, b))
    ensures BuffersOk(bufs[b := p], free, using, reqs)
  {
  }

  lemma PutBufferKeeps(s: State, b: Buffer, p: Pooled)
    requires Inv(s) && b in s.bufs && BufferOk(p, b in s.free, Carried(s.reqs, b))
    ensures Inv(PutBuffer(s, b, p))
  {
    BuffersFrame(s.bufs, s.free, s.using, s.reqs, b, p);
  }

  lemma PutTwice(s: State, c: Context, f: Fields, g: Fields)
    ensures Put(Put(s, c, f), c, g) == Put(s, c, g)
  {
    assert s.ctxs[c := f][c := g] == s.ctxs[c := g];
  }

  lemma PutBufferTwice(s: State, b: Buffer, p: Pooled, q: Pooled)
    ensures PutBuffer(PutBuffer(s, b, p), b, q) == PutBuffer(s, b, q)
  {
    assert s.bufs[b := p][b := q] == s.bufs[b := q];
  }

  // ---------------------------------------------------------------------------------------------
  // References, and who holds them

  function HoldContext(s: State, c: Context): State
    requires c in s.ctxs
  {
    Put(s, c, s.ctxs[c].(users := s.ctxs[c].users + 1))
  }

  function ReleaseContext(s: State, c: Context): State
    requires c in s.ctxs && s.ctxs[c].users > 0
  {
    Put(s, c, s.ctxs[c].(users := s.ctxs[c].users - 1))
  }

  function HoldBuffer(s: State, b: Buffer): State
    requires b in s.bufs
  {
    PutBuffer(s, b, s.bufs[b].(users := s.bufs[b].users + 1))
  }

  function ReleaseBuffer(s: State, b: Buffer): State
    requires b in s.bufs && s.bufs[b].users > 0
  {
    PutBuffer(s, b, s.bufs[b].(users := s.bufs[b].users - 1))
  }

  lemma AddRefFields(s: State, c: Context)
    requires c in s.ctxs
    ensures HoldContext(AddRef(s, c), c)
      == Put(s, c, s.ctxs[c].(refcount := s.ctxs[c].refcount + 1, users := s.ctxs[c].users + 1))
  {
    PutTwice(s, c, s.ctxs[c].(refcount := s.ctxs[c].refcount + 1),
             s.ctxs[c].(refcount := s.ctxs[c].refcount + 1, users := s.ctxs[c].users + 1));
  }

  lemma AddRefKeeps(s: State, c: Context)
    requires Inv(s) && c in s.ctxs && s.ctxs[c].active
    ensures Inv(HoldContext(AddRef(s, c), c))
  {
    AddRefFields(s, c);
    assert ContextOk(s.ctxs[c]);
    PutKeeps(s, c, s.ctxs[c].(refcount := s.ctxs[c].refcount + 1, users := s.ctxs[c].users + 1));
  }

  /** What dropping a user's reference does to a context that is as the invariant says. */
  lemma DereferenceFields(s: State, c: Context)
    requires c in s.ctxs && ContextOk(s.ctxs[c]) && s.ctxs[c].users > 0
    ensures var f := s.ctxs[c].(refcount := s.ctxs[c].refcount - 1, users := s.ctxs[c].users - 1);
      && Dereference(ReleaseContext(s, c), c).Ok?
      && Dereference(ReleaseContext(s, c), c).value == if f.refcount > 0 then Put(s, c, f) else Recycle(s, c, f)
  {
    var f := s.ctxs[c].(users := s.ctxs[c].users - 1);
    var g := f.(refcount := f.refcount - 1);
    PutTwice(s, c, f, g);
    PutTwice(s, c, f, g.(active := false, status := Uninitialize));
  }

  /** Giving up a user's reference never trips an assertion; the last one recycles the context. */
  lemma DereferenceKeeps(s: State, c: Context)
    requires Inv(s) && c in s.ctxs && s.ctxs[c].users > 0
    ensures Dereference(ReleaseContext(s, c), c).Ok? && Inv(Dereference(ReleaseContext(s, c), c).value)
  {
    DereferenceFields(s, c);
    assert ContextOk(s.ctxs[c]);
    var f := s.ctxs[c].(refcount := s.ctxs[c].refcount - 1, users := s.ctxs[c].users - 1);
    if f.refcount > 0 {
      PutKeeps(s, c, f);
    } else {
      RecycleKeeps(s, c, f);
    }
  }

  lemma RecycleKeeps(s: State, c: Context, f: Fields)
    requires Inv(s) && c in s.ctxs && s.ctxs[c].active && s.ctxs[c].sendorder == f.sendorder == []
    requires f.uniqid == s.ctxs[c].uniqid && ContextOk(f.(active := false, status := Uninitialize))
    ensures Inv(Recycle(s, c, f))
  {
    var g := f.(active := false, status := Uninitialize);
    ContextsFrame(s.ctxs, c, g);
    WritesFrame(s.ctxs, s.reqs, s.pool, s.inflight, c, g);
    ListsRecycle(s.ctxs, s.active, s.inactive, c, g);
    TableRecycle(s.ctxs, s.table, s.lastId, c, g);
  }

  lemma ListsRecycle(ctxs: map<Context, Fields>, active: seq<Context>, inactive: seq<Context>, c: Context, f: Fields)
    requires ListsOk(ctxs, active, inactive) && c in ctxs && ctxs[c].active && !f.active
    ensures ListsOk(ctxs[c := f], Remove(active, c), inactive + [c])
  {
    RemoveFrom(active, c);
    AppendTo(inactive, c);
    var ctxs', active', inactive' := ctxs[c := f], Remove(active, c), inactive + [c];
    assert NoDup(active') && NoDup(inactive');
    forall d | d in active' ensures d in ctxs' && ctxs'[d].active {}
    forall d | d in inactive' ensures d in ctxs' && !ctxs'[d].active {}
    forall d | d in ctxs' ensures if ctxs'[d].active then d in active' else d in inactive' {}
  }

  lemma TableRecycle(ctxs: map<Context, Fields>, table: map<nat, Context>, lastId: nat, c: Context, f: Fields)
    requires TableOk(ctxs, table, lastId) && c in ctxs && ctxs[c].active && !f.active && f.uniqid == ctxs[c].uniqid
    ensures TableOk(ctxs[c := f], table - {f.uniqid}, lastId)
  {
  }

  lemma BufferAddRefKeeps(s: State, b: Buffer)
    requires Inv(s) && b in s.using
    ensures Inv(HoldBuffer(BufferAddRef(s, b), b))
    ensures BufferAddRef(s, b).bufs[b].size == s.bufs[b].size
  {
    hide ContextsOk, ListsOk, WritesOk, BuffersOk, TableOk;
    UsedBuffer(s, b);
    var p := s.bufs[b];
    PutBufferKeeps(s, b, p.(refcount := p.refcount + 1, users := p.users + 1));
    PutBufferTwice(s, b, p.(refcount := p.refcount + 1), p.(refcount := p.refcount + 1, users := p.users + 1));
  }

  lemma BufferDereferenceKeeps(s: State, b: Buffer)
    requires Inv(s) && b in s.bufs && s.bufs[b].users > 0
    ensures Inv(BufferDereference(ReleaseBuffer(s, b), b))
  {
    hide ContextsOk, ListsOk, WritesOk, BuffersOk, TableOk, Remove;
    BufferFact(s, b);
    var p := s.bufs[b].(users := s.bufs[b].users - 1);
    var q := p.(refcount := p.refcount - 1);
    if q.refcount > 0 {
      PutBufferKeeps(s, b, q);
      PutBufferTwice(s, b, p, q);
    } else {
      BuffersRecycle(s.bufs, s.free, s.using, s.reqs, b, q.(size := 0));
      PutBufferTwice(s, b, p, q.(size := 0));
    }
  }

  lemma BuffersRecycle(bufs: map<Buffer, Pooled>, free: seq<Buffer>, using: seq<Buffer>, reqs: map<WriteReq, Claim>,
                       b: Buffer, p: Pooled)
    requires BuffersOk(bufs, free, using, reqs) && b in bufs && b !in free && BufferOk(p, true, Carried(reqs, b))
    ensures BuffersOk(bufs[b := p], free + [b], Remove(using, b), reqs)
  {
    RemoveFrom(using, b);
    AppendTo(free, b);
    var bufs', free', using' := bufs[b := p], free + [b], Remove(using, b);
    assert NoDup(free') && NoDup(using');
    forall d | d in free' ensures d in bufs' && d !in using' {}
    forall d | d in using' ensures d in bufs' {}
    forall d | d in bufs' ensures d in free' || d in using' {}
    forall d | d in bufs' ensures BufferOk(bufs'[d], d in free', Carried(reqs, d)) {}
  }

  // ---------------------------------------------------------------------------------------------
  // Taking objects out of the pools

  lemma PickedIsIdle(ctxs: map<Context, Fields>, active: seq<Context>, inactive: seq<Context>, c: Context)
    requires ContextsOk(ctxs) && ListsOk(ctxs, active, inactive)
    requires if inactive == [] then c !in ctxs else c == inactive[0]
    ensures c in ctxs ==> !ctxs[c].active && ctxs[c].sendorder == []
  {
    if c in ctxs { assert ContextOk(ctxs[c]); }
  }

  lemma ActivateKeeps(s: State, spare: Context)
    requires Inv(s) && (s.inactive == [] ==> spare !in s.ctxs)
    ensures Inv(Activate(s, spare))
  {
    hide ContextsOk, ListsOk, WritesOk, BuffersOk, TableOk;
    var c := Picked(s, spare);
    var f := Started(s.lastId + 1);
    PickedIsIdle(s.ctxs, s.active, s.inactive, c);
    ContextsFrame(s.ctxs, c, f);
    ListsActivate(s.ctxs, s.active, s.inactive, c, f);
    WritesActivate(s.ctxs, s.reqs, s.pool, s.inflight, c, f);
    TableActivate(s.ctxs, s.table, s.lastId, c, f);
  }

  lemma ListsActivate(ctxs: map<Context, Fields>, active: seq<Context>, inactive: seq<Context>, c: Context, f: Fields)
    requires ListsOk(ctxs, active, inactive) && f.active
    requires if inactive == [] then c !in ctxs else c == inactive[0]
    ensures ListsOk(ctxs[c := f], active + [c], if inactive == [] then [] else inactive[1..])
  {
    assert c !in active;
    AppendTo(active, c);
    var ctxs', active', inactive' := ctxs[c := f], active + [c], if inactive == [] then [] else inactive[1..];
    assert NoDup(inactive');
    forall d | d in active' ensures d in ctxs' && ctxs'[d].active {}
    forall d | d in inactive' ensures d in ctxs' && !ctxs'[d].active { assert d in inactive; }
    forall d | d in ctxs' ensures if ctxs'[d].active then d in active' else d in inactive' {
      if d != c && d in inactive { assert d in inactive[1..]; }
    }
  }

  lemma WritesActivate(ctxs: map<Context, Fields>, reqs: map<WriteReq, Claim>, pool: seq<WriteReq>,
                       inflight: set<WriteReq>, c: Context, f: Fields)
    requires WritesOk(ctxs, reqs, pool, inflight) && f.sendorder == [] && (c in ctxs ==> ctxs[c].sendorder == [])
    ensures WritesOk(ctxs[c := f], reqs, pool, inflight)
  {
  }

  lemma TableActivate(ctxs: map<Context, Fields>, table: map<nat, Context>, lastId: nat, c: Context, f: Fields)
    requires TableOk(ctxs, table, lastId) && (c in ctxs ==> !ctxs[c].active) && f.active && f.uniqid == lastId + 1
    ensures TableOk(ctxs[c := f], table[lastId + 1 := c], lastId + 1)
  {
  }

  lemma BufferNewKeeps(s: State, spare: Buffer)
    requires Inv(s) && (s.free == [] ==> spare !in s.bufs)
    ensures s.free != [] ==> s.free[|s.free| - 1] in s.bufs
    ensures var b := PickedBuffer(s, spare);
      && b in BufferNew(s, spare).bufs && BufferNew(s, spare).bufs[b] == Pooled(1, 0, 0)
      && Inv(HoldBuffer(BufferNew(s, spare), b))
  {
    hide ContextsOk, ListsOk, WritesOk, BuffersOk, TableOk;
    var b := PickedBuffer(s, spare);
    PickedIsFree(s.bufs, s.free, s.using, s.reqs, b);
    BuffersNew(s.bufs, s.free, s.using, s.reqs, b);
    var p := Pooled(0, 0, 0);
    assert BufferNew(s, spare).bufs == s.bufs[b := p][b := p.(refcount := 1)] == s.bufs[b := p.(refcount := 1)];
    PutBufferTwice(s, b, p.(refcount := 1), p.(refcount := 1, users := 1));
  }

  lemma PickedIsFree(bufs: map<Buffer, Pooled>, free: seq<Buffer>, using: seq<Buffer>, reqs: map<WriteReq, Claim>,
          b: Buffer)
    requires BuffersOk(bufs, free, using, reqs)
    requires if free == [] then b !in bufs else b == free[|free| - 1]
    ensures Carried(reqs, b) == 0 && (free != [] ==> b in bufs && bufs[b] == Pooled(0, 0, 0))
  {
    if free == [] {
      assert Carriers(reqs, b) == {};
    } else {
      assert b in free && BufferOk(bufs[b], true, Carried(reqs, b));
    }
  }

  /** A buffer comes off the end of the free list, if there is one, and joins those in use. */
  lemma ListsNew(free: seq<Buffer>, using: seq<Buffer>, b: Buffer)
    requires NoDup(free) && NoDup(using) && b !in using && (free == [] || b == free[|free| - 1])
    ensures var free' := if free == [] then [] else free[..|free| - 1];
      && NoDup(free') && NoDup(using + [b])
      && (forall d :: d in free' <==> d in free && d != b)
      && (forall d :: d in using + [b] <==> d in using || d == b)
  {
    AppendTo(using, b);
  }

  lemma BuffersNew(bufs: map<Buffer, Pooled>, free: seq<Buffer>, using: seq<Buffer>, reqs: map<WriteReq, Claim>,
          b: Buffer)
    requires BuffersOk(bufs, free, using, reqs) && Carried(reqs, b) == 0
    requires if free == [] then b !in bufs else b == free[|free| - 1]
    ensures BuffersOk(bufs[b := Pooled(1, 0, 1)], if free == [] then [] else free[..|free| - 1], using + [b], reqs)
  {
    hide NoDup, Carried;
    assert b !in using;
    ListsNew(free, using, b);
  }

  // ---------------------------------------------------------------------------------------------
  // Write requests

  /** libuv now owes (or no longer owes) the callback of `r`. */
  function Promise(s: State, r: WriteReq): State { s.(inflight := s.inflight + {r}) }
  function Settle(s: State, r: WriteReq): State { s.(inflight := s.inflight - {r}) }

  lemma CarriedAdds(reqs: map<WriteReq, Claim>, r: WriteReq, c: Context, b: Buffer)
    requires r !in reqs
    ensures Carried(reqs[r := Claim(c, b)], b) == Carried(reqs, b) + 1
    ensures forall d: Buffer :: d != b ==> Carried(reqs[r := Claim(c, b)], d) == Carried(reqs, d)
  {
    var reqs' := reqs[r := Claim(c, b)];
    assert Carriers(reqs', b) == Carriers(reqs, b) + {r};
    forall d: Buffer | d != b ensures Carried(reqs', d) == Carried(reqs, d) {
      assert Carriers(reqs', d) == Carriers(reqs, d);
    }
  }

  lemma CarriedDrops(reqs: map<WriteReq, Claim>, r: WriteReq)
    requires r in reqs
    ensures Carried(reqs, reqs[r].buffer) == Carried(reqs - {r}, reqs[r].buffer) + 1
    ensures forall d: Buffer :: d != reqs[r].buffer ==> Carried(reqs - {r}, d) == Carried(reqs, d)
  {
    assert reqs == (reqs - {r})[r := reqs[r]];
    assert reqs[r] == Claim(reqs[r].context, reqs[r].buffer);
    CarriedAdds(reqs - {r}, r, reqs[r].context, reqs[r].buffer);
  }

  lemma BuffersEnlist(bufs: map<Buffer, Pooled>, free: seq<Buffer>, using: seq<Buffer>, reqs: map<WriteReq, Claim>,
                      r: WriteReq, c: Context, b: Buffer, p: Pooled)
    requires BuffersOk(bufs, free, using, reqs) && b in bufs && r !in reqs
    requires BufferOk(p, b in free, Carried(reqs, b) + 1)
    ensures BuffersOk(bufs[b := p], free, using, reqs[r := Claim(c, b)])
  {
    CarriedAdds(reqs, r, c, b);
  }

  lemma BuffersUnlist(bufs: map<Buffer, Pooled>, free: seq<Buffer>, using: seq<Buffer>, reqs: map<WriteReq, Claim>,
                      r: WriteReq, p: Pooled)
    requires BuffersOk(bufs, free, using, reqs) && r in reqs
    requires reqs[r].buffer in bufs && p == bufs[reqs[r].buffer].(users := bufs[reqs[r].buffer].users + 1)
    ensures BuffersOk(bufs[reqs[r].buffer := p], free, using, reqs - {r})
  {
    CarriedDrops(reqs, r);
    var b := reqs[r].buffer;
    assert BufferOk(bufs[b], b in free, Carried(reqs, b));
    var bufs', reqs' := bufs[b := p], reqs - {r};
    forall d | d in bufs' ensures BufferOk(bufs'[d], d in free, Carried(reqs', d)) {}
  }

  lemma WritesEnlist(ctxs: map<Context, Fields>, reqs: map<WriteReq, Claim>, pool: seq<WriteReq>,
                     inflight: set<WriteReq>, r: WriteReq, c: Context, b: Buffer, f: Fields)
    requires WritesOk(ctxs, reqs, pool, inflight) && c in ctxs && r !in reqs && r !in pool
    requires f.sendorder == [r] + ctxs[c].sendorder
    ensures WritesOk(ctxs[c := f], reqs[r := Claim(c, b)], pool, inflight + {r})
  {
    var ctxs', reqs' := ctxs[c := f], reqs[r := Claim(c, b)];
    forall d, q | d in ctxs' && q in ctxs'[d].sendorder ensures q in reqs' && reqs'[q].context == d {
      if d == c && q != r { assert q in ctxs[c].sendorder; }
    }
    forall q | q in reqs' ensures reqs'[q].context in ctxs' && q in ctxs'[reqs'[q].context].sendorder {
      if q == r { assert f.sendorder[0] == r; } else if reqs[q].context == c { assert q in f.sendorder[1..]; }
    }
  }

  lemma StillEnlisted(ctxs: map<Context, Fields>, reqs: map<WriteReq, Claim>, r: WriteReq, f: Fields)
    requires Enlisted(ctxs, reqs) && r in reqs && NoDup(ctxs[reqs[r].context].sendorder)
    requires f.sendorder == Remove(ctxs[reqs[r].context].sendorder, r)
    ensures Enlisted(ctxs[reqs[r].context := f], reqs - {r})
  {
    hide Remove;
    var c := reqs[r].context;
    RemoveFrom(ctxs[c].sendorder, r);
    var ctxs', reqs' := ctxs[c := f], reqs - {r};
    forall d, q | d in ctxs' && q in ctxs'[d].sendorder ensures q in reqs' && reqs'[q].context == d {}
    forall q | q in reqs' ensures reqs'[q].context in ctxs' && q in ctxs'[reqs'[q].context].sendorder {}
  }

  lemma WritesUnlist(ctxs: map<Context, Fields>, reqs: map<WriteReq, Claim>, pool: seq<WriteReq>,
                     inflight: set<WriteReq>, r: WriteReq, f: Fields)
    requires WritesOk(ctxs, reqs, pool, inflight) && r in reqs && reqs[r].context in ctxs
    requires NoDup(ctxs[reqs[r].context].sendorder)
    requires f.sendorder == Remove(ctxs[reqs[r].context].sendorder, r)
    ensures WritesOk(ctxs[reqs[r].context := f], reqs - {r}, pool + [r], inflight - {r})
  {
    hide Enlisted, Remove;
    StillEnlisted(ctxs, reqs, r, f);
    AppendTo(pool, r);
  }

  /** `Attach`, field by field. */
  lemma AttachFields(s: State, c: Context, b: Buffer, spare: WriteReq)
    requires c in s.ctxs && b in s.bufs && s.bufs[b].refcount >= 1
    ensures var r, f, p := PickedReq(s, spare), s.ctxs[c], s.bufs[b];
      Attach(s, c, b, spare)
      == PutBuffer(Put(TakeReq(s), c, f.(refcount := f.refcount + 1, sendorder := [r] + f.sendorder)),
                   b, p.(refcount := p.refcount + 1)).(reqs := s.reqs[r := Claim(c, b)])
  {
    var r, f := PickedReq(s, spare), s.ctxs[c];
    PutTwice(TakeReq(s), c, f.(refcount := f.refcount + 1),
        f.(refcount := f.refcount + 1, sendorder := [r] + f.sendorder));
  }

  lemma TakenReq(s: State, spare: WriteReq)
    requires WritesOk(s.ctxs, s.reqs, s.pool, s.inflight) && (s.pool == [] ==> spare !in s.reqs)
    ensures var t, r := TakeReq(s), PickedReq(s, spare);
      WritesOk(t.ctxs, t.reqs, t.pool, t.inflight) && r !in t.reqs && r !in t.pool
  {
    if s.pool != [] {
      var t := TakeReq(s);
      assert PickedReq(s, spare) in s.pool;
      forall q | q in t.pool ensures q in s.pool {}
    }
  }

  /** A write that libuv takes holds one reference on its context and one on its buffer. */
  lemma AttachKeeps(s: State, c: Context, b: Buffer, spare: WriteReq)
    requires Inv(s) && c in s.ctxs && s.ctxs[c].active && (s.ctxs[c].handle.Open? || s.ctxs[c].handle.InClose?)
    requires b in s.using && (s.pool == [] ==> spare !in s.reqs)
    ensures b in s.bufs && Inv(Promise(Attach(s, c, b, spare), PickedReq(s, spare)))
  {
    hide ContextsOk, ListsOk, WritesOk, BuffersOk, TableOk;
    UsedBuffer(s, b);
    var r, f, p := PickedReq(s, spare), s.ctxs[c], s.bufs[b];
    var g := f.(refcount := f.refcount + 1, sendorder := [r] + f.sendorder);
    AttachFields(s, c, b, spare);
    TakenReq(s, spare);
    ContextFact(s, c);
    NewReq(s, r, c);
    AppendTo(f.sendorder, r);
    ContextsFrame(s.ctxs, c, g);
    ListsFrame(s.ctxs, s.active, s.inactive, c, g);
    TableFrame(s.ctxs, s.table, s.lastId, c, g);
    WritesEnlist(s.ctxs, s.reqs, TakeReq(s).pool, s.inflight, r, c, b, g);
    BuffersEnlist(s.bufs, s.free, s.using, s.reqs, r, c, b, p.(refcount := p.refcount + 1));
  }

  lemma ContextFact(s: State, c: Context)
    requires ContextsOk(s.ctxs) && c in s.ctxs
    ensures ContextOk(s.ctxs[c])
  {
  }

  lemma UsedBuffer(s: State, b: Buffer)
    requires BuffersOk(s.bufs, s.free, s.using, s.reqs) && b in s.using
    ensures b in s.bufs && b !in s.free && s.bufs[b].refcount >= 1 && BufferOk(s.bufs[b], false, Carried(s.reqs, b))
  {
  }

  lemma NewReq(s: State, r: WriteReq, c: Context)
    requires WritesOk(s.ctxs, s.reqs, s.pool, s.inflight) && c in s.ctxs && r !in s.reqs
    ensures r !in s.ctxs[c].sendorder
  {
  }

  lemma OldReq(s: State, r: WriteReq)
    requires WritesOk(s.ctxs, s.reqs, s.pool, s.inflight) && BuffersOk(s.bufs, s.free, s.using, s.reqs) && r in s.reqs
    ensures s.reqs[r].context in s.ctxs && s.reqs[r].buffer in s.bufs && r in s.ctxs[s.reqs[r].context].sendorder
  {
  }

  /** The request is back in the pool, and its two references are in the hands of the callback. */
  function Returned(s: State, r: WriteReq): State
    requires r in s.reqs && s.reqs[r].context in s.ctxs && s.reqs[r].buffer in s.bufs
  {
    var Claim(c, b) := s.reqs[r];
    HoldBuffer(HoldContext(Unlist(s, r, c), c), b).(reqs := s.reqs - {r}, pool := s.pool + [r],
        inflight := s.inflight - {r})
  }

  lemma ReturnedKeeps(s: State, r: WriteReq)
    requires Inv(s) && r in s.reqs
    ensures s.reqs[r].context in s.ctxs && s.reqs[r].buffer in s.bufs && Inv(Returned(s, r))
  {
    hide ContextsOk, ListsOk, WritesOk, BuffersOk, TableOk;
    OldReq(s, r);
    var Claim(c, b) := s.reqs[r];
    ContextFact(s, c);
    var f := s.ctxs[c];
    var g := f.(sendorder := Remove(f.sendorder, r), users := f.users + 1);
    RemoveFrom(f.sendorder, r);
    PutTwice(s, c, f.(sendorder := g.sendorder), g);
    ContextsFrame(s.ctxs, c, g);
    ListsFrame(s.ctxs, s.active, s.inactive, c, g);
    TableFrame(s.ctxs, s.table, s.lastId, c, g);
    WritesUnlist(s.ctxs, s.reqs, s.pool, s.inflight, r, g);
    BuffersUnlist(s.bufs, s.free, s.using, s.reqs, r, s.bufs[b].(users := s.bufs[b].users + 1));
  }

  lemma HoldAndRelease(s: State, b: Buffer)
    requires b in s.bufs
    ensures ReleaseBuffer(HoldBuffer(s, b), b) == s
  {
    PutBufferTwice(s, b, s.bufs[b].(users := s.bufs[b].users + 1), s.bufs[b]);
    assert s.bufs[b := s.bufs[b]] == s.bufs;
  }

  lemma HoldAndReleaseContext(s: State, c: Context)
    requires c in s.ctxs
    ensures ReleaseContext(HoldContext(s, c), c) == s
  {
    PutTwice(s, c, s.ctxs[c].(users := s.ctxs[c].users + 1), s.ctxs[c]);
    assert s.ctxs[c := s.ctxs[c]] == s.ctxs;
  }

  function WithReqs(s: State, reqs: map<WriteReq, Claim>, pool: seq<WriteReq>, inflight: set<WriteReq>): State {
    s.(reqs := reqs, pool := pool, inflight := inflight)
  }

  /** Dropping references does not look at the write requests. */
  lemma DropsCommute(s: State, c: Context, b: Buffer, reqs: map<WriteReq, Claim>, pool: seq<WriteReq>,
          inflight: set<WriteReq>)
    requires c in s.ctxs && b in s.bufs
    ensures BufferDereference(WithReqs(HoldContext(s, c), reqs, pool, inflight), b)
         == HoldContext(WithReqs(BufferDereference(s, b), reqs, pool, inflight), c)
    ensures Dereference(s, c).Ok?
      ==> Dereference(WithReqs(s, reqs, pool, inflight), c)
          == Ok(WithReqs(Dereference(s, c).value, reqs, pool, inflight))
    ensures Dereference(s, c).Ok? <==> Dereference(WithReqs(s, reqs, pool, inflight), c).Ok?
  {
    hide Remove, Dereference, BufferDereference;
    BufferDropCommutes(s, c, b, reqs, pool, inflight);
    DropCommutes(s, c, reqs, pool, inflight);
  }

  lemma BufferDropCommutes(s: State, c: Context, b: Buffer, reqs: map<WriteReq, Claim>, pool: seq<WriteReq>,
          inflight: set<WriteReq>)
    requires c in s.ctxs && b in s.bufs
    ensures BufferDereference(WithReqs(HoldContext(s, c), reqs, pool, inflight), b)
         == HoldContext(WithReqs(BufferDereference(s, b), reqs, pool, inflight), c)
  {
    hide Remove;
  }

  lemma DropCommutes(s: State, c: Context, reqs: map<WriteReq, Claim>, pool: seq<WriteReq>, inflight: set<WriteReq>)
    requires c in s.ctxs
    ensures Dereference(s, c).Ok?
      ==> Dereference(WithReqs(s, reqs, pool, inflight), c)
          == Ok(WithReqs(Dereference(s, c).value, reqs, pool, inflight))
    ensures Dereference(s, c).Ok? <==> Dereference(WithReqs(s, reqs, pool, inflight), c).Ok?
  {
    hide Remove;
  }

  /** When the buffer's reference is dropped the context's is in the hands of the callback. */
  lemma BufferGivenBack(s: State, r: WriteReq)
    requires Inv(s) && r in s.reqs
    ensures s.reqs[r].context in s.ctxs && s.reqs[r].buffer in s.bufs
    ensures var Claim(c, b) := s.reqs[r]; var u := BufferDereference(Unlist(s, r, c), b);
      Inv(HoldContext(WithReqs(u, s.reqs - {r}, s.pool + [r], s.inflight - {r}), c))
  {
    hide ContextsOk, ListsOk, WritesOk, BuffersOk, TableOk, Inv, Remove;
    ReturnedKeeps(s, r);
    var Claim(c, b) := s.reqs[r];
    var reqs, pool, inflight := s.reqs - {r}, s.pool + [r], s.inflight - {r};
    var t := Unlist(s, r, c);
    BufferDereferenceKeeps(Returned(s, r), b);
    HoldAndRelease(WithReqs(HoldContext(t, c), reqs, pool, inflight), b);
    assert HoldBuffer(WithReqs(HoldContext(t, c), reqs, pool, inflight), b) == Returned(s, r);
    DropsCommute(t, c, b, reqs, pool, inflight);
  }

  /** A finished (or refused) write gives both its references back without tripping an assertion. */
  lemma DetachKeeps(s: State, r: WriteReq)
    requires Inv(s) && r in s.reqs
    ensures s.reqs[r].context in s.ctxs && s.reqs[r].buffer in s.bufs
    ensures Detach(s, r).Ok? && Inv(Settle(Detach(s, r).value, r))
  {
    hide ContextsOk, ListsOk, WritesOk, BuffersOk, TableOk, Inv, BufferDereference, Dereference;
    BufferGivenBack(s, r);
    var Claim(c, b) := s.reqs[r];
    var reqs, pool, inflight := s.reqs - {r}, s.pool + [r], s.inflight - {r};
    BufferUnlisted(s, r, c, b);
    var u := BufferDereference(Unlist(s, r, c), b);
    DereferenceKeeps(HoldContext(WithReqs(u, reqs, pool, inflight), c), c);
    HoldAndReleaseContext(WithReqs(u, reqs, pool, inflight), c);
    DropsCommute(u, c, b, reqs, pool, inflight);
    DereferenceLeaves(u, c);
  }

  /** The two functions look neither at the write requests nor at libuv. */
  lemma BufferUnlisted(s: State, r: WriteReq, c: Context, b: Buffer)
    requires c in s.ctxs && b in s.bufs
    ensures var u := BufferDereference(Unlist(s, r, c), b);
      c in u.ctxs && b in u.bufs && u.reqs == s.reqs && u.pool == s.pool && u.inflight == s.inflight
  {
    hide Remove;
  }

  lemma DereferenceLeaves(s: State, c: Context)
    requires c in s.ctxs
    ensures var o := Dereference(s, c);
      !o.UvAbort? && (o.Ok? ==> o.value.reqs == s.reqs && o.value.pool == s.pool && o.value.inflight == s.inflight)
  {
    hide Remove;
  }

  /** The handle is given back: its reference is dropped like a user's. */
  lemma GiveBackKeeps(s: State, c: Context, f: Fields)
    requires Inv(s) && c in s.ctxs && !s.ctxs[c].handle.Gone?
    requires s.ctxs[c].sendorder == [] && !s.ctxs[c].shutting && !s.ctxs[c].connecting
    requires f == s.ctxs[c].(status := f.status, handle := Gone, calls := f.calls)
    requires (f.status.Closed? || f.status.Uninitialize?) && CallsOk(f)
    ensures Dereference(Put(s, c, f), c).Ok? && Inv(Dereference(Put(s, c, f), c).value)
  {
    hide ContextsOk, ListsOk, WritesOk, BuffersOk, TableOk;
    ContextFact(s, c);
    PutKeeps(s, c, f.(users := f.users + 1));
    DereferenceKeeps(Put(s, c, f.(users := f.users + 1)), c);
    PutTwice(s, c, f.(users := f.users + 1), f);
  }

  // ---------------------------------------------------------------------------------------------
  // The transition system

  /** `uv_close`: libuv aborts if the handle is closing already. */
  function UvClose(s: State, c: Context): Outcome<State>
    requires c in s.ctxs
  {
    if s.ctxs[c].handle.Open? then Ok(Put(s, c, s.ctxs[c].(handle := InClose))) else UvAbort
  }

  /** How the source closes a handle it takes to be open: the context counts as closing before libuv is asked. */
  function CloseHandle(s: State, c: Context): Outcome<State>
    requires c in s.ctxs
  {
    UvClose(SetStatus(s, c, Closing), c)
  }

  function NotifyAfterClose(s: State, c: Context): State
    requires c in s.ctxs
  {
    Put(s, c, s.ctxs[c].(closeNotify := true))
  }

  /** The user is told: of a new connection, of the end of one. */
  function Greet(f: Fields): Fields { f.(calls := f.calls.(greeted := true)) }
  function Farewell(f: Fields): Fields { f.(calls := f.calls.(farewells := f.calls.farewells + 1)) }

  /** A context when `ks_socket_after_close` has told the user, if it has to. */
  function Ended(f: Fields): Fields {
    (if f.closeNotify then Farewell(f) else f).(status := Closed, handle := Gone)
  }

  function MarkRefused(s: State, c: Context): State
    requires c in s.ctxs
  {
    Put(s, c, s.ctxs[c].(calls := s.ctxs[c].calls.(refused := true)))
  }

  const ID_LIMIT: nat := 0x1_0000_0000_0000_0000

  datatype Step =
    | Acquire(spare: Context)                       // ks_socket_refernece(container, NULL)
    | InitHandle(c: Context, ok: bool)              // uv_tcp_init or uv_pipe_init
    | Bind(c: Context, ok: bool)                    // uv_..._bind and uv_listen
    | Connect(c: Context, ok: bool)                 // uv_..._connect
    | Accept(c: Context, ok: bool)                  // uv_accept
    | Connected(c: Context, ok: bool, reading: bool)  // ks_connected_cb, and uv_read_start in it
    | Welcome(c: Context)                           // uv_read_start on an accepted connection, and `connected`
    | ReadRefused(c: Context)                       // uv_read_start fails on an accepted connection
    | ReadEnd(c: Context)                           // ks_socket_read_cb with end of file or an error
    | CloseCall(c: Context)                         // ks_socket_close
    | ShutdownCall(c: Context, ok: bool)            // ks_socket_shutdown, and uv_shutdown in it
    | ShutdownDone(c: Context)                      // ks_shutdown_cb
    | Send(c: Context, b: Buffer, spareReq: WriteReq, ok: bool)  // ks_socket_send, and uv_write in it
    | Written(r: WriteReq)                          // ks_write_cb
    | AfterClose(c: Context)                        // ks_socket_after_close
    | UserRef(c: Context) | UserDeref(c: Context)
    | BufferAcquire(spareBuffer: Buffer) | BufferRef(b: Buffer) | BufferDeref(b: Buffer)
    | BufferWrite(b: Buffer, n: nat)

  /**
    When a call is legal for its caller, or a callback can come. libuv calls back each write, connect
    and shutdown request once, and all of them before the close callback of their handle.
   */
  ghost predicate Enabled(s: State, step: Step) {
    match step
    case Acquire(spare) => (s.inactive == [] ==> spare !in s.ctxs) && s.lastId + 1 < ID_LIMIT
    case InitHandle(c, _) => c in s.ctxs && s.ctxs[c].handle.Raw?
    case Bind(c, _) => c in s.ctxs && s.ctxs[c].status.Initialized?
    case Connect(c, _) => c in s.ctxs && s.ctxs[c].status.Initialized?
    case Accept(c, _) => c in s.ctxs && s.ctxs[c].status.Initialized?
    case Connected(c, _, _) => c in s.ctxs && s.ctxs[c].connecting
    case Welcome(c) => c in s.ctxs && s.ctxs[c].status.Established? && s.ctxs[c].handle.Open?
      && !s.ctxs[c].calls.greeted
    case ReadRefused(c) => c in s.ctxs && s.ctxs[c].status.Established? && s.ctxs[c].handle.Open?
      && !s.ctxs[c].calls.greeted
    case ReadEnd(c) => c in s.ctxs && s.ctxs[c].handle.Open? && s.ctxs[c].calls.greeted
    case CloseCall(c) => c in s.ctxs
    case ShutdownCall(c, ok) => c in s.ctxs && (ok && s.ctxs[c].status.Established? ==> s.ctxs[c].handle.Open?)
    case ShutdownDone(c) => c in s.ctxs && s.ctxs[c].shutting
    case Send(c, b, spare, ok) =>
      && c in s.ctxs && b in s.using && (s.pool == [] ==> spare !in s.reqs)
      && (ok && s.ctxs[c].status.Established? ==> s.ctxs[c].handle.Open?)
    case Written(r) => r in s.inflight
    case AfterClose(c) =>
      && c in s.ctxs && s.ctxs[c].handle.InClose? && !s.ctxs[c].shutting && !s.ctxs[c].connecting
      && (forall r :: r in s.inflight ==> r in s.reqs && s.reqs[r].context != c)
    case UserRef(c) => c in s.ctxs && s.ctxs[c].active
    case UserDeref(c) => c in s.ctxs && s.ctxs[c].users > 0
    case BufferAcquire(spare) => s.free == [] ==> spare !in s.bufs
    case BufferRef(b) => b in s.using
    case BufferDeref(b) => b in s.bufs && s.bufs[b].users > 0
    case BufferWrite(b, _) => b in s.bufs && s.bufs[b].users > 0
  }

  /** The objects the step gets at through pointers are the container's own. */
  predicate Resolved(s: State, step: Step) {
    match step
    case Acquire(_) => true
    case Send(c, b, _, _) => c in s.ctxs && b in s.bufs
    case Written(r) => r in s.reqs && s.reqs[r].context in s.ctxs && s.reqs[r].buffer in s.bufs
    case UserDeref(c) => c in s.ctxs && s.ctxs[c].users > 0
    case BufferAcquire(_) => s.free != [] ==> s.free[|s.free| - 1] in s.bufs
    case BufferRef(b) => b in s.bufs
    case BufferDeref(b) => b in s.bufs && s.bufs[b].users > 0
    case BufferWrite(b, _) => b in s.bufs
    case _ => step.c in s.ctxs
  }

  /** What each step does; the user callbacks themselves are steps of their own. */
  function Perform(s: State, step: Step): Outcome<State>
    requires Resolved(s, step)
  {
    match step
    case Acquire(spare) => Ok(Activate(s, spare))
    case InitHandle(c, ok) =>
      if ok then Ok(Put(s, c, s.ctxs[c].(status := Initialized, handle := Open)))
      else Dereference(Put(s, c, s.ctxs[c].(handle := Gone)), c)
    case Bind(c, ok) => if ok then Ok(SetStatus(s, c, Listen)) else CloseHandle(s, c)
    case Connect(c, ok) =>
      if ok then Ok(Put(s, c, s.ctxs[c].(status := Connecting, connecting := true))) else CloseHandle(s, c)
    case Accept(c, ok) => if ok then Ok(SetStatus(s, c, Established)) else CloseHandle(s, c)
    case Connected(c, ok, reading) =>
      var t := Put(s, c, s.ctxs[c].(connecting := false));
      if !ok then CloseHandle(t, c)
      else if reading then Ok(Put(t, c, Greet(t.ctxs[c].(status := Established))))
      else CloseHandle(SetStatus(t, c, Established), c)
    case Welcome(c) => Ok(Put(s, c, Greet(s.ctxs[c])))
    case ReadRefused(c) => CloseHandle(s, c)
    case ReadEnd(c) => CloseHandle(Put(s, c, Farewell(s.ctxs[c])), c)
    case CloseCall(c) => PerformClose(s, c)
    case ShutdownCall(c, ok) =>
      if !s.ctxs[c].status.Established? then Ok(s)
      else if ok then Ok(Put(s, c, s.ctxs[c].(status := ShuttingDown, shutting := true)))
      else CloseHandle(NotifyAfterClose(s, c), c)
    case ShutdownDone(c) => CloseHandle(Put(s, c, Farewell(s.ctxs[c].(shutting := false, status := Shutdown))), c)
    case Send(c, b, spare, ok) => PerformSend(s, c, b, spare, ok)
    case Written(r) => PerformWritten(s, r)
    case AfterClose(c) => Dereference(Put(s, c, Ended(s.ctxs[c])), c)
    case UserRef(c) => Ok(HoldContext(AddRef(s, c), c))
    case UserDeref(c) => Dereference(ReleaseContext(s, c), c)
    case BufferAcquire(spare) => Ok(HoldBuffer(BufferNew(s, spare), PickedBuffer(s, spare)))
    case BufferRef(b) => Ok(HoldBuffer(BufferAddRef(s, b), b))
    case BufferDeref(b) => Ok(BufferDereference(ReleaseBuffer(s, b), b))
    case BufferWrite(b, n) => Ok(PutBuffer(s, b, s.bufs[b].(size := s.bufs[b].size + n)))
  }

  /** `ks_socket_close` */
  function PerformClose(s: State, c: Context): Outcome<State>
    requires c in s.ctxs
  {
    if s.ctxs[c].status.Established? then CloseHandle(NotifyAfterClose(s, c), c)
    else if s.ctxs[c].status.Listen? then CloseHandle(s, c)
    else Ok(s)
  }

  /** `ks_socket_send`: a refused write is detached at once, and the handle closed although the status stays. */
  function PerformSend(s: State, c: Context, b: Buffer, spare: WriteReq, ok: bool): Outcome<State>
    requires c in s.ctxs && b in s.bufs
  {
    if !s.ctxs[c].status.Established? then Ok(s)
    else
      var r := PickedReq(s, spare);
      var t := Promise(Attach(s, c, b, spare), r);
      if ok then Ok(t)
      else
        match Detach(t, r)
        case Ok(u) => UvClose(MarkRefused(Settle(u, r), c), c)
        case AssertionFailed => AssertionFailed
        case UvAbort => UvAbort
  }

  /** `ks_write_cb` */
  function PerformWritten(s: State, r: WriteReq): Outcome<State>
    requires r in s.reqs && s.reqs[r].context in s.ctxs && s.reqs[r].buffer in s.bufs
  {
    match Detach(s, r)
    case Ok(t) => Ok(Settle(t, r))
    case AssertionFailed => AssertionFailed
    case UvAbort => UvAbort
  }

  lemma LastIsFree(s: State)
    requires BuffersOk(s.bufs, s.free, s.using, s.reqs) && s.free != []
    ensures s.free[|s.free| - 1] in s.bufs
  {
  }

  lemma InflightKnown(s: State, r: WriteReq)
    requires WritesOk(s.ctxs, s.reqs, s.pool, s.inflight) && r in s.inflight
    ensures r in s.reqs
  {
  }

  lemma EnabledIsResolved(s: State, step: Step)
    requires Inv(s) && Enabled(s, step)
    ensures Resolved(s, step)
  {
    hide ContextsOk, ListsOk, WritesOk, BuffersOk, TableOk;
    match step {
      case Send(c, b, _, _) => UsedBuffer(s, b);
      case Written(r) => InflightKnown(s, r); OldReq(s, r);
      case BufferAcquire(spare) => if s.free != [] { LastIsFree(s); }
      case BufferRef(b) => UsedBuffer(s, b);
      case _ =>
    }
  }

  /**
    The steps that close a handle which is closing already, and so make libuv abort. Their guards ask
    for a status that survived an earlier close, or for a shutdown callback that did.
   */
  predicate ClosesTwice(s: State, step: Step)
    requires Resolved(s, step)
  {
    match step
    case CloseCall(c) => s.ctxs[c].status.Established? && s.ctxs[c].handle.InClose?
    case ShutdownCall(c, ok) => s.ctxs[c].status.Established? && s.ctxs[c].handle.InClose? && !ok
    case Send(c, _, _, ok) => s.ctxs[c].status.Established? && s.ctxs[c].handle.InClose? && !ok
    case ShutdownDone(c) => s.ctxs[c].handle.InClose?
    case _ => false
  }

  /** `CloseHandle` on a context that may be closed: its handle is closing, everything else as before. */
  lemma CloseKeeps(s: State, c: Context, f: Fields)
    requires Inv(s) && c in s.ctxs && s.ctxs[c].handle.Open?
    requires f.sendorder == s.ctxs[c].sendorder && f.active == s.ctxs[c].active && f.uniqid == s.ctxs[c].uniqid
    requires ContextOk(f.(status := Closing, handle := InClose)) && f.handle.Open?
    ensures CloseHandle(Put(s, c, f), c).Ok? && Inv(CloseHandle(Put(s, c, f), c).value)
  {
    hide ContextsOk, ListsOk, WritesOk, BuffersOk, TableOk;
    ContextFact(s, c);
    PutTwice(s, c, f, f.(status := Closing));
    PutTwice(s, c, f.(status := Closing), f.(status := Closing, handle := InClose));
    PutKeeps(s, c, f.(status := Closing, handle := InClose));
  }

  lemma PutSame(s: State, c: Context)
    requires c in s.ctxs
    ensures Put(s, c, s.ctxs[c]) == s
  {
    assert s.ctxs[c := s.ctxs[c]] == s.ctxs;
  }

  /**
    The verdict on one step: no assertion fails, libuv aborts exactly over a second close, and the
    invariant is kept.
   */
  ghost predicate Fine(s: State, step: Step)
    requires Resolved(s, step)
  {
    var o := Perform(s, step);
    !o.AssertionFailed? && (o.UvAbort? <==> ClosesTwice(s, step)) && (o.Ok? ==> Inv(o.value))
  }

  predicate OpensHandle(step: Step) {
    step.InitHandle? || step.Bind? || step.Connect? || step.Accept? || step.Connected? || step.Welcome?
        || step.ReadRefused? || step.ReadEnd?
  }

  lemma ConnectedIsFine(s: State, c: Context, ok: bool, reading: bool)
    requires Inv(s) && c in s.ctxs && ContextOk(s.ctxs[c]) && s.ctxs[c].connecting
    ensures Fine(s, Connected(c, ok, reading))
  {
    hide ContextsOk, ListsOk, WritesOk, BuffersOk, TableOk, Inv;
    var g := s.ctxs[c].(connecting := false);
    PutTwice(s, c, g, g.(status := Established));
    PutTwice(s, c, g, Greet(g.(status := Established)));
    if !ok { CloseKeeps(s, c, g); }
    else if reading { PutKeeps(s, c, Greet(g.(status := Established))); }
    else { CloseKeeps(s, c, g.(status := Established)); }
  }

  lemma SettingUpIsFine(s: State, step: Step)
    requires Inv(s) && Enabled(s, step) && (step.InitHandle? || step.Bind? || step.Connect? || step.Accept?)
    requires Resolved(s, step)
    ensures Fine(s, step)
  {
    hide ContextsOk, ListsOk, WritesOk, BuffersOk, TableOk, Inv;
    var c := step.c;
    assert ContextOk(s.ctxs[c]) by { InvContext(s, c); }
    var f := s.ctxs[c];
    PutSame(s, c);
    match step {
      case InitHandle(_, ok) =>
        if ok { PutKeeps(s, c, f.(status := Initialized, handle := Open)); }
        else { GiveBackKeeps(s, c, f.(handle := Gone)); }
      case Bind(_, ok) => if ok { PutKeeps(s, c, f.(status := Listen)); } else { CloseKeeps(s, c, f); }
      case Connect(_, ok) =>
        if ok { PutKeeps(s, c, f.(status := Connecting, connecting := true)); } else { CloseKeeps(s, c, f); }
      case Accept(_, ok) => if ok { PutKeeps(s, c, f.(status := Established)); } else { CloseKeeps(s, c, f); }
    }
  }

  lemma OpeningIsFine(s: State, step: Step)
    requires Inv(s) && Enabled(s, step) && OpensHandle(step) && Resolved(s, step)
    ensures Fine(s, step)
  {
    hide ContextsOk, ListsOk, WritesOk, BuffersOk, TableOk, Inv;
    var c := step.c;
    assert ContextOk(s.ctxs[c]) by { InvContext(s, c); }
    PutSame(s, c);
    match step {
      case InitHandle(_, _) => SettingUpIsFine(s, step);
      case Bind(_, _) => SettingUpIsFine(s, step);
      case Connect(_, _) => SettingUpIsFine(s, step);
      case Accept(_, _) => SettingUpIsFine(s, step);
      case Connected(_, ok, reading) => ConnectedIsFine(s, c, ok, reading);
      case Welcome(_) => PutKeeps(s, c, Greet(s.ctxs[c]));
      case ReadRefused(_) => CloseKeeps(s, c, s.ctxs[c]);
      case ReadEnd(_) => CloseKeeps(s, c, Farewell(s.ctxs[c]));
    }
  }

  lemma InvContext(s: State, c: Context)
    requires Inv(s) && c in s.ctxs
    ensures ContextOk(s.ctxs[c])
  {
    hide ListsOk, WritesOk, BuffersOk, TableOk;
  }

  lemma CloseCallIsFine(s: State, c: Context)
    requires Inv(s) && c in s.ctxs && ContextOk(s.ctxs[c])
    ensures Fine(s, CloseCall(c))
  {
    hide ContextsOk, ListsOk, WritesOk, BuffersOk, TableOk, Inv;
    var f := s.ctxs[c];
    PutSame(s, c);
    if f.handle.Open? && f.status.Established? { CloseKeeps(s, c, f.(closeNotify := true)); }
    if f.handle.Open? && f.status.Listen? { CloseKeeps(s, c, f); }
  }

  lemma ShutdownCallIsFine(s: State, c: Context, ok: bool)
    requires Inv(s) && Enabled(s, ShutdownCall(c, ok)) && ContextOk(s.ctxs[c])
    ensures Fine(s, ShutdownCall(c, ok))
  {
    hide ContextsOk, ListsOk, WritesOk, BuffersOk, TableOk, Inv;
    var f := s.ctxs[c];
    if f.handle.Open? && f.status.Established? {
      PutKeeps(s, c, f.(status := ShuttingDown, shutting := true));
      CloseKeeps(s, c, f.(closeNotify := true));
    }
  }

  lemma ShutdownDoneIsFine(s: State, c: Context)
    requires Inv(s) && Enabled(s, ShutdownDone(c)) && ContextOk(s.ctxs[c])
    ensures Fine(s, ShutdownDone(c))
  {
    hide ContextsOk, ListsOk, WritesOk, BuffersOk, TableOk, Inv;
    var f := s.ctxs[c];
    if f.handle.Open? { CloseKeeps(s, c, Farewell(f.(shutting := false, status := Shutdown))); }
  }

  lemma UndoList(s: State, ctxs: map<Context, Fields>, r: WriteReq, c: Context, f: Fields)
    requires s.ctxs == ctxs[c := f.(sendorder := [r] + f.sendorder)]
    ensures Unlist(s, r, c) == s.(ctxs := ctxs[c := f])
  {
    assert Remove([r] + f.sendorder, r) == f.sendorder;
    assert s.ctxs[c := f] == ctxs[c := f];
  }

  lemma UndoBuffer(s: State, bufs: map<Buffer, Pooled>, b: Buffer)
    requires b in bufs && bufs[b].refcount >= 1 && s.bufs == bufs[b := bufs[b].(refcount := bufs[b].refcount + 1)]
    ensures BufferDereference(s, b) == s.(bufs := bufs)
  {
    assert s.bufs[b := bufs[b]] == bufs;
  }

  lemma UndoContext(s: State, ctxs: map<Context, Fields>, c: Context)
    requires c in ctxs && ctxs[c].refcount >= 1 && s.ctxs == ctxs[c := ctxs[c].(refcount := ctxs[c].refcount + 1)]
    ensures Dereference(s, c) == Ok(s.(ctxs := ctxs))
  {
    assert s.ctxs[c := ctxs[c]] == ctxs;
  }

  /** A refused write leaves everything as it was; at most the pool has one request more. */
  lemma RefusedFields(s: State, c: Context, b: Buffer, spare: WriteReq)
    requires Inv(s) && c in s.ctxs && s.ctxs[c].refcount >= 1 && b in s.bufs && s.bufs[b].refcount >= 1
    requires s.pool == [] ==> spare !in s.reqs
    ensures var r := PickedReq(s, spare); var t := Promise(Attach(s, c, b, spare), r);
      && r in t.reqs && t.reqs[r] == Claim(c, b) && c in t.ctxs && b in t.bufs && Detach(t, r).Ok?
      && Settle(Detach(t, r).value, r) == s.(pool := if s.pool == [] then [spare] else s.pool)
  {
    hide ContextsOk, ListsOk, WritesOk, BuffersOk, TableOk, Inv;
    var r := PickedReq(s, spare);
    AttachFields(s, c, b, spare);
    var t := Promise(Attach(s, c, b, spare), r);
    assert t.pool + [r] == if s.pool == [] then [spare] else s.pool;
    assert r !in s.reqs && r !in s.inflight by { FreshReq(s, spare); }
    UndoAll(s, t, r, c, b);
  }

  lemma UndoAll(s: State, t: State, r: WriteReq, c: Context, b: Buffer)
    requires c in s.ctxs && s.ctxs[c].refcount >= 1 && b in s.bufs && s.bufs[b].refcount >= 1
    requires r !in s.reqs && r !in s.inflight
    requires var f := s.ctxs[c];
      t == s.(ctxs := s.ctxs[c := f.(refcount := f.refcount + 1, sendorder := [r] + f.sendorder)],
              bufs := s.bufs[b := s.bufs[b].(refcount := s.bufs[b].refcount + 1)],
              reqs := s.reqs[r := Claim(c, b)], pool := t.pool, inflight := s.inflight + {r})
    ensures Detach(t, r).Ok? && Settle(Detach(t, r).value, r) == s.(pool := t.pool + [r])
  {
    var f := s.ctxs[c];
    assert t.reqs - {r} == s.reqs && t.inflight - {r} == s.inflight;
    UndoList(t, s.ctxs, r, c, f.(refcount := f.refcount + 1));
    UndoBuffer(Unlist(t, r, c), s.bufs, b);
    UndoContext(BufferDereference(Unlist(t, r, c), b), s.ctxs, c);
  }

  lemma FreshReq(s: State, spare: WriteReq)
    requires Inv(s) && (s.pool == [] ==> spare !in s.reqs)
    ensures PickedReq(s, spare) !in s.reqs && PickedReq(s, spare) !in s.inflight
  {
    hide ContextsOk, ListsOk, BuffersOk, TableOk;
  }

  lemma SendIsFine(s: State, c: Context, b: Buffer, spare: WriteReq, ok: bool)
    requires Inv(s) && Enabled(s, Send(c, b, spare, ok)) && b in s.bufs
    ensures Fine(s, Send(c, b, spare, ok))
  {
    hide ContextsOk, ListsOk, WritesOk, BuffersOk, TableOk;
    ContextFact(s, c);
    UsedBuffer(s, b);
    if s.ctxs[c].status.Established? {
      AttachKeeps(s, c, b, spare);
      if !ok { RefusalIsFine(s, c, b, spare); }
    }
  }

  lemma SendMeans(s: State, c: Context, b: Buffer, spare: WriteReq, ok: bool)
    requires c in s.ctxs && b in s.bufs
    ensures Perform(s, Send(c, b, spare, ok)) == PerformSend(s, c, b, spare, ok)
  {
    hide PerformSend;
  }

  lemma RefusalIsFine(s: State, c: Context, b: Buffer, spare: WriteReq)
    requires Inv(s) && c in s.ctxs && ContextOk(s.ctxs[c]) && s.ctxs[c].status.Established? && s.ctxs[c].active
    requires b in s.bufs && s.bufs[b].refcount >= 1 && b in s.using && (s.pool == [] ==> spare !in s.reqs)
    ensures Fine(s, Send(c, b, spare, false))
  {
    hide ContextsOk, ListsOk, WritesOk, BuffersOk, TableOk, Inv, Perform, PerformSend;
    SendMeans(s, c, b, spare, false);
    RefusedResult(s, c, b, spare);
    RefusedKeeps(s, c, b, spare);
    if s.ctxs[c].handle.Open? {
      PutKeeps(s.(pool := if s.pool == [] then [spare] else s.pool), c, Refused(s.ctxs[c]));
    }
  }

  /** A context whose handle was closed over a refused write. */
  function Refused(f: Fields): Fields { f.(calls := f.calls.(refused := true), handle := InClose) }

  lemma RefusedResult(s: State, c: Context, b: Buffer, spare: WriteReq)
    requires Inv(s) && c in s.ctxs && s.ctxs[c].status.Established? && s.ctxs[c].refcount >= 1
    requires b in s.bufs && s.bufs[b].refcount >= 1 && (s.pool == [] ==> spare !in s.reqs)
    ensures PerformSend(s, c, b, spare, false)
         == if s.ctxs[c].handle.Open?
            then Ok(Put(s.(pool := if s.pool == [] then [spare] else s.pool), c, Refused(s.ctxs[c])))
            else UvAbort
  {
    hide ContextsOk, ListsOk, WritesOk, BuffersOk, TableOk, Inv, Attach, Detach;
    RefusedFields(s, c, b, spare);
    var u, f := s.(pool := if s.pool == [] then [spare] else s.pool), s.ctxs[c];
    PutTwice(u, c, f.(calls := f.calls.(refused := true)), Refused(f));
  }

  lemma RefusedKeeps(s: State, c: Context, b: Buffer, spare: WriteReq)
    requires Inv(s) && c in s.ctxs && ContextOk(s.ctxs[c]) && s.ctxs[c].status.Established? && s.ctxs[c].active
    requires b in s.bufs && s.bufs[b].refcount >= 1 && b in s.using && (s.pool == [] ==> spare !in s.reqs)
    ensures Inv(s.(pool := if s.pool == [] then [spare] else s.pool))
  {
    hide ContextsOk, ListsOk, WritesOk, BuffersOk, TableOk, Inv;
    RefusedFields(s, c, b, spare);
    AttachKeeps(s, c, b, spare);
    DetachKeeps(Promise(Attach(s, c, b, spare), PickedReq(s, spare)), PickedReq(s, spare));
  }

  lemma FirstIsIn<T>(q: seq<T>)
    requires q != []
    ensures q[0] in q
  {
  }

  /** libuv has called back every write before the close callback comes. */
  lemma NoWritesLeft(s: State, c: Context)
    requires WritesOk(s.ctxs, s.reqs, s.pool, s.inflight) && c in s.ctxs
    requires forall r :: r in s.inflight ==> r in s.reqs && s.reqs[r].context != c
    ensures s.ctxs[c].sendorder == []
  {
    var q := s.ctxs[c].sendorder;
    assert forall r :: r in q ==> r in s.inflight && s.reqs[r].context == c;
    if q != [] { FirstIsIn(q); }
  }

  lemma StepIsFine(s: State, step: Step)
    requires Inv(s) && Enabled(s, step)
    ensures Resolved(s, step) && Fine(s, step)
  {
    hide ContextsOk, ListsOk, WritesOk, BuffersOk, TableOk;
    EnabledIsResolved(s, step);
    if OpensHandle(step) {
      OpeningIsFine(s, step);
    } else if step.CloseCall? {
      InvContext(s, step.c);
      CloseCallIsFine(s, step.c);
    } else if step.ShutdownCall? {
      InvContext(s, step.c);
      ShutdownCallIsFine(s, step.c, step.ok);
    } else if step.ShutdownDone? {
      InvContext(s, step.c);
      ShutdownDoneIsFine(s, step.c);
    } else {
      PoolStepIsFine(s, step);
    }
  }

  lemma PoolStepIsFine(s: State, step: Step)
    requires Inv(s) && Enabled(s, step) && Resolved(s, step)
    requires !OpensHandle(step) && !step.CloseCall? && !step.ShutdownCall? && !step.ShutdownDone?
    ensures Fine(s, step)
  {
    hide ContextsOk, ListsOk, WritesOk, BuffersOk, TableOk;
    match step {
      case Acquire(spare) => ActivateKeeps(s, spare);
      case Send(c, b, spare, ok) => SendIsFine(s, c, b, spare, ok);
      case Written(r) => DetachKeeps(s, r);
      case AfterClose(c) =>
        NoWritesLeft(s, c);
        ContextFact(s, c);
        GiveBackKeeps(s, c, Ended(s.ctxs[c]));
      case UserRef(c) => AddRefKeeps(s, c);
      case UserDeref(c) => DereferenceKeeps(s, c);
      case BufferAcquire(spare) => BufferNewKeeps(s, spare);
      case BufferRef(b) => BufferAddRefKeeps(s, b);
      case BufferDeref(b) => BufferDereferenceKeeps(s, b);
      case BufferWrite(b, n) =>
        BufferFact(s, b);
        PutBufferKeeps(s, b, s.bufs[b].(size := s.bufs[b].size + n));
    }
  }

  lemma BufferFact(s: State, b: Buffer)
    requires BuffersOk(s.bufs, s.free, s.using, s.reqs) && b in s.bufs
    ensures BufferOk(s.bufs[b], b in s.free, Carried(s.reqs, b))
  {
  }
}
