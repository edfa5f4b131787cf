/**
  The socket container over real objects: each method is a C function that updates contexts, buffers
  and write requests in place, and does to `State()` exactly what the function of the same name in
  module Sockets does.

  Objects for which the pools have no room left come from outside: `spare` is what `socket_context_new`,
  `ks_buffer_create` or `calloc` returns, if it is called.
 */
module Containers {
  import opened KsBuffer
  import opened Sockets
  import opened SocketRuns
  import opened SocketRest

  // How the objects of a container look to the model.

  /** `m` gives each of the contexts the fields it has now. */
  ghost predicate Says(m: map<Context, Fields>, cs: set<Context>)
    reads cs
  {
    m.Keys == cs && forall c :: c in cs ==> m[c] == c.Value()
  }

  /** `m` gives each of the buffers its references, its size and its holders. */
  ghost predicate SaysPooled(m: map<Buffer, Pooled>, bs: set<Buffer>)
    reads bs
  {
    m.Keys == bs && forall b :: b in bs ==> m[b] == Pooled(b.refcount, b.usingsize, b.users)
  }

  /** `m` gives each of the requests that is attached to something its context and buffer. */
  ghost predicate SaysClaims(m: map<WriteReq, Claim>, rs: set<WriteReq>)
    reads rs
  {
    && (forall r :: r in m ==> r in rs && r.context != null && r.buffer != null && m[r] == Claim(r.context, r.buffer))
    && (forall r :: r in rs && r.context != null && r.buffer != null ==> r in m)
  }

  lemma {:induction false} SomethingSays(cs: set<Context>)
    ensures exists m :: Says(m, cs)
  {
    if cs == {} {
      assert Says(map[], cs);
    } else {
      var c :| c in cs;
      SomethingSays(cs - {c});
      var m :| Says(m, cs - {c});
      assert Says(m[c := c.Value()], cs);
    }
  }

  lemma {:induction false} SomethingSaysPooled(bs: set<Buffer>)
    ensures exists m :: SaysPooled(m, bs)
  {
    if bs == {} {
      assert SaysPooled(map[], bs);
    } else {
      var b :| b in bs;
      SomethingSaysPooled(bs - {b});
      var m :| SaysPooled(m, bs - {b});
      assert SaysPooled(m[b := Pooled(b.refcount, b.usingsize, b.users)], bs);
    }
  }

  lemma {:induction false} SomethingSaysClaims(rs: set<WriteReq>)
    ensures exists m :: SaysClaims(m, rs)
  {
    if rs == {} {
      assert SaysClaims(map[], rs);
    } else {
      var r :| r in rs;
      SomethingSaysClaims(rs - {r});
      var m :| SaysClaims(m, rs - {r});
      if r.context != null && r.buffer != null {
        assert SaysClaims(m[r := Claim(r.context, r.buffer)], rs);
      } else {
        assert SaysClaims(m, rs);
      }
    }
  }

  class Container {
    var active: seq<Context>
    var inactive: seq<Context>
    var connections: map<nat, Context>
    var uniqidIterators: nat
    var buffers: seq<Buffer>
    var usingBuffers: seq<Buffer>
    var writereqBuffers: seq<WriteReq>
    ghost var contexts: set<Context>     // every object ever handed to the container
    ghost var allBuffers: set<Buffer>
    ghost var requests: set<WriteReq>
    ghost var inflight: set<WriteReq>

    ghost function ContextValues(): map<Context, Fields>
      reads this`contexts, contexts
    {
      SomethingSays(contexts);
      var m :| Says(m, contexts);
      m
    }

    ghost function BufferValues(): map<Buffer, Pooled>
      reads this`allBuffers, allBuffers
    {
      SomethingSaysPooled(allBuffers);
      var m :| SaysPooled(m, allBuffers);
      m
    }

    ghost function Claims(): map<WriteReq, Claim>
      reads this`requests, requests
    {
      SomethingSaysClaims(requests);
      var m :| SaysClaims(m, requests);
      m
    }

    ghost function State(): State
      reads this, contexts, allBuffers, requests
    {
      Sockets.State(ContextValues(), active, inactive, connections, uniqidIterators,
                    BufferValues(), buffers, usingBuffers, Claims(), writereqBuffers, inflight)
    }

    /** The objects on the pool lists are the container's, and its buffers are sound. */
    ghost predicate Valid()
      reads this, contexts, allBuffers, requests
    {
      && (forall c :: c in inactive ==> c in contexts)
      && (forall b :: b in buffers ==> b in allBuffers)
      && (forall r :: r in writereqBuffers ==> r in requests)
      && (forall b :: b in allBuffers ==> b.Valid())
    }

    /** `INIT_KS_SOCKET_CONTAINER` */
    constructor (initSockets: nat, initBuffers: nat, initWritereqs: nat)
      ensures Valid() && Inv(State()) && State() == Init(inactive, buffers, writereqBuffers)
      ensures |inactive| == initSockets && |buffers| == initBuffers && |writereqBuffers| == initWritereqs
      ensures fresh(contexts) && fresh(allBuffers) && fresh(requests)
      ensures initBuffers == 0 ==> allBuffers == {}
      ensures initWritereqs == 0 ==> requests == {}
      ensures forall r :: r in requests ==> r in State().pool
      ensures active == [] && usingBuffers == [] && connections == map[] && uniqidIterators == 1 && inflight == {}
      ensures forall c :: c in contexts ==> c in inactive && c.refcount == 0 && !c.active && c.status.Uninitialize?
      ensures forall b :: b in allBuffers ==> b in buffers && b.refcount == 0 && b.usingsize == 0 && b.users == 0
    {
      hide Inv, Init, ContextValues, BufferValues, Claims;
      active, inactive, connections, uniqidIterators := [], [], map[], 1;
      buffers, usingBuffers, writereqBuffers := [], [], [];
      contexts, allBuffers, requests, inflight := {}, {}, {}, {};
      new;
      AddContexts(initSockets);
      AddBuffers(initBuffers);
      AddWritereqs(initWritereqs);
      InitialState();
    }

    lemma InitialState()
      requires NoDup(inactive) && NoDup(buffers) && NoDup(writereqBuffers)
      requires active == [] && usingBuffers == [] && connections == map[] && uniqidIterators == 1 && inflight == {}
      requires (forall c :: c in inactive <==> c in contexts) && (forall c :: c in contexts ==> c.Value() == ZERO)
      requires forall b :: b in buffers <==> b in allBuffers
      requires forall b :: b in allBuffers ==> b.refcount == b.usingsize == b.users == 0
      requires forall r :: r in requests ==> r.context == null && r.buffer == null
      ensures State() == Init(inactive, buffers, writereqBuffers) && Inv(State())
    {
      hide Inv;
      InitInv(inactive, buffers, writereqBuffers);
      assert ContextValues() == AllTo(inactive, ZERO);
      assert BufferValues() == AllTo(buffers, Pooled(0, 0, 0));
      assert Claims() == map[];
    }

    method AddContexts(n: nat)
      requires inactive == [] && contexts == {}
      modifies this`inactive, this`contexts
      ensures |inactive| == n && NoDup(inactive) && fresh(contexts)
      ensures forall c :: c in inactive <==> c in contexts
      ensures forall c :: c in contexts ==> c.Value() == ZERO
    {
      var i := 0;
      while i < n
        invariant i <= n && |inactive| == i && NoDup(inactive) && fresh(contexts)
        invariant forall c :: c in inactive ==> c in contexts
        invariant forall c :: c in contexts ==> c in inactive
        invariant forall c :: c in contexts ==> c.Value() == ZERO
      {
        var c := new Context();
        inactive := inactive + [c];
        contexts := contexts + {c};
        i := i + 1;
      }
    }

    method AddBuffers(n: nat)
      requires buffers == [] && allBuffers == {}
      modifies this`buffers, this`allBuffers
      ensures |buffers| == n && NoDup(buffers) && fresh(allBuffers)
      ensures forall b :: b in buffers <==> b in allBuffers
      ensures forall b :: b in allBuffers ==> b.Valid() && b.refcount == b.usingsize == b.users == 0
    {
      var i := 0;
      while i < n
        invariant i <= n && |buffers| == i && NoDup(buffers) && fresh(allBuffers)
        invariant forall b :: b in buffers ==> b in allBuffers
        invariant forall b :: b in allBuffers ==> b in buffers
        invariant forall b :: b in allBuffers ==> b.Valid() && b.refcount == b.usingsize == b.users == 0
      {
        var b := new Buffer();
        buffers := [b] + buffers;
        allBuffers := allBuffers + {b};
        i := i + 1;
      }
    }

    method AddWritereqs(n: nat)
      requires writereqBuffers == [] && requests == {}
      modifies this`writereqBuffers, this`requests
      ensures |writereqBuffers| == n && NoDup(writereqBuffers) && fresh(requests)
      ensures forall r :: r in writereqBuffers <==> r in requests
      ensures forall r :: r in requests ==> r.context == null && r.buffer == null
    {
      var i := 0;
      while i < n
        invariant i <= n && |writereqBuffers| == i && NoDup(writereqBuffers) && fresh(requests)
        invariant forall r :: r in writereqBuffers ==> r in requests
        invariant forall r :: r in requests ==> r in writereqBuffers
        invariant forall r :: r in requests ==> r.context == null && r.buffer == null
      {
        var r := new WriteReq();
        writereqBuffers := [r] + writereqBuffers;
        requests := requests + {r};
        i := i + 1;
      }
    }

    /** Only the fields of one context have changed; it may be new to the container. */
    twostate lemma ContextChanged(new c: Context)
      requires contexts == old(contexts) + {c} && allBuffers == old(allBuffers) && requests == old(requests)
      requires forall d :: d in old(contexts) && d != c ==> unchanged(d)
      requires forall b :: b in allBuffers ==> unchanged(b)
      requires forall r :: r in requests ==> unchanged(r)
      ensures ContextValues() == old(ContextValues())[c := c.Value()]
      ensures BufferValues() == old(BufferValues()) && Claims() == old(Claims())
    {
    }

    twostate lemma BufferChanged(new b: Buffer)
      requires contexts == old(contexts) && allBuffers == old(allBuffers) + {b} && requests == old(requests)
      requires forall c :: c in contexts ==> unchanged(c)
      requires forall d :: d in old(allBuffers) && d != b ==> unchanged(d)
      requires forall r :: r in requests ==> unchanged(r)
      ensures BufferValues() == old(BufferValues())[b := Pooled(b.refcount, b.usingsize, b.users)]
      ensures ContextValues() == old(ContextValues()) && Claims() == old(Claims())
    {
    }

    lemma KnownContext(c: Context)
      requires c in contexts
      ensures c in State().ctxs && State().ctxs[c] == c.Value()
    {
      hide BufferValues, Claims;
    }

    lemma KnownBuffer(b: Buffer)
      requires Valid() && b in allBuffers
      ensures b.Valid() && b in State().bufs && State().bufs[b] == Pooled(b.refcount, b.usingsize, b.users)
    {
      hide ContextValues, Claims;
    }

    /** Of everything the container refers to, only the fields of one context have changed. */
    twostate lemma OnlyContext(c: Context)
      requires unchanged(this) && old(Valid()) && c in contexts
      requires forall d :: d in contexts && d != c ==> unchanged(d)
      requires (forall b :: b in allBuffers ==> unchanged(b)) && (forall r :: r in requests ==> unchanged(r))
      ensures Valid() && State() == Put(old(State()), c, c.Value())
      ensures c in old(State()).ctxs && old(State()).ctxs[c] == old(c.Value())
      ensures c in State().ctxs && State().ctxs[c] == c.Value()
    {
      hide BufferValues, Claims;
      ContextChanged(c);
    }

    /** Of everything the container refers to, only the fields of one buffer have changed. */
    twostate lemma OnlyBuffer(b: Buffer)
      requires unchanged(this) && old(Valid()) && b in allBuffers && b.Valid()
      requires forall d :: d in allBuffers && d != b ==> unchanged(d)
      requires (forall c :: c in contexts ==> unchanged(c)) && (forall r :: r in requests ==> unchanged(r))
      ensures Valid() && State() == PutBuffer(old(State()), b, Pooled(b.refcount, b.usingsize, b.users))
      ensures b in old(State()).bufs && old(State()).bufs[b] == old(Pooled(b.refcount, b.usingsize, b.users))
    {
      hide ContextValues, Claims;
      BufferChanged(b);
    }

    twostate predicate SameLists()
      reads this
    {
      active == old(active) && inactive == old(inactive) && connections == old(connections)
    }

    /** One reference to a context with the fields `f` is gone; with the last one the context is put away. */
    twostate predicate LetGo(c: Context, f: Fields)
      reads this, c
    {
      if f.refcount > 1 then c.Value() == f.(refcount := f.refcount - 1) && SameLists()
      else
        && c.Value() == f.(refcount := f.refcount - 1, active := false, status := Uninitialize)
        && active == Remove(old(active), c) && inactive == old(inactive) + [c]
        && connections == old(connections) - {f.uniqid}
    }

    /** One reference to a buffer is gone; with the last one it is emptied and put away. */
    twostate predicate LetGoBuffer(b: Buffer)
      reads this, b
    {
      && b.refcount == old(b.refcount) - 1
      && if b.refcount > 0 then
           b.usingsize == old(b.usingsize) && usingBuffers == old(usingBuffers) && buffers == old(buffers)
         else
           b.usingsize == 0 && usingBuffers == Remove(old(usingBuffers), b) && buffers == old(buffers) + [b]
    }

    /** `ks_socket_refernece(container, NULL)` */
    method Acquire(spare: Context) returns (c: Context)
      requires Valid() && (inactive == [] ==> spare !in contexts)
      modifies this`active, this`inactive, this`connections, this`uniqidIterators, this`contexts, contexts, spare
      ensures Valid() && State() == Sockets.Activate(old(State()), c)
      ensures c == Picked(old(State()), spare) == Picked(old(State()), c) && contexts == old(contexts) + {c}
      ensures c == if old(inactive) == [] then spare else old(inactive)[0]
      ensures inactive == if old(inactive) == [] then [] else old(inactive)[1..]
      ensures uniqidIterators == old(uniqidIterators) + 1 && active == old(active) + [c]
      ensures connections == old(connections)[uniqidIterators := c]
      ensures c.Value() == Fields(Uninitialize, 1, true, uniqidIterators, false, [], Raw, false, false, 0, SILENT)
    {
      hide ContextValues, BufferValues, Claims, Context.Value, Buffer.Valid;
      if inactive == [] {
        c := spare;
      } else {
        c := inactive[0];
        inactive := inactive[1..];
      }
      c.Start(uniqidIterators + 1);
      uniqidIterators := uniqidIterators + 1;
      active := active + [c];
      connections := connections[uniqidIterators := c];
      contexts := contexts + {c};
      ContextChanged(c);
    }

    /** `ks_socket_refernece(container, context)` */
    method AddRef(c: Context)
      requires Valid() && c in contexts
      modifies c
      ensures Valid() && State() == Sockets.AddRef(old(State()), c)
      ensures c.Value() == old(c.Value()).(refcount := old(c.Value()).refcount + 1)
    {
      hide BufferValues, Claims, State, Container.Valid, ContextValues;
      c.refcount := c.refcount + 1;
      OnlyContext(c);
    }

    /** `ks_socket_derefernece`; its two assertions hold whenever the model's do. */
    method Dereference(c: Context)
      requires Valid() && c in contexts && Sockets.Dereference(State(), c).Ok?
      modifies this`active, this`inactive, this`connections, c
      ensures Valid() && Ok(State()) == Sockets.Dereference(old(State()), c)
      ensures LetGo(c, old(c.Value()))
    {
      hide Remove, ContextValues, BufferValues, Claims, Context.Value, State, Container.Valid;
      KnownContext(c);
      var refcount := DropRef(c);
      if refcount <= 0 {
        PutTwice(old(State()), c, c.Value(), c.Value().(active := false, status := Uninitialize));
        Recycle(c);
      }
    }

    /** `__sync_sub_and_fetch` on the count. */
    method DropRef(c: Context) returns (refcount: int)
      requires Valid() && c in contexts
      modifies c`refcount
      ensures Valid() && refcount == c.Value().refcount
      ensures c.Value() == old(c.Value()).(refcount := old(c.Value()).refcount - 1)
      ensures State() == Put(old(State()), c, c.Value())
    {
      hide State, Container.Valid, ContextValues, BufferValues, Claims;
      c.refcount := c.refcount - 1;
      refcount := c.refcount;
      OnlyContext(c);
    }

    /** The tail of `ks_socket_derefernece`. */
    method Recycle(c: Context)
      requires Valid() && c in contexts
      modifies this`active, this`inactive, this`connections, c
      ensures Valid() && State() == Sockets.Recycle(old(State()), c, old(c.Value()))
      ensures c.Value() == old(c.Value()).(active := false, status := Uninitialize)
      ensures active == Remove(old(active), c) && inactive == old(inactive) + [c]
      ensures connections == old(connections) - {old(c.Value()).uniqid}
    {
      hide Remove, ContextValues, BufferValues, Claims;
      c.Retire();
      OnlyContext(c);
      connections := connections - {c.uniqid};
      active := Remove(active, c);
      inactive := inactive + [c];
    }

    /** `ks_socket_buffer_refernece(container, NULL)` */
    method BufferAcquire(spare: Buffer) returns (b: Buffer)
      requires Valid() && (buffers == [] ==> spare !in allBuffers && Pristine(spare))
      modifies this`buffers, this`usingBuffers, this`allBuffers, allBuffers, if buffers == [] then {spare} else {}
      ensures Valid() && State() == Sockets.BufferNew(old(State()), b)
      ensures b == PickedBuffer(old(State()), spare) == PickedBuffer(old(State()), b)
      ensures allBuffers == old(allBuffers) + {b} && b in usingBuffers
      ensures b == if old(buffers) == [] then spare else old(buffers)[|old(buffers)| - 1]
      ensures buffers == if old(buffers) == [] then [] else old(buffers)[..|old(buffers)| - 1]
      ensures usingBuffers == old(usingBuffers) + [b]
    {
      b := TakeBuffer(spare);
      BufferAddRef(b);
    }

    method TakeBuffer(spare: Buffer) returns (b: Buffer)
      requires Valid() && (buffers == [] ==> spare !in allBuffers && Pristine(spare))
      modifies this`buffers, this`usingBuffers, this`allBuffers
      ensures Valid() && State() == Sockets.TakeBuffer(old(State()), b)
      ensures b == PickedBuffer(old(State()), spare) == PickedBuffer(old(State()), b)
      ensures allBuffers == old(allBuffers) + {b} && b in usingBuffers
      ensures b == if old(buffers) == [] then spare else old(buffers)[|old(buffers)| - 1]
      ensures buffers == if old(buffers) == [] then [] else old(buffers)[..|old(buffers)| - 1]
      ensures usingBuffers == old(usingBuffers) + [b]
    {
      hide ContextValues, Claims;
      if buffers == [] {
        b := spare;
      } else {
        b := buffers[|buffers| - 1];
        buffers := buffers[..|buffers| - 1];
      }
      usingBuffers := usingBuffers + [b];
      allBuffers := allBuffers + {b};
      BufferChanged(b);
      assert old(buffers) != [] ==> BufferValues() == old(BufferValues());
    }

    /** `ks_socket_buffer_refernece(container, buffer)` */
    method BufferAddRef(b: Buffer)
      requires Valid() && b in allBuffers
      modifies b
      ensures Valid() && State() == Sockets.BufferAddRef(old(State()), b)
      ensures b.refcount == old(b.refcount) + 1 && b.users == old(b.users)
      ensures b.usingsize == if old(b.refcount) == 0 then 0 else old(b.usingsize)
    {
      hide ContextValues, Claims, State, Container.Valid, BufferValues;
      KnownBuffer(b);
      var _ := b.AddRef();
      OnlyBuffer(b);
    }

    method BufferDereference(b: Buffer)
      requires Valid() && b in allBuffers
      modifies this`buffers, this`usingBuffers, b
      ensures Valid() && State() == Sockets.BufferDereference(old(State()), b)
      ensures LetGoBuffer(b) && b.users == old(b.users)
    {
      hide Remove, ContextValues, Claims;
      var last := DropBufferRef(b);
      if last {
        PutBufferTwice(old(State()), b, Pooled(b.refcount, b.usingsize, b.users), Pooled(b.refcount, 0, b.users));
        FreeBuffer(b);
      }
    }

    method DropBufferRef(b: Buffer) returns (last: bool)
      requires Valid() && b in allBuffers
      modifies b`refcount
      ensures Valid() && b.refcount == old(b.refcount) - 1 && last == (b.refcount <= 0)
      ensures State() == PutBuffer(old(State()), b, Pooled(b.refcount, b.usingsize, b.users))
    {
      hide ContextValues, Claims, State, Container.Valid, BufferValues;
      KnownBuffer(b);
      last := b.DecRef();
      OnlyBuffer(b);
    }

    /** The last reference to a buffer is gone. */
    method FreeBuffer(b: Buffer)
      requires Valid() && b in allBuffers
      modifies this`buffers, this`usingBuffers, b
      ensures Valid()
      ensures State() == PutBuffer(old(State()), b, Pooled(old(b.refcount), 0, old(b.users)))
                         .(using := Remove(old(usingBuffers), b), free := old(buffers) + [b])
      ensures b.usingsize == 0 && b.refcount == old(b.refcount) && b.users == old(b.users)
      ensures usingBuffers == Remove(old(usingBuffers), b) && buffers == old(buffers) + [b]
    {
      hide Remove, ContextValues, BufferValues, Claims;
      usingBuffers := Remove(usingBuffers, b);
      b.Reset();
      buffers := buffers + [b];
      BufferChanged(b);
    }

    /** Only the fields of one write request have changed. */
    twostate lemma ReqChanged(new r: WriteReq)
      requires contexts == old(contexts) && allBuffers == old(allBuffers) && requests == old(requests) + {r}
      requires forall c :: c in contexts ==> unchanged(c)
      requires forall b :: b in allBuffers ==> unchanged(b)
      requires forall q :: q in old(requests) && q != r ==> unchanged(q)
      ensures Claims() == if r.context != null && r.buffer != null then old(Claims())[r := Claim(r.context, r.buffer)]
                          else old(Claims()) - {r}
      ensures ContextValues() == old(ContextValues()) && BufferValues() == old(BufferValues())
    {
    }

    method TakeReq(spare: WriteReq) returns (r: WriteReq)
      requires Valid() && (writereqBuffers == [] ==> spare !in requests && spare.context == null)
      modifies this`writereqBuffers, this`requests
      ensures Valid() && State() == Sockets.TakeReq(old(State()))
      ensures r == PickedReq(old(State()), spare) == PickedReq(old(State()), r) && requests == old(requests) + {r}
      ensures r == if old(writereqBuffers) == [] then spare else old(writereqBuffers)[|old(writereqBuffers)| - 1]
      ensures writereqBuffers
           == if old(writereqBuffers) == [] then [] else old(writereqBuffers)[..|old(writereqBuffers)| - 1]
    {
      hide ContextValues, BufferValues;
      if writereqBuffers == [] {
        r := spare;
      } else {
        r := writereqBuffers[|writereqBuffers| - 1];
        writereqBuffers := writereqBuffers[..|writereqBuffers| - 1];
      }
      requests := requests + {r};
      ReqChanged(r);
      assert Claims() == old(Claims());
    }

    method Enlist(r: WriteReq, c: Context, b: Buffer)
      requires Valid() && r in requests && c in contexts
      modifies c, r
      ensures Valid() && State() == Sockets.Enlist(old(State()), r, c, b)
      ensures r.context == c && r.buffer == b
      ensures c.Value() == old(c.Value()).(sendorder := [r] + old(c.Value()).sendorder)
    {
      hide ContextValues, BufferValues, Claims;
      c.sendorder := [r] + c.sendorder;
      OnlyContext(c);
      label listed:
      r.context := c;
      r.buffer := b;
      ReqChanged@listed(r);
    }

    /** The request refers to context and buffer, and each has one reference more. */
    twostate predicate Attached(r: WriteReq, c: Context, b: Buffer)
      reads r, c, b
    {
      && r.context == c && r.buffer == b
      && c.Value()
         == old(c.Value()).(refcount := old(c.Value()).refcount + 1, sendorder := [r] + old(c.Value()).sendorder)
      && b.refcount == old(b.refcount) + 1 && b.users == old(b.users)
      && b.usingsize == if old(b.refcount) == 0 then 0 else old(b.usingsize)
    }

    /** `ks_socket_send` up to its call of `uv_write`. */
    method Attach(c: Context, b: Buffer, spare: WriteReq) returns (r: WriteReq)
      requires Valid() && c in contexts && b in allBuffers
      requires writereqBuffers == [] ==> spare !in requests && spare.context == null
      modifies this`writereqBuffers, this`requests, c, b, requests, if writereqBuffers == [] then {spare} else {}
      ensures Valid() && State() == Sockets.Attach(old(State()), c, b, r)
      ensures r == PickedReq(old(State()), spare) == PickedReq(old(State()), r) && requests == old(requests) + {r}
      ensures r == if old(writereqBuffers) == [] then spare else old(writereqBuffers)[|old(writereqBuffers)| - 1]
      ensures writereqBuffers
           == if old(writereqBuffers) == [] then [] else old(writereqBuffers)[..|old(writereqBuffers)| - 1]
      ensures Attached(r, c, b)
    {
      hide Sockets.TakeReq, Sockets.AddRef, Sockets.BufferAddRef, Sockets.Enlist, BufferValues, Claims, ContextValues;
      r := TakeReq(spare);
      AddRef(c);
      BufferAddRef(b);
      Enlist(r, c, b);
    }

    method Unlist(r: WriteReq, c: Context)
      requires Valid() && c in contexts
      modifies c
      ensures Valid() && State() == Sockets.Unlist(old(State()), r, c)
      ensures c.Value() == old(c.Value()).(sendorder := Remove(old(c.Value()).sendorder, r))
    {
      hide Remove, BufferValues, Claims, State, Container.Valid, ContextValues;
      c.sendorder := Remove(c.sendorder, r);
      OnlyContext(c);
    }

    method ReturnReq(r: WriteReq)
      requires Valid() && r in requests
      modifies this`writereqBuffers, r
      ensures Valid() && State() == old(State()).(reqs := old(State()).reqs - {r}, pool := old(State()).pool + [r])
      ensures r.context == null && r.buffer == null && writereqBuffers == old(writereqBuffers) + [r]
    {
      hide ContextValues, BufferValues, Claims;
      r.buffer := null;
      r.context := null;
      writereqBuffers := writereqBuffers + [r];
      ReqChanged(r);
    }

    /** `ks_write_cb` after its notification, and `ks_socket_send` after a refused `uv_write`. */
    method Detach(r: WriteReq, c: Context, b: Buffer)
      requires Valid() && r in requests && c in contexts && b in allBuffers
      requires r in State().reqs && State().reqs[r] == Claim(c, b) && Sockets.Detach(State(), r).Ok?
      modifies this`active, this`inactive, this`connections, this`buffers, this`usingBuffers, this`writereqBuffers
      modifies c, b, r
      ensures Valid() && Ok(State()) == Sockets.Detach(old(State()), r)
      ensures LetGo(c, old(c.Value()).(sendorder := Remove(old(c.Value()).sendorder, r)))
      ensures LetGoBuffer(b) && b.users == old(b.users)
      ensures r.context == null && r.buffer == null && writereqBuffers == old(writereqBuffers) + [r]
    {
      hide Sockets.Dereference, Sockets.BufferDereference, Sockets.Unlist, ContextValues, BufferValues, Claims;
      Unlist(r, c);
      BufferDereference(b);
      Dereference(c);
      ReturnReq(r);
    }

    // -------------------------------------------------------------------------------------------
    // The calls from outside and the libuv callbacks

    /** `uv_close`: the handle must be open, libuv would abort otherwise. */
    ghost method UvClose(c: Context)
      requires Valid() && c in contexts && c.held.handle.Open?
      modifies c`held
      ensures Valid() && Ok(State()) == Sockets.UvClose(old(State()), c)
      ensures c.Value() == old(c.Value()).(handle := InClose)
    {
      hide State, Container.Valid, ContextValues, BufferValues, Claims;
      c.held := c.held.(handle := InClose);
      OnlyContext(c);
    }

    ghost method NoteRefusal(c: Context)
      requires Valid() && c in contexts
      modifies c`held
      ensures Valid() && State() == MarkRefused(old(State()), c)
      ensures c.Value() == old(c.Value()).(calls := old(c.Value()).calls.(refused := true))
    {
      hide State, Container.Valid, ContextValues, BufferValues, Claims;
      c.held := c.held.(calls := c.held.calls.(refused := true));
      OnlyContext(c);
    }

    method CloseHandle(c: Context)
      requires Valid() && c in contexts && c.held.handle.Open?
      modifies c
      ensures Valid() && Ok(State()) == Sockets.CloseHandle(old(State()), c)
      ensures c.Value() == old(c.Value()).(status := Closing, handle := InClose)
    {
      hide State, Container.Valid, ContextValues, BufferValues, Claims;
      c.status := Closing;
      OnlyContext(c);
      UvClose(c);
    }

    method SetStatus(c: Context, status: Status)
      requires Valid() && c in contexts
      modifies c`status
      ensures Valid() && c.status == status
      ensures c in old(State()).ctxs && State() == Sockets.SetStatus(old(State()), c, status)
      ensures c.Value() == old(c.Value()).(status := status)
    {
      hide BufferValues, Claims, State, Container.Valid, ContextValues;
      c.status := status;
      OnlyContext(c);
    }

    /** The handle of a new context is initialised. */
    method OpenHandle(c: Context)
      requires Valid() && c in contexts
      modifies c`status, c`held
      ensures Valid() && c.status.Initialized?
      ensures State() == Put(old(State()), c, old(c.Value()).(status := Initialized, handle := Open))
      ensures c.Value() == old(c.Value()).(status := Initialized, handle := Open)
    {
      hide BufferValues, Claims, State, Container.Valid, ContextValues;
      c.status := Initialized;
      c.held := c.held.(handle := Open);
      OnlyContext(c);
    }

    /** `uv_tcp_init` or `uv_pipe_init` of a new context; `ok` is what it answers. */
    method InitHandle(c: Context, ok: bool)
      requires Valid() && Inv(State()) && c in contexts && c.held.handle.Raw?
      modifies this`active, this`inactive, this`connections, c
      ensures Enabled(old(State()), Step.InitHandle(c, ok)) && Resolved(old(State()), Step.InitHandle(c, ok))
      ensures Valid() && Inv(State()) && Ok(State()) == Perform(old(State()), Step.InitHandle(c, ok))
      ensures ok ==> c.status.Initialized?
      ensures ok ==> c.Value() == old(c.Value()).(status := Initialized, handle := Open) && SameLists()
      ensures !ok ==> LetGo(c, old(c.Value()).(handle := Gone))
    {
      hide Inv, Sockets.Dereference, BufferValues, Claims, Perform, State, Container.Valid, ContextValues;
      KnownContext(c);
      StepIsFine(State(), Step.InitHandle(c, ok));
      InitHandleMeans(State(), c, ok);
      if ok {
        OpenHandle(c);
      } else {
        NoteNoHandle(c);
        Dereference(c);
      }
    }

    ghost method NoteNoHandle(c: Context)
      requires Valid() && c in contexts
      modifies c`held
      ensures Valid() && State() == Put(old(State()), c, old(c.Value()).(handle := Gone))
      ensures c.Value() == old(c.Value()).(handle := Gone)
    {
      hide BufferValues, Claims, State, Container.Valid, ContextValues;
      c.held := c.held.(handle := Gone);
      OnlyContext(c);
    }

    /** `uv_accept` into an initialised context. */
    method Accept(c: Context, ok: bool)
      requires Valid() && Inv(State()) && c in contexts && c.status.Initialized?
      modifies c
      ensures Enabled(old(State()), Step.Accept(c, ok)) && Resolved(old(State()), Step.Accept(c, ok))
      ensures Valid() && Inv(State()) && Ok(State()) == Perform(old(State()), Step.Accept(c, ok))
      ensures ok ==> c.status.Established? && c.held.handle.Open? && !c.held.calls.greeted
      ensures c.Value() == if ok then old(c.Value()).(status := Established)
                           else old(c.Value()).(status := Closing, handle := InClose)
    {
      hide Inv, Sockets.CloseHandle, Sockets.SetStatus, BufferValues, Claims, Perform;
      InvContext(State(), c);
      StepIsFine(State(), Step.Accept(c, ok));
      AcceptMeans(State(), c, ok);
      if ok {
        SetStatus(c, Established);
      } else {
        CloseHandle(c);
      }
    }

    /** `uv_tcp_connect` or `uv_pipe_connect` of an initialised context. */
    method StartConnect(c: Context, ok: bool)
      requires Valid() && Inv(State()) && c in contexts && c.status.Initialized?
      modifies c
      ensures Enabled(old(State()), Step.Connect(c, ok)) && Resolved(old(State()), Step.Connect(c, ok))
      ensures Valid() && Inv(State()) && Ok(State()) == Perform(old(State()), Step.Connect(c, ok))
      ensures ok ==> c.status.Connecting? && c.held.connecting
      ensures c.Value() == if ok then old(c.Value()).(status := Connecting, connecting := true)
                           else old(c.Value()).(status := Closing, handle := InClose)
    {
      hide Inv, Sockets.CloseHandle, BufferValues, Claims, State, Container.Valid, ContextValues;
      KnownContext(c);
      InvContext(State(), c);
      StepIsFine(State(), Step.Connect(c, ok));
      if ok {
        c.status := Connecting;
        c.held := c.held.(connecting := true);
        OnlyContext(c);
      } else {
        CloseHandle(c);
      }
    }

    /** `uv_read_start` on an accepted connection, and `connected` if that goes well. */
    method StartReading(c: Context, ok: bool)
      requires Valid() && Inv(State()) && c in contexts
      requires c.status.Established? && c.held.handle.Open? && !c.held.calls.greeted
      modifies c
      ensures Valid() && Inv(State())
      ensures Ok(State()) == Perform(old(State()), if ok then Welcome(c) else ReadRefused(c))
      ensures ok ==> c.status.Established? && c.held.handle.Open?
      ensures c.Value() == if ok then old(c.Value()).(calls := old(c.Value()).calls.(greeted := true))
                           else old(c.Value()).(status := Closing, handle := InClose)
    {
      hide Inv, Sockets.CloseHandle, BufferValues, Claims;
      StepIsFine(State(), if ok then Welcome(c) else ReadRefused(c));
      if ok {
        NoteWelcome(c);
      } else {
        CloseHandle(c);
      }
    }

    /** `ks_connected_cb`; `reading` is what `uv_read_start` answers. */
    method ConnectedCallback(c: Context, ok: bool, reading: bool)
      requires Valid() && Inv(State()) && c in contexts && c.held.connecting
      modifies c
      ensures Valid() && Inv(State()) && Ok(State()) == Perform(old(State()), Connected(c, ok, reading))
      ensures var f := old(c.Value()).(connecting := false);
        c.Value() == if ok && reading then f.(status := Established, calls := f.calls.(greeted := true))
                     else f.(status := Closing, handle := InClose)
      ensures !old(c.held.calls.greeted) ==> (c.held.calls.greeted <==> ok && reading)
    {
      hide Inv, Sockets.CloseHandle, BufferValues, Claims, Perform;
      InvContext(State(), c);
      StepIsFine(State(), Connected(c, ok, reading));
      ConnectedMeans(State(), c, ok, reading);
      Answered(c, ok);
      if ok && reading {
        NoteWelcome(c);
      } else {
        CloseHandle(c);
      }
    }

    /** libuv has answered a connect. */
    method Answered(c: Context, ok: bool)
      requires Valid() && c in contexts
      modifies c
      ensures Valid() && c.held.handle == old(c.held.handle)
      ensures var f := old(c.Value()).(connecting := false);
        State() == Put(old(State()), c, if ok then f.(status := Established) else f)
      ensures c.Value() == if ok then old(c.Value()).(connecting := false, status := Established)
                           else old(c.Value()).(connecting := false)
    {
      hide BufferValues, Claims, State, Container.Valid, ContextValues;
      c.held := c.held.(connecting := false);
      if ok {
        c.status := Established;
      }
      OnlyContext(c);
    }

    ghost method NoteWelcome(c: Context)
      requires Valid() && c in contexts
      modifies c`held
      ensures Valid() && c.held.handle == old(c.held.handle)
      ensures c in old(State()).ctxs && State() == Put(old(State()), c, Greet(old(State()).ctxs[c]))
      ensures c.Value() == old(c.Value()).(calls := old(c.Value()).calls.(greeted := true))
    {
      hide BufferValues, Claims, State, Container.Valid, ContextValues;
      c.SayWelcome();
      OnlyContext(c);
    }

    /** `ks_socket_close` */
    method Close(c: Context) returns (err: int)
      requires Valid() && Inv(State()) && c in contexts && !ClosesTwice(State(), CloseCall(c))
      modifies c
      ensures Valid() && Inv(State()) && Ok(State()) == Perform(old(State()), CloseCall(c))
      ensures err == 0 <==> old(c.status).Established? || old(c.status).Listen?
      ensures err != 0 ==> State() == old(State())
      ensures old(c.status).Established? ==>
        c.Value() == old(c.Value()).(status := Closing, handle := InClose, closeNotify := true)
      ensures old(c.status).Listen? ==> c.Value() == old(c.Value()).(status := Closing, handle := InClose)
      ensures !old(c.status).Established? && !old(c.status).Listen? ==> c.Value() == old(c.Value())
    {
      hide Inv, Sockets.CloseHandle;
      InvContext(State(), c);
      StepIsFine(State(), CloseCall(c));
      err := 1;
      if c.status.Established? {
        NotifyLater(c);
        CloseHandle(c);
        err := 0;
      } else if c.status.Listen? {
        CloseHandle(c);
        err := 0;
      }
    }

    /** `ks_socket_shutdown`; `ok` is what `uv_shutdown` answers. */
    method Shutdown(c: Context, ok: bool) returns (err: int)
      requires Valid() && Inv(State()) && c in contexts
      requires Enabled(State(), ShutdownCall(c, ok)) && !ClosesTwice(State(), ShutdownCall(c, ok))
      modifies c
      ensures Valid() && Inv(State()) && Ok(State()) == Perform(old(State()), ShutdownCall(c, ok))
      ensures err == 0 <==> old(c.status).Established? && ok
      ensures old(c.status).Established? && ok ==>
                c.Value() == old(c.Value()).(status := ShuttingDown, shutting := true)
      ensures old(c.status).Established? && !ok ==>
                c.Value() == old(c.Value()).(status := Closing, handle := InClose, closeNotify := true)
      ensures !old(c.status).Established? ==> c.Value() == old(c.Value())
    {
      hide Inv, Sockets.CloseHandle, BufferValues, Claims, Perform;
      InvContext(State(), c);
      StepIsFine(State(), ShutdownCall(c, ok));
      ShutdownMeans(State(), c, ok);
      err := 1;
      if c.status.Established? {
        if ok {
          BeginShutdown(c);
          err := 0;
        } else {
          NotifyLater(c);
          CloseHandle(c);
        }
      }
    }

    method BeginShutdown(c: Context)
      requires Valid() && c in contexts
      modifies c`status, c`held
      ensures Valid()
      ensures State() == Put(old(State()), c, old(c.Value()).(status := ShuttingDown, shutting := true))
      ensures c.Value() == old(c.Value()).(status := ShuttingDown, shutting := true)
    {
      hide BufferValues, Claims, State, Container.Valid, ContextValues;
      c.status := ShuttingDown;
      c.held := c.held.(shutting := true);
      OnlyContext(c);
    }

    method NotifyLater(c: Context)
      requires Valid() && c in contexts
      modifies c`closeNotify
      ensures Valid() && State() == Put(old(State()), c, old(c.Value()).(closeNotify := true))
      ensures c.Value() == old(c.Value()).(closeNotify := true)
    {
      hide BufferValues, Claims, State, Container.Valid, ContextValues;
      c.closeNotify := true;
      OnlyContext(c);
    }

    /**
      `ks_socket_connection_cb`: a new connection is a run of steps of its new context, one after the
      other for as long as libuv answers well. `full` is the comparison with `max_connections`.
     */
    method ConnectionCallback(spare: Context, initOk: bool, acceptOk: bool, full: bool, shutdownOk: bool, readOk: bool)
        returns (c: Context)
      requires Valid() && Inv(State()) && uniqidIterators + 1 < ID_LIMIT && (inactive == [] ==> spare !in contexts)
      modifies this`active, this`inactive, this`connections, this`uniqidIterators, this`contexts, contexts, spare
      ensures Valid() && Inv(State()) && contexts == old(contexts) + {c} && (c in old(contexts) || c == spare)
      ensures Execution(old(State()), AcceptSteps(c, initOk, acceptOk, full, shutdownOk, readOk))
      ensures After(old(State()), AcceptSteps(c, initOk, acceptOk, full, shutdownOk, readOk)) == Ok(State())
      ensures initOk && acceptOk && !full && readOk ==> c.status.Established? && c.held.handle.Open?
      ensures uniqidIterators == old(uniqidIterators) + 1
      ensures !initOk ==> c.Value() == Started(uniqidIterators).(refcount := 0, active := false, handle := Gone)
      ensures initOk && !acceptOk ==> c.Value() == Started(uniqidIterators).(status := Closing, handle := InClose)
      ensures initOk && acceptOk && full && shutdownOk ==>
                c.Value() == Started(uniqidIterators).(status := ShuttingDown, handle := Open, shutting := true)
      ensures initOk && acceptOk && full && !shutdownOk ==>
                c.Value() == Started(uniqidIterators).(status := Closing, handle := InClose, closeNotify := true)
      ensures initOk && acceptOk && !full && readOk ==>
                c.Value()
                == Started(uniqidIterators).(status := Established, handle := Open, calls := Calls(true, 0, false))
      ensures initOk && acceptOk && !full && !readOk ==>
                c.Value() == Started(uniqidIterators).(status := Closing, handle := InClose)
      ensures c.held.calls.greeted <==> initOk && acceptOk && !full && readOk
    {
      hide Inv, Perform, Execution, After, Enabled, Resolved, Admission, State, Container.Valid;
      ghost var s := State();
      c := Activated(spare);
      ghost var t := State();
      InitHandle(c, initOk);
      OneMoreStep(s, [Step.Acquire(c)], t, Step.InitHandle(c, initOk));
      if initOk {
        ghost var steps := [Step.Acquire(c), Step.InitHandle(c, true)];
        assert steps == [Step.Acquire(c)] + [Step.InitHandle(c, true)];
        t := State();
        Accept(c, acceptOk);
        OneMoreStep(s, steps, t, Step.Accept(c, acceptOk));
        if acceptOk {
          t := State();
          Admit(c, full, shutdownOk, readOk);
          OneMoreStep(s, steps + [Step.Accept(c, true)], t, Admission(c, full, shutdownOk, readOk));
        }
      }
    }

    /**
      `ks_socket_connect_ipv4` and its two siblings once the address is parsed: the caller gets a
      connecting context, or an error.
     */
    method Connect(spare: Context, initOk: bool, connectOk: bool)
        returns (err: bool, result: Context?, ghost c: Context)
      requires Valid() && Inv(State()) && uniqidIterators + 1 < ID_LIMIT && (inactive == [] ==> spare !in contexts)
      modifies this`active, this`inactive, this`connections, this`uniqidIterators, this`contexts, contexts, spare
      ensures Valid() && Inv(State())
      ensures err == !(initOk && connectOk) && result == if err then null else c
      ensures !err ==> c.status.Connecting? && c.held.connecting
      ensures Execution(old(State()), ConnectSteps(c, initOk, connectOk))
      ensures After(old(State()), ConnectSteps(c, initOk, connectOk)) == Ok(State())
      ensures uniqidIterators == old(uniqidIterators) + 1
      ensures !initOk ==> c.Value() == Started(uniqidIterators).(refcount := 0, active := false, handle := Gone)
      ensures initOk && connectOk ==>
                c.Value() == Started(uniqidIterators).(status := Connecting, handle := Open, connecting := true)
      ensures initOk && !connectOk ==> c.Value() == Started(uniqidIterators).(status := Closing, handle := InClose)
    {
      hide Inv, Perform, Execution, After, Enabled, Resolved, State, Container.Valid;
      ghost var s := State();
      var context := Activated(spare);
      c := context;
      ghost var t := State();
      InitHandle(context, initOk);
      OneMoreStep(s, [Step.Acquire(c)], t, Step.InitHandle(c, initOk));
      err, result := true, null;
      if initOk {
        ghost var steps := [Step.Acquire(c), Step.InitHandle(c, true)];
        assert steps == [Step.Acquire(c)] + [Step.InitHandle(c, true)];
        t := State();
        StartConnect(context, connectOk);
        OneMoreStep(s, steps, t, Step.Connect(c, connectOk));
        if connectOk {
          err, result := false, context;
        }
      }
    }

    /** The connection is accepted: if the container is full it is shut down, otherwise it is read. */
    method Admit(c: Context, full: bool, shutdownOk: bool, readOk: bool)
      requires Valid() && Inv(State()) && c in contexts
      requires c.status.Established? && c.held.handle.Open? && !c.held.calls.greeted
      modifies c
      ensures Valid() && Inv(State())
      ensures Enabled(old(State()), Admission(c, full, shutdownOk, readOk))
      ensures Resolved(old(State()), Admission(c, full, shutdownOk, readOk))
      ensures Ok(State()) == Perform(old(State()), Admission(c, full, shutdownOk, readOk))
      ensures !full && readOk ==> c.status.Established? && c.held.handle.Open?
      ensures c.Value() == if full && shutdownOk then old(c.Value()).(status := ShuttingDown, shutting := true)
        else if full then old(c.Value()).(status := Closing, handle := InClose, closeNotify := true)
        else if readOk then old(c.Value()).(calls := old(c.Value()).calls.(greeted := true))
        else old(c.Value()).(status := Closing, handle := InClose)
    {
      hide Inv, Perform, BufferValues, Claims;
      Readable(State(), c, readOk);
      if full {
        var _ := Shutdown(c, shutdownOk);
      } else {
        StartReading(c, readOk);
      }
    }

    /** `Acquire` as a step of a run. */
    method Activated(spare: Context) returns (c: Context)
      requires Valid() && Inv(State()) && uniqidIterators + 1 < ID_LIMIT && (inactive == [] ==> spare !in contexts)
      modifies this`active, this`inactive, this`connections, this`uniqidIterators, this`contexts, contexts, spare
      ensures Valid() && Inv(State()) && contexts == old(contexts) + {c} && (c in old(contexts) || c == spare)
      ensures c.held.handle.Raw? && Ok(State()) == Perform(old(State()), Step.Acquire(spare))
      ensures Execution(old(State()), [Step.Acquire(c)]) && After(old(State()), [Step.Acquire(c)]) == Ok(State())
      ensures c.Value() == Started(uniqidIterators) && uniqidIterators == old(uniqidIterators) + 1
      ensures c == if old(inactive) == [] then spare else old(inactive)[0]
    {
      hide Inv, BufferValues, Claims;
      ghost var s := State();
      c := Acquire(spare);
      StepIsFine(s, Step.Acquire(c));
      FirstOf(s, Step.Acquire(c));
      assert c.Value() == State().ctxs[c];
    }

    /** `ks_shutdown_cb` */
    method ShutdownCallback(c: Context)
      requires Valid() && Inv(State()) && c in contexts
      requires Enabled(State(), ShutdownDone(c)) && !ClosesTwice(State(), ShutdownDone(c))
      modifies c
      ensures Valid() && Inv(State()) && Ok(State()) == Perform(old(State()), ShutdownDone(c))
      ensures c.Value() == old(c.Value()).(shutting := false, status := Closing, handle := InClose,
        calls := old(c.Value()).calls.(farewells := old(c.Value()).calls.farewells + 1))
    {
      hide Inv, Sockets.CloseHandle, BufferValues, Claims, State, Container.Valid, ContextValues;
      KnownContext(c);
      InvContext(State(), c);
      StepIsFine(State(), ShutdownDone(c));
      c.held := c.held.(shutting := false);
      c.status := Sockets.Shutdown;
      c.SayFarewell();
      OnlyContext(c);
      CloseHandle(c);
    }

    /** `ks_socket_read_cb` at the end of the stream or with an error. */
    method ReadEnded(c: Context)
      requires Valid() && Inv(State()) && c in contexts && Enabled(State(), ReadEnd(c))
      modifies c
      ensures Valid() && Inv(State()) && Ok(State()) == Perform(old(State()), ReadEnd(c))
      ensures c.Value() == old(c.Value()).(status := Closing, handle := InClose,
        calls := old(c.Value()).calls.(farewells := old(c.Value()).calls.farewells + 1))
    {
      hide Inv, Sockets.CloseHandle, BufferValues, Claims, State, Container.Valid, ContextValues;
      KnownContext(c);
      StepIsFine(State(), ReadEnd(c));
      c.SayFarewell();
      OnlyContext(c);
      CloseHandle(c);
    }

    /** `ks_socket_after_close` */
    method AfterClosed(c: Context)
      requires Valid() && Inv(State()) && c in contexts && Enabled(State(), AfterClose(c))
      modifies this`active, this`inactive, this`connections, c
      ensures Resolved(old(State()), AfterClose(c))
      ensures Valid() && Inv(State()) && Ok(State()) == Perform(old(State()), AfterClose(c))
      ensures LetGo(c, old(c.Value()).(status := Closed, handle := Gone, calls := old(c.Value()).calls.(farewells :=
        old(c.Value()).calls.farewells + if old(c.closeNotify) then 1 else 0)))
    {
      hide Inv, Sockets.Dereference, BufferValues, Claims, Perform, State, Container.Valid, ContextValues;
      KnownContext(c);
      StepIsFine(State(), AfterClose(c));
      AfterCloseMeans(State(), c);
      EndHandle(c);
      Dereference(c);
    }

    /** The part before the handle's reference is dropped: the user is told if that is still due. */
    method EndHandle(c: Context)
      requires Valid() && c in contexts
      modifies c
      ensures Valid() && State() == Put(old(State()), c, Ended(old(c.Value())))
      ensures c.Value() == old(c.Value()).(status := Closed, handle := Gone, calls := old(c.Value()).calls.(farewells :=
        old(c.Value()).calls.farewells + if old(c.closeNotify) then 1 else 0))
    {
      hide BufferValues, Claims, State, Container.Valid, ContextValues;
      if c.closeNotify {
        c.SayFarewell();
      }
      c.held := c.held.(handle := Gone);
      c.status := Closed;
      OnlyContext(c);
    }

    /** `uv_tcp_bind` and `uv_listen`, or their siblings for pipes, on an initialised context. */
    method Listen(c: Context, ok: bool)
      requires Valid() && Inv(State()) && c in contexts && c.status.Initialized?
      modifies c
      ensures Valid() && Inv(State()) && Ok(State()) == Perform(old(State()), Bind(c, ok))
      ensures c.Value() == if ok then old(c.Value()).(status := Sockets.Listen)
                           else old(c.Value()).(status := Closing, handle := InClose)
      ensures c.status.Listen? && c.held.handle.Open? <==> ok
    {
      hide Inv, Sockets.CloseHandle, BufferValues, Claims;
      InvContext(State(), c);
      StepIsFine(State(), Bind(c, ok));
      if ok {
        SetStatus(c, Sockets.Listen);
      } else {
        CloseHandle(c);
      }
    }

    /** A user takes a reference to an active context, and holds it. */
    method Hold(c: Context)
      requires Valid() && Inv(State()) && c in contexts && c.active
      modifies c
      ensures Resolved(old(State()), UserRef(c))
      ensures Valid() && Inv(State()) && Ok(State()) == Perform(old(State()), UserRef(c)) && c.held.users > 0
      ensures c.Value() == old(c.Value()).(refcount := old(c.Value()).refcount + 1, users := old(c.Value()).users + 1)
    {
      hide Inv, BufferValues, Claims, Perform, Sockets.AddRef, HoldContext, State, Container.Valid, ContextValues;
      KnownContext(c);
      StepIsFine(State(), UserRef(c));
      UserRefMeans(State(), c);
      AddRef(c);
      NoteHolder(c);
    }

    ghost method NoteHolder(c: Context)
      requires Valid() && c in contexts
      modifies c`held
      ensures Valid() && c.held.users > 0
      ensures c in old(State()).ctxs && State() == HoldContext(old(State()), c)
      ensures c.Value() == old(c.Value()).(users := old(c.Value()).users + 1)
    {
      hide BufferValues, Claims, State, Container.Valid, ContextValues;
      c.held := c.held.(users := c.held.users + 1);
      OnlyContext(c);
    }

    ghost method NoteBufferHolder(b: Buffer)
      requires Valid() && b in allBuffers
      modifies b`users
      ensures Valid() && b.users > 0
      ensures b in old(State()).bufs && State() == Sockets.HoldBuffer(old(State()), b)
      ensures b.users == old(b.users) + 1
    {
      hide State, Container.Valid, ContextValues, BufferValues, Claims;
      KnownBuffer(b);
      b.users := b.users + 1;
      OnlyBuffer(b);
    }

    /** A user takes a buffer, and holds it. */
    method NewBuffer(spare: Buffer) returns (b: Buffer)
      requires Valid() && Inv(State()) && (buffers == [] ==> spare !in allBuffers && Pristine(spare))
      modifies this`buffers, this`usingBuffers, this`allBuffers, allBuffers, if buffers == [] then {spare} else {}
      ensures Valid() && Inv(State())
      ensures allBuffers == old(allBuffers) + if old(buffers) == [] then {spare} else {}
      ensures b in allBuffers && b in usingBuffers && b.users > 0 && (old(buffers) == [] ==> b == spare)
      ensures Resolved(old(State()), Step.BufferAcquire(spare))
      ensures Ok(State()) == Perform(old(State()), Step.BufferAcquire(spare))
      ensures b.refcount == 1 && b.usingsize == 0 && b.users == 1 && usingBuffers == old(usingBuffers) + [b]
      ensures b == if old(buffers) == [] then spare else old(buffers)[|old(buffers)| - 1]
      ensures buffers == if old(buffers) == [] then [] else old(buffers)[..|old(buffers)| - 1]
    {
      hide Inv, BufferNew, Perform, Sockets.HoldBuffer, ContextValues, BufferValues, Claims, Enabled;
      MayTakeBuffer(spare);
      StepIsFine(State(), Step.BufferAcquire(spare));
      BufferAcquireMeans(State(), spare);
      BufferNewKeeps(State(), PickedBuffer(State(), spare));
      b := BufferAcquire(spare);
      KnownBuffer(b);
      NoteBufferHolder(b);
    }

    lemma MayTakeBuffer(spare: Buffer)
      requires Valid() && (buffers == [] ==> spare !in allBuffers)
      ensures Enabled(State(), Step.BufferAcquire(spare)) && (State().free == [] ==> spare !in State().bufs)
    {
      hide ContextValues, Claims;
    }

    lemma MayHoldBuffer(b: Buffer)
      requires Inv(State()) && b in allBuffers && b in usingBuffers
      ensures Enabled(State(), BufferRef(b)) && b.refcount >= 1
    {
      hide Inv, ContextValues, Claims;
      assert b in State().bufs && State().bufs[b].refcount == b.refcount;
      UsedInInv(State(), b);
    }

    /** A user takes a further reference to a buffer in use, and holds it. */
    method HoldBuffer(b: Buffer)
      requires Valid() && Inv(State()) && b in allBuffers && b in usingBuffers
      modifies b
      ensures Resolved(old(State()), BufferRef(b))
      ensures Valid() && Inv(State()) && Ok(State()) == Perform(old(State()), BufferRef(b)) && b.users > 0
      ensures b.refcount == old(b.refcount) + 1 && b.users == old(b.users) + 1 && b.usingsize == old(b.usingsize)
    {
      hide Inv, Perform, Sockets.BufferAddRef, Sockets.HoldBuffer, State, Container.Valid, Enabled, Resolved;
      KnownBuffer(b);
      MayHoldBuffer(b);
      StepIsFine(State(), BufferRef(b));
      BufferRefMeans(State(), b);
      BufferAddRef(b);
      NoteBufferHolder(b);
    }

    /** A user drops a reference to a buffer. */
    method ReleaseBuffer(b: Buffer)
      requires Valid() && Inv(State()) && b in allBuffers && b.users > 0
      modifies this`buffers, this`usingBuffers, b
      ensures Resolved(old(State()), BufferDeref(b))
      ensures Valid() && Inv(State()) && Ok(State()) == Perform(old(State()), BufferDeref(b))
      ensures LetGoBuffer(b) && b.users == old(b.users) - 1
    {
      hide Inv, Sockets.BufferDereference, Sockets.ReleaseBuffer, Perform, ContextValues, Claims;
      StepIsFine(State(), BufferDeref(b));
      BufferDerefMeans(State(), b);
      NoteNoBufferHolder(b);
      BufferDereference(b);
    }

    /** A user who holds a buffer makes it `n` bytes longer, by `ks_buffer_setsize` here. */
    method GrowBuffer(b: Buffer, n: nat)
      requires Valid() && Inv(State()) && b in allBuffers && b.users > 0
      modifies b
      ensures Resolved(old(State()), BufferWrite(b, n))
      ensures Valid() && Inv(State()) && Ok(State()) == Perform(old(State()), BufferWrite(b, n))
      ensures b.usingsize == old(b.usingsize) + n && b.refcount == old(b.refcount) && b.users == old(b.users)
    {
      hide Inv, ContextValues, Claims, State, Container.Valid, BufferValues;
      KnownBuffer(b);
      StepIsFine(State(), BufferWrite(b, n));
      b.SetSize(b.usingsize + n);
      OnlyBuffer(b);
    }

    /** A user drops a reference it holds. */
    method Release(c: Context)
      requires Valid() && Inv(State()) && c in contexts && Enabled(State(), UserDeref(c))
      modifies this`active, this`inactive, this`connections, c
      ensures Resolved(old(State()), UserDeref(c))
      ensures Valid() && Inv(State()) && Ok(State()) == Perform(old(State()), UserDeref(c))
      ensures old(c.Value()).users > 0 && LetGo(c, old(c.Value()).(users := old(c.Value()).users - 1))
    {
      hide Inv, Sockets.Dereference, BufferValues, Claims, Perform, ReleaseContext, State, Container.Valid;
      hide ContextValues;
      KnownContext(c);
      StepIsFine(State(), UserDeref(c));
      UserDerefMeans(State(), c);
      NoteNoHolder(c);
      Dereference(c);
    }

    ghost method NoteNoHolder(c: Context)
      requires Valid() && c in contexts && c.held.users > 0
      modifies c`held
      ensures Valid() && c in old(State()).ctxs && old(State()).ctxs[c].users > 0
      ensures State() == ReleaseContext(old(State()), c)
      ensures c.Value() == old(c.Value()).(users := old(c.Value()).users - 1)
    {
      hide BufferValues, Claims, State, Container.Valid, ContextValues;
      c.held := c.held.(users := c.held.users - 1);
      OnlyContext(c);
    }

    ghost method NoteNoBufferHolder(b: Buffer)
      requires Valid() && b in allBuffers && b.users > 0
      modifies b`users
      ensures Valid() && b in old(State()).bufs && old(State()).bufs[b].users > 0
      ensures State() == Sockets.ReleaseBuffer(old(State()), b)
      ensures b.users == old(b.users) - 1
    {
      hide ContextValues, Claims, State, Container.Valid, BufferValues;
      KnownBuffer(b);
      b.users := b.users - 1;
      OnlyBuffer(b);
    }

    /** libuv owes the callback of the request no longer, and it is detached. */
    method TakeBack(r: WriteReq, c: Context, b: Buffer)
      requires Valid() && r in requests && c in contexts && b in allBuffers
      requires r in State().reqs && State().reqs[r] == Claim(c, b) && Sockets.Detach(State(), r).Ok?
      modifies this`active, this`inactive, this`connections, this`buffers, this`usingBuffers, this`writereqBuffers
      modifies this`inflight, c, b, r
      ensures Valid() && State() == Settle(Sockets.Detach(old(State()), r).value, r)
      ensures LetGo(c, old(c.Value()).(sendorder := Remove(old(c.Value()).sendorder, r)))
      ensures LetGoBuffer(b) && b.users == old(b.users)
      ensures r.context == null && r.buffer == null && writereqBuffers == old(writereqBuffers) + [r]
      ensures inflight == old(inflight) - {r}
    {
      hide Sockets.Detach, ContextValues, BufferValues, Claims;
      Detach(r, c, b);
      inflight := inflight - {r};
    }

    /** `ks_write_cb` */
    method WriteCallback(r: WriteReq, c: Context, b: Buffer)
      requires Valid() && r in requests && c in contexts && b in allBuffers && Inv(State())
      requires r in State().reqs && State().reqs[r] == Claim(c, b)
      modifies this`active, this`inactive, this`connections, this`buffers, this`usingBuffers, this`writereqBuffers
      modifies this`inflight, c, b, r
      ensures Valid() && Inv(State()) && Ok(State()) == PerformWritten(old(State()), r)
      ensures LetGo(c, old(c.Value()).(sendorder := Remove(old(c.Value()).sendorder, r)))
      ensures LetGoBuffer(b) && b.users == old(b.users)
      ensures r.context == null && r.buffer == null && writereqBuffers == old(writereqBuffers) + [r]
      ensures inflight == old(inflight) - {r}
    {
      hide Inv, Sockets.Detach, Container.Valid, Container.State;
      DetachKeeps(State(), r);
      TakeBack(r, c, b);
    }

    /** The request is attached and given to libuv. */
    method GiveToUv(c: Context, b: Buffer, spare: WriteReq) returns (r: WriteReq)
      requires Valid() && c in contexts && b in allBuffers
      requires writereqBuffers == [] ==> spare !in requests && spare.context == null
      modifies this`writereqBuffers, this`requests, this`inflight, c, b, requests
      modifies if writereqBuffers == [] then {spare} else {}
      ensures b in old(State()).bufs && (old(writereqBuffers) == [] ==> r !in old(State()).reqs)
      ensures Valid() && State() == Promise(Sockets.Attach(old(State()), c, b, r), r)
      ensures r == PickedReq(old(State()), spare) == PickedReq(old(State()), r) && requests == old(requests) + {r}
      ensures r == if old(writereqBuffers) == [] then spare else old(writereqBuffers)[|old(writereqBuffers)| - 1]
      ensures writereqBuffers
           == if old(writereqBuffers) == [] then [] else old(writereqBuffers)[..|old(writereqBuffers)| - 1]
      ensures Attached(r, c, b)
      ensures inflight == old(inflight) + {r}
    {
      hide Sockets.Attach, ContextValues, BufferValues, Claims;
      KnownFor(b, spare);
      r := Attach(c, b, spare);
      inflight := inflight + {r};
    }

    lemma KnownFor(b: Buffer, spare: WriteReq)
      requires b in allBuffers
      ensures b in State().bufs && (spare !in requests ==> spare !in State().reqs)
    {
      hide ContextValues;
    }

    /** `ks_socket_send`; `ok` is what `uv_write` answers. */
    method Send(c: Context, b: Buffer, spare: WriteReq, ok: bool) returns (err: int)
      requires Valid() && Inv(State()) && c in contexts && b in allBuffers && b in usingBuffers
      requires c.status.Established? ==> c.held.handle.Open?
      requires writereqBuffers == [] ==> spare !in requests && spare.context == null
      modifies this`active, this`inactive, this`connections, this`buffers, this`usingBuffers, this`writereqBuffers
      modifies this`requests, this`inflight, c, b, requests
      modifies if writereqBuffers == [] && c.status.Established? then {spare} else {}
      ensures Valid() && Inv(State()) && Ok(State()) == PerformSend(old(State()), c, b, spare, ok)
      ensures err == 0 <==> old(c.status).Established? && ok
      ensures requests == old(requests) + if old(c.status).Established? then {PickedReq(old(State()), spare)} else {}
      ensures var r := if old(writereqBuffers) == [] then spare else old(writereqBuffers)[|old(writereqBuffers)| - 1];
        if !old(c.status).Established? then State() == old(State())
        else if ok then Attached(r, c, b) && inflight == old(inflight) + {r}
        else RefusedOnly(r, c, b)
             && writereqBuffers == if old(writereqBuffers) == [] then [spare] else old(writereqBuffers)
    {
      hide Inv, PerformSend, BufferValues, Claims, ContextValues;
      if !c.status.Established? {
        SendIgnored(c, b, spare, ok);
        err := 1;
      } else {
        err := SendEstablished(c, b, spare, ok);
      }
    }

    /** libuv refused: the handle is closing, and everything else as it was. */
    twostate predicate RefusedOnly(r: WriteReq, c: Context, b: Buffer)
      reads this, r, c, b
    {
      && r.context == null && r.buffer == null && inflight == old(inflight) && SameLists()
      && c.Value() == old(c.Value()).(calls := old(c.Value()).calls.(refused := true), handle := InClose)
      && b.refcount == old(b.refcount) && b.users == old(b.users) && b.usingsize == old(b.usingsize)
      && buffers == old(buffers) && usingBuffers == old(usingBuffers)
    }

    /** The branch for an established connection. */
    method SendEstablished(c: Context, b: Buffer, spare: WriteReq, ok: bool) returns (err: int)
      requires Valid() && Inv(State()) && c in contexts && b in allBuffers && b in usingBuffers
      requires c.status.Established? && c.held.handle.Open?
      requires writereqBuffers == [] ==> spare !in requests && spare.context == null
      modifies this`active, this`inactive, this`connections, this`buffers, this`usingBuffers, this`writereqBuffers
      modifies this`requests, this`inflight, c, b, requests, if writereqBuffers == [] then {spare} else {}
      ensures Valid() && Inv(State()) && c in old(State()).ctxs && b in old(State()).bufs
      ensures Ok(State()) == PerformSend(old(State()), c, b, spare, ok)
      ensures err == 0 <==> ok
      ensures requests == old(requests) + {PickedReq(old(State()), spare)}
      ensures var r := if old(writereqBuffers) == [] then spare else old(writereqBuffers)[|old(writereqBuffers)| - 1];
        if ok then Attached(r, c, b) && inflight == old(inflight) + {r}
        else RefusedOnly(r, c, b)
             && writereqBuffers == if old(writereqBuffers) == [] then [spare] else old(writereqBuffers)
    {
      hide Inv, PerformSend, Sockets.Attach, Sockets.Detach, Settle, Promise, MarkRefused, Sockets.UvClose;
      hide State, Container.Valid, Context.Value, Buffer.Valid, ContextOk, ContextValues, BufferValues, Claims;
      ghost var s := State();
      MaySend(c, b);
      StateParts();
      assert writereqBuffers != [] ==> writereqBuffers[|writereqBuffers| - 1] in requests by { PoolIsKnown(); }
      err := 0;
      var req := GiveToUv(c, b, spare);
      SpareIsPicked(s, c, b, spare, req, ok);
      if ok {
        SendAccepted(s, c, b, req);
      } else {
        SendRefused(s, c, b, req);
        RefusedResult(s, c, b, req);
        Refuse(s, req, c, b);
        StateParts();
        err := 1;
      }
    }

    lemma MaySend(c: Context, b: Buffer)
      requires Valid() && Inv(State()) && c in contexts && b in allBuffers && b in usingBuffers
      ensures c in State().ctxs && State().ctxs[c] == c.Value() && b in State().bufs && b in State().using
      ensures c.Value().status == c.status && c.Value().handle == c.held.handle
      ensures State().bufs[b].refcount == b.refcount >= 1
      ensures c.status.Established? && c.held.handle.Open? ==> c.Value().refcount >= 1
    {
      hide Inv, State, Container.Valid;
      KnownContext(c);
      KnownBuffer(b);
      MayHoldBuffer(b);
      InvContext(State(), c);
      StateParts();
    }

    lemma PoolIsKnown()
      requires Valid()
      ensures forall r :: r in writereqBuffers ==> r in requests
    {
    }

    lemma StateParts()
      ensures State().inflight == inflight && State().pool == writereqBuffers && State().using == usingBuffers
    {
    }

    /** libuv refuses the write: it is detached, and the handle closed although the status stays. */
    method Refuse(ghost s: State, r: WriteReq, c: Context, b: Buffer)
      requires Valid() && r in requests && c in contexts && b in allBuffers && c.Value().refcount > 1
      requires r in State().reqs && State().reqs[r] == Claim(c, b) && Sockets.Detach(State(), r).Ok?
      requires c in s.ctxs && s.ctxs[c].handle.Open? && Settle(Sockets.Detach(State(), r).value, r).ctxs == s.ctxs
      modifies this`active, this`inactive, this`connections, this`buffers, this`usingBuffers, this`writereqBuffers
      modifies this`inflight, c, b, r
      ensures Valid()
      ensures Ok(State()) == Sockets.UvClose(MarkRefused(Settle(Sockets.Detach(old(State()), r).value, r), c), c)
      ensures c.Value() == s.ctxs[c].(calls := s.ctxs[c].calls.(refused := true), handle := InClose)
      ensures LetGoBuffer(b) && b.users == old(b.users) && SameLists()
      ensures r.context == null && r.buffer == null && writereqBuffers == old(writereqBuffers) + [r]
      ensures inflight == old(inflight) - {r}
    {
      hide Sockets.Detach, Settle, State, Container.Valid;
      TakeBack(r, c, b);
      KnownContext(c);
      assert c.Value() == s.ctxs[c];
      NoteRefusal(c);
      UvClose(c);
    }

    lemma SendIgnored(c: Context, b: Buffer, spare: WriteReq, ok: bool)
      requires c in contexts && b in allBuffers && !c.status.Established?
      ensures c in State().ctxs && b in State().bufs && PerformSend(State(), c, b, spare, ok) == Ok(State())
    {
      assert State().ctxs[c] == c.Value();
    }

    /** `ks_socket_find`: the active context with this id, or none if there is none. */
    method Find(id: nat) returns (c: Context?)
      requires Inv(State())
      ensures c == Sockets.Find(State(), id)
      ensures c != null ==> c in contexts && c.active && c.uniqid == id
      ensures c == null ==> forall d :: d in contexts && d.active ==> d.uniqid != id
    {
      hide Inv;
      FindMeans(id);
      c := null;
      if id in connections {
        c := connections[id];
      }
    }

    lemma FindMeans(id: nat)
      requires Inv(State())
      ensures forall d :: d in contexts ==> (Sockets.Find(State(), id) == d <==> d.active && d.uniqid == id)
      ensures Sockets.Find(State(), id) != null ==> Sockets.Find(State(), id) in contexts
    {
      hide ContextsOk, ListsOk, WritesOk, BuffersOk, BufferValues, Claims;
      forall d | d in contexts ensures Sockets.Find(State(), id) == d <==> d.active && d.uniqid == id {
        FindsInTable(State(), d, id);
        assert State().ctxs[d] == d.Value();
      }
    }

    /** `ks_socket_stop` closes every listener and every established connection, and nothing else. */
    method Stop()
      requires Valid() && Inv(State()) && Calm(State())
      modifies contexts
      ensures Valid() && Inv(State()) && Calm(State())
      ensures StoppedAll(old(State()), State())
      ensures forall c :: c in contexts && old(c.Value()).status.Established? ==>
                c.Value() == old(c.Value()).(status := Closing, handle := InClose, closeNotify := true)
      ensures forall c :: c in contexts && old(c.Value()).status.Listen? ==>
                c.Value() == old(c.Value()).(status := Closing, handle := InClose)
      ensures forall c :: c in contexts && !old(c.Value()).status.Established? && !old(c.Value()).status.Listen? ==>
                c.Value() == old(c.Value())
    {
      hide Inv, Calm, Perform, State, BufferValues, Claims, Stopped, Context.Value, Valid;
      ActiveAreKnown();
      var i := 0;
      ghost var done: set<Context> := {};
      while i < |active|
        invariant i <= |active| && Valid() && Inv(State()) && Calm(State())
        invariant forall j :: 0 <= j < i ==> active[j] in done
        invariant forall c :: c in contexts ==> c.Value() == if c in done then Stopped(old(c.Value()))
          else old(c.Value())
      {
        StoppedTwice(old(active[i].Value()));
        CloseNext(active[i]);
        done := done + {active[i]};
        i := i + 1;
      }
      forall c | c in contexts ensures c.Value() == Stopped(old(c.Value())) {
        IsActiveOrIdle(c);
      }
      AllStopped();
      ListenersAndConnections();
    }

    twostate lemma ListenersAndConnections()
      requires unchanged(this) && forall c :: c in contexts ==> c.Value() == Stopped(old(c.Value()))
      ensures forall c :: c in contexts && old(c.Value()).status.Established? ==>
                c.Value() == old(c.Value()).(status := Closing, handle := InClose, closeNotify := true)
      ensures forall c :: c in contexts && old(c.Value()).status.Listen? ==>
                c.Value() == old(c.Value()).(status := Closing, handle := InClose)
      ensures forall c :: c in contexts && !old(c.Value()).status.Established? && !old(c.Value()).status.Listen? ==>
                c.Value() == old(c.Value())
    {
    }

    twostate lemma AllStopped()
      requires unchanged(this) && forall c :: c in contexts ==> c.Value() == Stopped(old(c.Value()))
      requires (forall b :: b in allBuffers ==> unchanged(b)) && (forall r :: r in requests ==> unchanged(r))
      ensures StoppedAll(old(State()), State())
    {
      assert BufferValues() == old(BufferValues()) && Claims() == old(Claims());
    }

    lemma ActiveAreKnown()
      requires Inv(State())
      ensures forall c :: c in active ==> c in contexts
    {
      assert forall c :: c in active ==> c in State().ctxs;
    }

    lemma IsActiveOrIdle(c: Context)
      requires Inv(State()) && c in contexts
      ensures c in active || Stopped(c.Value()) == c.Value()
    {
      hide Inv;
      InactiveIsUninitialized(State(), c);
      assert State().ctxs[c] == c.Value();
    }

    method CloseNext(c: Context)
      requires Valid() && Inv(State()) && Calm(State()) && c in contexts
      modifies c
      ensures Valid() && Inv(State()) && Calm(State())
      ensures c.Value() == Stopped(old(c.Value()))
    {
      hide Inv, Calm;
      ghost var s := State();
      InvContext(s, c);
      CalmMeansSingleClose(s, CloseCall(c));
      var _ := Close(c);
      ClosingStaysCalm(s, CloseCall(c));
      assert c.Value() == State().ctxs[c];
    }
  }

  lemma InitHandleMeans(s: State, c: Context, ok: bool)
    requires c in s.ctxs
    ensures Perform(s, Step.InitHandle(c, ok))
         == if ok then Ok(Put(s, c, s.ctxs[c].(status := Initialized, handle := Open)))
            else Sockets.Dereference(Put(s, c, s.ctxs[c].(handle := Gone)), c)
  {
  }

  lemma ConnectedMeans(s: State, c: Context, ok: bool, reading: bool)
    requires c in s.ctxs
    ensures var f := s.ctxs[c].(connecting := false);
      Perform(s, Connected(c, ok, reading))
      == if !ok then Sockets.CloseHandle(Put(s, c, f), c)
         else if reading then Ok(Put(Put(s, c, f.(status := Established)), c, Greet(f.(status := Established))))
         else Sockets.CloseHandle(Put(s, c, f.(status := Established)), c)
  {
    var f := s.ctxs[c].(connecting := false);
    PutTwice(s, c, f, f.(status := Established));
    PutTwice(s, c, f, Greet(f.(status := Established)));
    PutTwice(s, c, f.(status := Established), Greet(f.(status := Established)));
  }

  lemma ShutdownMeans(s: State, c: Context, ok: bool)
    requires c in s.ctxs
    ensures Perform(s, ShutdownCall(c, ok))
         == if !s.ctxs[c].status.Established? then Ok(s)
            else if ok then Ok(Put(s, c, s.ctxs[c].(status := ShuttingDown, shutting := true)))
            else Sockets.CloseHandle(Put(s, c, s.ctxs[c].(closeNotify := true)), c)
  {
  }

  lemma AfterCloseMeans(s: State, c: Context)
    requires c in s.ctxs
    ensures Perform(s, AfterClose(c)) == Sockets.Dereference(Put(s, c, Ended(s.ctxs[c])), c)
  {
  }

  lemma Readable(s: State, c: Context, ok: bool)
    requires c in s.ctxs && s.ctxs[c].status.Established? && s.ctxs[c].handle.Open? && !s.ctxs[c].calls.greeted
    ensures var step := if ok then Welcome(c) else ReadRefused(c); Enabled(s, step) && Resolved(s, step)
  {
  }

  lemma AcceptMeans(s: State, c: Context, ok: bool)
    requires c in s.ctxs
    ensures Perform(s, Step.Accept(c, ok))
         == if ok then Ok(Sockets.SetStatus(s, c, Established)) else Sockets.CloseHandle(s, c)
  {
  }

  lemma UserDerefMeans(s: State, c: Context)
    requires c in s.ctxs && s.ctxs[c].users > 0
    ensures Perform(s, UserDeref(c)) == Sockets.Dereference(ReleaseContext(s, c), c)
  {
  }

  lemma BufferDerefMeans(s: State, b: Buffer)
    requires b in s.bufs && s.bufs[b].users > 0
    ensures Perform(s, BufferDeref(b)) == Ok(Sockets.BufferDereference(Sockets.ReleaseBuffer(s, b), b))
  {
  }

  lemma UserRefMeans(s: State, c: Context)
    requires c in s.ctxs
    ensures Perform(s, UserRef(c)) == Ok(HoldContext(Sockets.AddRef(s, c), c))
  {
  }

  lemma BufferAcquireMeans(s: State, spare: Buffer)
    requires Resolved(s, Step.BufferAcquire(spare))
    ensures var b := PickedBuffer(s, spare);
      && b in BufferNew(s, b).bufs
      && Perform(s, Step.BufferAcquire(spare)) == Ok(Sockets.HoldBuffer(BufferNew(s, b), b))
  {
    assert BufferNew(s, spare) == BufferNew(s, PickedBuffer(s, spare));
  }

  lemma BufferRefMeans(s: State, b: Buffer)
    requires b in s.bufs
    ensures Perform(s, BufferRef(b)) == Ok(Sockets.HoldBuffer(Sockets.BufferAddRef(s, b), b))
  {
  }

  /** Memory as `ks_buffer_create` leaves it. */
  ghost predicate Pristine(b: Buffer)
    reads b
  {
    b.Valid() && b.refcount == b.usingsize == b.users == 0
  }

  lemma StoppedTwice(f: Fields)
    ensures Stopped(Stopped(f)) == Stopped(f)
  {
  }

  /** The steps of one incoming connection. */
  function AcceptSteps(c: Context, initOk: bool, acceptOk: bool, full: bool, shutdownOk: bool,
          readOk: bool): seq<Step> {
    if !initOk then [Step.Acquire(c)] + [Step.InitHandle(c, false)]
    else if !acceptOk then [Step.Acquire(c), Step.InitHandle(c, true)] + [Step.Accept(c, false)]
    else
      [Step.Acquire(c), Step.InitHandle(c, true)] + [Step.Accept(c, true)]
      + [Admission(c, full, shutdownOk, readOk)]
  }

  /** The steps of one outgoing connection. */
  function ConnectSteps(c: Context, initOk: bool, connectOk: bool): seq<Step> {
    if !initOk then [Step.Acquire(c)] + [Step.InitHandle(c, false)]
    else [Step.Acquire(c), Step.InitHandle(c, true)] + [Step.Connect(c, connectOk)]
  }

  /** What becomes of an accepted connection. */
  function Admission(c: Context, full: bool, shutdownOk: bool, readOk: bool): Step {
    if full then ShutdownCall(c, shutdownOk) else if readOk then Welcome(c) else ReadRefused(c)
  }

  lemma InactiveIsUninitialized(s: State, c: Context)
    requires Inv(s) && c in s.ctxs
    ensures c in s.active || s.ctxs[c].status.Uninitialize?
  {
    hide WritesOk, BuffersOk, TableOk;
    assert ContextOk(s.ctxs[c]);
  }

  /** Which request a send takes is settled by the pool. */
  lemma SpareIsPicked(s: State, c: Context, b: Buffer, spare: WriteReq, r: WriteReq, ok: bool)
    requires c in s.ctxs && b in s.bufs && r == PickedReq(s, spare) == PickedReq(s, r)
    ensures PerformSend(s, c, b, spare, ok) == PerformSend(s, c, b, r, ok)
  {
    hide Sockets.Detach;
    assert Sockets.Attach(s, c, b, spare) == Sockets.Attach(s, c, b, r);
  }

  lemma SendAccepted(s: State, c: Context, b: Buffer, r: WriteReq)
    requires Inv(s) && c in s.ctxs && s.ctxs[c].status.Established? && s.ctxs[c].handle.Open?
    requires b in s.bufs && b in s.using && (s.pool == [] ==> r !in s.reqs) && r == PickedReq(s, r)
    ensures PerformSend(s, c, b, r, true) == Ok(Promise(Sockets.Attach(s, c, b, r), r))
    ensures Inv(Promise(Sockets.Attach(s, c, b, r), r))
  {
    hide Inv, Sockets.Attach;
    SendIsFine(s, c, b, r, true);
  }

  lemma SendRefused(s: State, c: Context, b: Buffer, r: WriteReq)
    requires Inv(s) && c in s.ctxs && s.ctxs[c].status.Established? && s.ctxs[c].handle.Open?
    requires b in s.bufs && b in s.using && (s.pool == [] ==> r !in s.reqs) && r == PickedReq(s, r)
    ensures var t := Promise(Sockets.Attach(s, c, b, r), r);
      && r in t.reqs && t.reqs[r] == Claim(c, b) && c in t.ctxs && b in t.bufs && Sockets.Detach(t, r).Ok?
      && var u := Settle(Sockets.Detach(t, r).value, r);
      && u.ctxs == s.ctxs
      && PerformSend(s, c, b, r, false) == Sockets.UvClose(MarkRefused(u, c), c)
      && Sockets.UvClose(MarkRefused(u, c), c).Ok? && Inv(Sockets.UvClose(MarkRefused(u, c), c).value)
  {
    hide Inv, Sockets.Attach, Sockets.Detach;
    assert s.ctxs[c].refcount >= 1 && s.bufs[b].refcount >= 1 by { InvContext(s, c); UsedInInv(s, b); }
    RefusedFields(s, c, b, r);
    SendIsFine(s, c, b, r, false);
  }
}
