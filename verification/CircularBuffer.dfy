/**
  `ks_circular_buffer`: a byte FIFO over a list of 4096-byte blocks. Blocks that have been read to
  the end are moved behind the tail and written again. A block that has been read to the end while it
  is still `first` (`outpos == 4096`) is given up lazily, by the next dequeue that needs a byte.

  `blocks` is the list from `head.next` on; that the list operations of `list.h` used here act on the
  nodes as these sequence operations do is proved in module ListHeads.
 */
module CircularBuffer {
  import opened Bytes

  const BLOCK_SIZE := 4096

  type Block = array<byte>

  function Max(a: nat, b: nat): nat { if a > b then a else b }

  /** Where a block stands on the list. */
  function IndexOf(blocks: seq<Block>, b: Block): (i: nat)
    requires b in blocks
    ensures i < |blocks| && blocks[i] == b
  {
    if blocks[0] == b then 0 else 1 + IndexOf(blocks[1..], b)
  }

  predicate Distinct(blocks: seq<Block>) {
    forall i, j :: 0 <= i < j < |blocks| ==> blocks[i] != blocks[j]
  }

  predicate Sized(blocks: seq<Block>) {
    forall i :: 0 <= i < |blocks| ==> blocks[i].Length == BLOCK_SIZE
  }

  /** Byte `from + k` of the blocks laid end to end is `bytes[k]`. */
  ghost predicate Holds(blocks: seq<Block>, from: nat, bytes: Data)
    requires Sized(blocks)
    reads blocks
  {
    && from + |bytes| <= BLOCK_SIZE * |blocks|
    && forall b, i :: 0 <= b < |blocks| && 0 <= i < BLOCK_SIZE && from <= BLOCK_SIZE * b + i < from + |bytes| ==>
         blocks[b][i] == bytes[BLOCK_SIZE * b + i - from]
  }

  function Rotated<T>(s: seq<T>): seq<T>
    requires s != []
  {
    s[1..] + [s[0]]
  }

  lemma RotatedIsPermutation<T>(s: seq<T>)
    requires s != []
    ensures multiset(Rotated(s)) == multiset(s)
  {
    assert s == [s[0]] + s[1..];
  }

  /** A first block that is read to its end holds nothing, so it may stand anywhere behind the bytes. */
  lemma RotatedHolds(blocks: seq<Block>, bytes: Data)
    requires blocks != [] && Distinct(blocks) && Sized(blocks) && Holds(blocks, BLOCK_SIZE, bytes)
    ensures Distinct(Rotated(blocks)) && Sized(Rotated(blocks)) && Holds(Rotated(blocks), 0, bytes)
  {
    var r := Rotated(blocks);
    forall b, i | 0 <= b < |r| && 0 <= i < BLOCK_SIZE && BLOCK_SIZE * b + i < |bytes|
      ensures r[b][i] == bytes[BLOCK_SIZE * b + i]
    {
      assert r[b] == blocks[b + 1];
      assert blocks[b + 1][i] == bytes[BLOCK_SIZE * (b + 1) + i - BLOCK_SIZE];
    }
  }

  /** A new block behind the last one disturbs nothing that is held. */
  lemma MoreBlocks(blocks: seq<Block>, more: seq<Block>, from: nat, bytes: Data)
    requires Distinct(blocks) && Sized(blocks) && Holds(blocks, from, bytes)
    requires blocks <= more && |more| == |blocks| + 1 && more[|blocks|] !in blocks
      && more[|blocks|].Length == BLOCK_SIZE
    ensures Distinct(more) && Sized(more) && Holds(more, from, bytes)
  {
  }

  /** Taking bytes off the front moves the start. */
  lemma FewerBytes(blocks: seq<Block>, from: nat, bytes: Data, n: nat)
    requires Sized(blocks) && Holds(blocks, from, bytes) && n <= |bytes|
    ensures Holds(blocks, from + n, bytes[n..])
  {
  }

  lemma PlaceIsUnique(blocks: seq<Block>, i: nat, b: Block)
    requires Distinct(blocks) && i < |blocks| && blocks[i] == b
    ensures IndexOf(blocks, b) == i
  {
  }

  /** `memcpy` into one block, right behind the bytes held so far. */
  method CopyIn(buffer: Block, at: nat, chunk: Data, ghost blocks: seq<Block>, ghost index: nat, ghost from: nat,
          ghost held: Data)
    requires Distinct(blocks) && Sized(blocks) && Holds(blocks, from, held)
    requires index < |blocks| && buffer == blocks[index] && at + |chunk| <= BLOCK_SIZE
    requires from + |held| == BLOCK_SIZE * index + at
    modifies buffer
    ensures Holds(blocks, from, held + chunk)
  {
    forall i | 0 <= i < |chunk| { buffer[at + i] := chunk[i]; }
  }

  /** `memcpy` out of one block: bytes `skip..skip + n` of what is held go to `data[to..]`. */
  method CopyOut(buffer: Block, at: nat, data: array<byte>, to: nat, n: nat,
                 ghost blocks: seq<Block>, ghost index: nat, ghost from: nat, ghost held: Data, ghost skip: nat)
    requires Sized(blocks) && Holds(blocks, from, held) && data !in blocks
    requires index < |blocks| && buffer == blocks[index] && at + n <= BLOCK_SIZE && to + n <= data.Length
    requires from + skip == BLOCK_SIZE * index + at && skip + n <= |held|
    modifies data
    ensures forall i :: to <= i < to + n ==> data[i] == held[skip + i - to]
    ensures forall i :: 0 <= i < to || to + n <= i < data.Length ==> data[i] == old(data[i])
  {
    forall i | 0 <= i < n { data[to + i] := buffer[at + i]; }
  }

  lemma TailPosition(end: nat, index: nat, pos: nat)
    requires end == 4096 * index + pos && pos < 4096
    ensures end / 4096 == index
  {
  }

  lemma LastPosition(read: nat, turns: nat, pos: nat)
    requires read == 4096 * turns + pos && 0 < pos <= 4096
    ensures pos == (read - 1) % 4096 + 1
  {
  }

  lemma DropDrop(d: Data, i: nat, n: nat)
    requires i + n <= |d|
    ensures d[i..][n..] == d[i + n..]
    ensures forall k :: i <= k < i + n ==> d[i..][k - i] == d[k]
  {
  }

  class Ring {
    var blocks: seq<Block>
    var totalsize: nat
    var usingsize: nat
    var tail: Block
    var first: Block
    var outpos: nat
    var inpos: nat
    ghost var tailIndex: nat
    ghost var contents: Data   // the bytes held, oldest first
    ghost var peak: nat        // the largest usingsize so far

    /**
      The ring holds `contents`, and the next byte goes to position `inpos` of block `tailIndex`. In
      the midst of a `Queue` that block may be full and `tail` lags behind; in the midst of a `Dequeue`
      `first` does.
     */
    ghost predicate Layout()
      reads this`blocks, this`totalsize, this`usingsize, this`outpos, this`inpos
      reads this`tailIndex, this`contents, this`peak, blocks
    {
      && Distinct(blocks) && Sized(blocks)
      && tailIndex < |blocks|
      && inpos <= BLOCK_SIZE && outpos <= BLOCK_SIZE
      && usingsize == |contents| <= peak
      && outpos + usingsize == BLOCK_SIZE * tailIndex + inpos
      && Holds(blocks, outpos, contents)
      && totalsize == BLOCK_SIZE * |blocks|
      && BLOCK_SIZE * (|blocks| - 2) <= peak
    }

    ghost predicate Valid()
      reads this, blocks
    {
      Layout() && tail == blocks[tailIndex] && first == blocks[0] && inpos < BLOCK_SIZE
    }

    constructor ()
      ensures Valid() && contents == [] && peak == 0
      ensures |blocks| == 1 && fresh(blocks[0]) && blocks[0].Length == totalsize == 4096
    {
      var block := new byte[BLOCK_SIZE](_ => 0);
      blocks := [block];
      totalsize, usingsize, inpos, outpos := BLOCK_SIZE, 0, 0, 0;
      tail, first := block, block;
      tailIndex, contents, peak := 0, [], 0;
    }

    method AddBlock()
      modifies this`blocks, this`totalsize
      ensures totalsize == old(totalsize) + 4096
      ensures |blocks| == |old(blocks)| + 1 && old(blocks) <= blocks
      ensures fresh(blocks[|old(blocks)|]) && blocks[|old(blocks)|].Length == 4096
    {
      var block := new byte[BLOCK_SIZE](_ => 0);
      totalsize := totalsize + BLOCK_SIZE;
      blocks := blocks + [block];
    }

    /** One `memcpy` of `Queue`: as much of the data as fits behind `inpos`. */
    method Fill(buffer: Block, chunk: Data)
      requires Layout() && buffer == blocks[tailIndex] && inpos + |chunk| <= BLOCK_SIZE
      modifies this`usingsize, this`inpos, this`peak, this`contents, buffer
      ensures Layout() && inpos == old(inpos) + |chunk| && contents == old(contents) + chunk
      ensures peak == Max(old(peak), usingsize)
    {
      CopyIn(buffer, inpos, chunk, blocks, tailIndex, outpos, contents);
      usingsize := usingsize + |chunk|;
      inpos := inpos + |chunk|;
      peak := Max(peak, usingsize);
      contents := contents + chunk;
    }

    /** The tail block is full: go on to its successor, which is added first if there is none. */
    method Advance(buffer: Block) returns (next: Block)
      requires Layout() && buffer == blocks[tailIndex] && inpos == BLOCK_SIZE
      modifies this`blocks, this`totalsize, this`inpos, this`tailIndex
      ensures Layout() && next == blocks[tailIndex] && inpos == 0 && tailIndex == old(tailIndex) + 1
      ensures |blocks| == Max(|old(blocks)|, tailIndex + 1)
      ensures old(blocks) <= blocks && forall b :: b in blocks ==> b in old(blocks) || fresh(b)
    {
      hide Holds, Distinct, Sized;
      inpos := 0;
      if buffer == blocks[|blocks| - 1] {
        AddBlock();
        MoreBlocks(old(blocks), blocks, outpos, contents);
      }
      PlaceIsUnique(blocks, tailIndex, buffer);
      next := blocks[IndexOf(blocks, buffer) + 1];
      tailIndex := tailIndex + 1;
    }

    /** Appends `data`; blocks are added only at the end of the list, the old ones keep their order. */
    method Queue(data: Data)
      requires Valid()
      modifies this, blocks
      ensures Valid() && contents == old(contents) + data
      ensures old(blocks) <= blocks && forall b :: b in blocks ==> b in old(blocks) || fresh(b)
      ensures peak == Max(old(peak), usingsize) && outpos == old(outpos)
      ensures |blocks| == Max(|old(blocks)|, (outpos + |contents|) / 4096 + 1)
    {
      hide Holds, Distinct, Sized;
      var nread := 0;
      var buffer := tail;
      assert contents + data[..nread] == contents;
      while nread != |data|
        invariant nread <= |data| && Layout() && buffer == blocks[tailIndex] && inpos < BLOCK_SIZE
        invariant old(blocks) <= blocks && forall b :: b in blocks ==> b in old(blocks) || fresh(b)
        invariant contents == old(contents) + data[..nread] && first == old(first)
        invariant peak == Max(old(peak), usingsize) && outpos == old(outpos)
        invariant |blocks| == Max(|old(blocks)|, tailIndex + 1)
      {
        var room := BLOCK_SIZE - inpos;
        var ncopy := if room < |data| - nread then room else |data| - nread;
        assert buffer in blocks;
        ExtendPrefix(old(contents), data, nread, nread + ncopy);
        Fill(buffer, data[nread..nread + ncopy]);
        nread := nread + ncopy;
        if inpos == BLOCK_SIZE {
          buffer := Advance(buffer);
        }
      }
      tail := buffer;
      assert data[..nread] == data;
      TailPosition(outpos + |contents|, tailIndex, inpos);
    }

    /** Copies the oldest `size` bytes out, if that many are held, and changes nothing. */
    method PeekArray(data: array<byte>, size: nat) returns (ok: bool)
      requires Valid() && data !in blocks && size <= data.Length
      modifies data
      ensures Valid()
      ensures ok == (size <= |contents|)
      ensures ok ==> data[..size] == contents[..size] && forall i :: size <= i < data.Length ==> data[i] == old(data[i])
      ensures !ok ==> data[..] == old(data[..])
    {
      if usingsize < size {
        return false;
      }
      var nread, cursor, buffer := 0, outpos, first;
      ghost var index := 0;
      while nread != size
        invariant nread <= size && 0 <= cursor <= BLOCK_SIZE && Valid()
        invariant 0 <= index < |blocks| && buffer == blocks[index]
        invariant nread < size ==> outpos + nread == BLOCK_SIZE * index + cursor
        invariant forall i :: 0 <= i < nread ==> data[i] == contents[i]
        invariant forall i :: size <= i < data.Length ==> data[i] == old(data[i])
        decreases size - nread, cursor
      {
        var ncopy := if BLOCK_SIZE - cursor < size - nread then BLOCK_SIZE - cursor else size - nread;
        CopyOut(buffer, cursor, data, nread, ncopy, blocks, index, outpos, contents, nread);
        nread := nread + ncopy;
        if nread < size {
          cursor := 0;
          buffer := blocks[IndexOf(blocks, buffer) + 1];
          index := index + 1;
        }
      }
      ok := true;
    }

    /** One `memcpy` of `DequeueArray`: the oldest `n` bytes, all in the first block, go to `data[to..]`. */
    method Take(buffer: Block, data: array<byte>, to: nat, n: nat)
      requires Layout() && buffer == blocks[0] && n <= |contents| && outpos + n <= BLOCK_SIZE
      requires data !in blocks && to + n <= data.Length
      modifies this`outpos, this`usingsize, this`contents, data
      ensures Layout() && outpos == old(outpos) + n && contents == old(contents)[n..]
      ensures forall i :: to <= i < to + n ==> data[i] == old(contents)[i - to]
      ensures forall i :: 0 <= i < to || to + n <= i < data.Length ==> data[i] == old(data[i])
    {
      hide Holds, Distinct, Sized;
      FewerBytes(blocks, outpos, contents, n);
      CopyOut(buffer, outpos, data, to, n, blocks, 0, outpos, contents, 0);
      outpos := outpos + n;
      usingsize := usingsize - n;
      contents := contents[n..];
    }

    /** The first block is read to its end and more bytes are held: it goes behind the last block. */
    method Rotate(buffer: Block) returns (next: Block)
      requires Layout() && buffer == blocks[0] && outpos == BLOCK_SIZE && |contents| > 0
      modifies this`outpos, this`blocks, this`tailIndex
      ensures Layout() && next == blocks[0] && outpos == 0
      ensures blocks == Rotated(old(blocks)) && blocks[tailIndex] == old(blocks[tailIndex])
    {
      RotatedHolds(blocks, contents);
      outpos := 0;
      next := blocks[IndexOf(blocks, buffer) + 1];
      var prev := IndexOf(blocks, next) - 1;
      blocks := blocks[..prev] + blocks[prev + 1..] + [blocks[prev]];
      assert blocks == Rotated(old(blocks));
      tailIndex := tailIndex - 1;
    }

    /** `nread` of the `size` bytes asked for are copied out and gone; `all` is what was held at the start. */
    ghost predicate Midway(buffer: Block, data: array<byte>, nread: nat, size: nat, all: Data)
      reads this, blocks, data
    {
      && Layout() && buffer == blocks[0] && tail == blocks[tailIndex] && inpos < BLOCK_SIZE
      && nread <= size <= |all| && size <= data.Length && data !in blocks
      && contents == all[nread..]
      && forall i :: 0 <= i < nread ==> data[i] == all[i]
    }

    /** The loop body of `DequeueArray`. */
    method DequeueStep(buffer: Block, data: array<byte>, nread: nat, size: nat, ghost all: Data)
        returns (next: Block, nread': nat)
      requires Midway(buffer, data, nread, size, all) && nread < size
      modifies this`outpos, this`usingsize, this`contents, this`blocks, this`tailIndex, data
      ensures Midway(next, data, nread', size, all)
      ensures multiset(blocks) == multiset(old(blocks))
      ensures nread < nread' || (nread == nread' && outpos < old(outpos))
      ensures if nread' < size then outpos == 0 && old(outpos) + (nread' - nread) == 4096
              else outpos == old(outpos) + (nread' - nread) && outpos > 0
      ensures forall i :: size <= i < data.Length ==> data[i] == old(data[i])
    {
      var ncopy := if BLOCK_SIZE - outpos < size - nread then BLOCK_SIZE - outpos else size - nread;
      DropDrop(all, nread, ncopy);
      Take(buffer, data, nread, ncopy);
      nread' := nread + ncopy;
      next := buffer;
      if nread' < size {
        RotatedIsPermutation(blocks);
        next := Rotate(buffer);
      }
    }

    /**
      Like `PeekArray`, and takes the bytes out; no block is added or lost. A first block that has just been
      read to its end stays where it is: the read position is then 4096, and not 0 in the next block.
     */
    method DequeueArray(data: array<byte>, size: nat) returns (ok: bool)
      requires Valid() && data !in blocks && size <= data.Length
      modifies this, data
      ensures Valid() && peak == old(peak)
      ensures multiset(blocks) == multiset(old(blocks))
      ensures ok == (size <= |old(contents)|)
      ensures ok ==> data[..size] == old(contents)[..size] && contents == old(contents)[size..]
      ensures ok ==> forall i :: size <= i < data.Length ==> data[i] == old(data[i])
      ensures ok && size > 0 ==> outpos == (old(outpos) + size - 1) % 4096 + 1
      ensures !ok ==> data[..] == old(data[..]) && contents == old(contents) && blocks == old(blocks)
    {
      if usingsize < size {
        return false;
      }
      hide Holds, Distinct, Sized;
      var nread, buffer := 0, first;
      ghost var turns := 0;
      while nread != size
        invariant old(outpos) + nread == 4096 * turns + outpos
        invariant 0 < nread == size ==> outpos > 0
        invariant 0 <= nread && Midway(buffer, data, nread, size, old(contents))
        invariant multiset(blocks) == multiset(old(blocks)) && peak == old(peak)
        invariant forall i :: size <= i < data.Length ==> data[i] == old(data[i])
        decreases size - nread, outpos
      {
        buffer, nread := DequeueStep(buffer, data, nread, size, old(contents));
        if nread < size { turns := turns + 1; }
      }
      first := buffer;
      ok := true;
      if size > 0 { LastPosition(old(outpos) + size, turns, outpos); }
    }

    method Empty() returns (empty: bool)
      requires Valid()
      ensures empty == (contents == [])
    {
      if usingsize == 0 {
        return true;
      }
      if tail == first {
        if inpos == outpos {
          return true;
        }
      }
      return false;
    }

    /** Forgets the bytes and keeps every block. */
    method Reset()
      requires Valid()
      modifies this
      ensures Valid() && contents == [] && blocks == old(blocks) && peak == old(peak)
    {
      inpos := 0;
      outpos := 0;
      usingsize := 0;
      tail := blocks[0];
      first := blocks[0];
      tailIndex, contents := 0, [];
    }
  }

  /** The list never holds more than two blocks beyond those the largest content so far needed. */
  lemma BlocksBounded(r: Ring)
    requires r.Valid()
    ensures |r.blocks| <= r.peak / 4096 + 2 && r.totalsize == 4096 * |r.blocks|
  {
  }

  // ---------------------------------------------------------------------------------------------
  // Every run of the ring is a run of a plain byte FIFO

  datatype Op = Enqueue(bytes: Data) | Peek(size: nat) | Dequeue(size: nat) | Clear

  datatype Answer = Silent | Refused | Got(bytes: Data)

  /** One operation of the plain FIFO: the answer, and the bytes held afterwards. */
  function Serve(held: Data, op: Op): (Answer, Data) {
    match op
    case Enqueue(bytes) => (Silent, held + bytes)
    case Peek(size) => if size <= |held| then (Got(held[..size]), held) else (Refused, held)
    case Dequeue(size) => if size <= |held| then (Got(held[..size]), held[size..]) else (Refused, held)
    case Clear => (Silent, [])
  }

  function ServeAll(held: Data, ops: seq<Op>): (seq<Answer>, Data) {
    if ops == [] then ([], held)
    else
      var (answers, h) := ServeAll(held, ops[..|ops| - 1]);
      var (answer, h') := Serve(h, ops[|ops| - 1]);
      (answers + [answer], h')
  }

  /** The largest number of bytes held before, between and after the operations. */
  function PeakOf(held: Data, ops: seq<Op>): nat {
    if ops == [] then |held|
    else Max(PeakOf(held, ops[..|ops| - 1]), |ServeAll(held, ops).1|)
  }

  lemma SameElements<T>(a: seq<T>, b: seq<T>)
    requires multiset(a) == multiset(b)
    ensures forall x :: x in a ==> x in b
  {
    forall x | x in a ensures x in b { assert x in multiset(b); }
  }

  /** Runs one operation of the ring; `data` is where the caller wants the bytes. */
  method Perform(r: Ring, op: Op) returns (answer: Answer)
    requires r.Valid()
    modifies r, set b | b in r.blocks
    ensures r.Valid() && forall b :: b in r.blocks ==> b in old(r.blocks) || fresh(b)
    ensures (answer, r.contents) == Serve(old(r.contents), op)
    ensures r.peak == Max(old(r.peak), |r.contents|)
  {
    answer := Silent;
    match op {
      case Enqueue(bytes) => r.Queue(bytes);
      case Peek(size) =>
        var data := new byte[size];
        var ok := r.PeekArray(data, size);
        answer := if ok then Got(data[..]) else Refused;
        assert ok ==> data[..] == data[..size];
      case Dequeue(size) =>
        var data := new byte[size];
        var ok := r.DequeueArray(data, size);
        answer := if ok then Got(data[..]) else Refused;
        assert ok ==> data[..] == data[..size];
        SameElements(r.blocks, old(r.blocks));
      case Clear => r.Reset();
    }
  }

  /**
    Refinement: whatever the operations, the ring answers as the plain FIFO does, and it never takes more
    than two blocks beyond those for the most bytes that FIFO held.
   */
  method Replay(r: Ring, ops: seq<Op>) returns (answers: seq<Answer>)
    requires r.Valid()
    modifies r, r.blocks
    ensures r.Valid() && (answers, r.contents) == ServeAll(old(r.contents), ops)
    ensures r.peak == Max(old(r.peak), PeakOf(old(r.contents), ops))
    ensures |r.blocks| <= Max(old(r.peak), PeakOf(old(r.contents), ops)) / 4096 + 2
  {
    answers := [];
    var i := 0;
    while i < |ops|
      invariant i <= |ops| && r.Valid()
      invariant forall b :: b in r.blocks ==> b in old(r.blocks) || fresh(b)
      invariant (answers, r.contents) == ServeAll(old(r.contents), ops[..i])
      invariant r.peak == Max(old(r.peak), PeakOf(old(r.contents), ops[..i]))
    {
      assert ops[..i + 1][..i] == ops[..i];
      var answer := Perform(r, ops[i]);
      answers := answers + [answer];
      i := i + 1;
    }
    assert ops[..i] == ops;
    BlocksBounded(r);
  }

  function Enqueued(ops: seq<Op>): seq<Data> {
    if ops == [] then []
    else Enqueued(ops[..|ops| - 1]) + PutBy(ops[|ops| - 1])
  }

  /** What the dequeues among `ops` were answered. */
  function Dequeued(ops: seq<Op>, answers: seq<Answer>): seq<Data>
    requires |answers| == |ops|
  {
    if ops == [] then []
    else
      var n := |ops| - 1;
      Dequeued(ops[..n], answers[..n]) + TakenBy(ops[n], answers[n])
  }

  /** One operation: what it takes out, then what is left, is what was held, then what it puts in. */
  lemma ServeConserves(held: Data, op: Op)
    requires !op.Clear?
    ensures var (answer, rest) := Serve(held, op);
      Concat(TakenBy(op, answer)) + rest == held + Concat(PutBy(op))
  {
    var (answer, rest) := Serve(held, op);
    assert Concat(TakenBy(op, answer)) == if op.Dequeue? && answer.Got? then answer.bytes else [];
    assert Concat(PutBy(op)) == if op.Enqueue? then op.bytes else [];
  }

  function TakenBy(op: Op, answer: Answer): seq<Data> {
    if op.Dequeue? && answer.Got? then [answer.bytes] else []
  }

  function PutBy(op: Op): seq<Data> {
    if op.Enqueue? then [op.bytes] else []
  }

  lemma Exchange(out: Data, taken: Data, rest: Data, held: Data, put: Data, all: Data)
    requires out + held == all && taken + rest == held + put
    ensures out + taken + rest == all + put
  {
    Associate(out, taken, rest);
    Associate(out, held, put);
  }

  /** Conservation: until a reset, the bytes dequeued and those still held are the bytes queued, in order. */
  lemma {:induction false} BytesConserved(ops: seq<Op>)
    requires forall op :: op in ops ==> !op.Clear?
    ensures |ServeAll([], ops).0| == |ops|
    ensures Concat(Dequeued(ops, ServeAll([], ops).0)) + ServeAll([], ops).1 == Concat(Enqueued(ops))
  {
    hide Serve, Concat, TakenBy, PutBy;
    if ops == [] {
      assert Concat([]) == [] by { NoChunks(); }
    } else {
      var n := |ops| - 1;
      BytesConserved(ops[..n]);
      var (answers, h) := ServeAll([], ops[..n]);
      var (answer, rest) := Serve(h, ops[n]);
      assert (answers + [answer])[..n] == answers;
      ConcatAppend(Dequeued(ops[..n], answers), TakenBy(ops[n], answer));
      ConcatAppend(Enqueued(ops[..n]), PutBy(ops[n]));
      ServeConserves(h, ops[n]);
      Exchange(Concat(Dequeued(ops[..n], answers)), Concat(TakenBy(ops[n], answer)), rest,
               h, Concat(PutBy(ops[n])), Concat(Enqueued(ops[..n])));
    }
  }
}
