/**
  The frame splitter of the echo server: arrivals of any size go into a circular buffer, and complete
  frames come out of it. A frame is a two-byte magic, a two-byte payload length and the payload; the
  host is little-endian.
 */
module Splitter {
  import opened Bytes
  import opened CircularBuffer
  import opened KsBuffer

  const MAGIC := 0x44aa
  const HEADER_SIZE := 4

  function MagicOf(header: Data): nat
    requires |header| >= HEADER_SIZE
  {
    Decode(header[..2])
  }

  function LengthOf(header: Data): nat
    requires |header| >= HEADER_SIZE
  {
    Decode(header[2..4])
  }

  /** The frame a sender writes; its length field keeps the low sixteen bits of the payload's length. */
  function Frame(payload: Data): Data {
    Encode(MAGIC, 2) + Encode(|payload|, 2) + payload
  }

  // ---------------------------------------------------------------------------------------------
  // What a byte stream means

  /** The stream starts with a header whose magic is wrong. */
  predicate Broken(stream: Data) { |stream| >= HEADER_SIZE && MagicOf(stream) != MAGIC }

  /** The stream starts with a complete frame. */
  predicate Ripe(stream: Data) {
    |stream| >= HEADER_SIZE && MagicOf(stream) == MAGIC && |stream| >= LengthOf(stream) + HEADER_SIZE
  }

  lemma TwoBytes(d: Data)
    requires |d| == 2
    ensures Decode(d) == d[0] as int + 256 * d[1] as int
  {
    assert Decode(d[1..]) == d[1] as int;
  }

  /** A header on the wire: aa 44, then the length, its low byte first. */
  lemma HeaderBytes(stream: Data)
    ensures Broken(stream) <==> |stream| >= 4 && (stream[0] != 0xaa || stream[1] != 0x44)
    ensures Ripe(stream) <==>
      && |stream| >= 4 && stream[0] == 0xaa && stream[1] == 0x44
      && |stream| >= 4 + stream[2] as int + 256 * stream[3] as int
    ensures |stream| >= 4 ==> LengthOf(stream) == stream[2] as int + 256 * stream[3] as int
  {
    hide Decode;
    if |stream| >= 4 {
      TwoBytes(stream[..2]);
      TwoBytes(stream[2..4]);
    }
  }

  /** What a sender puts on the wire. */
  lemma FrameBytes(payload: Data)
    ensures |Frame(payload)| == 4 + |payload| && Frame(payload)[4..] == payload
    ensures Frame(payload)[0] == 0xaa && Frame(payload)[1] == 0x44
    ensures Frame(payload)[2] as int == |payload| % 256 && Frame(payload)[3] as int == |payload| / 256 % 256
  {
    hide Encode;
    assert Power256(0) == 1 && Power256(1) == 256;
    EncodedByte(MAGIC, 2, 0);
    EncodedByte(MAGIC, 2, 1);
    EncodedByte(|payload|, 2, 0);
    EncodedByte(|payload|, 2, 1);
  }

  datatype Deframed = Deframed(frames: seq<Data>, rest: Data)

  /** The complete frames at the start of a stream, and what is left behind them. */
  function Deframe(stream: Data): Deframed
    decreases |stream|
  {
    if !Ripe(stream) then Deframed([], stream)
    else
      var n := LengthOf(stream) + HEADER_SIZE;
      var d := Deframe(stream[n..]);
      Deframed([stream[..n]] + d.frames, d.rest)
  }

  /** Taking arrivals one by one: each goes behind the rest, and whatever is ripe then comes out. */
  function Feed(state: Deframed, chunks: seq<Data>): Deframed {
    if chunks == [] then state
    else
      var s := Feed(state, chunks[..|chunks| - 1]);
      var d := Deframe(s.rest + chunks[|chunks| - 1]);
      Deframed(s.frames + d.frames, d.rest)
  }

  predicate IsFrame(f: Data) { Ripe(f) && |f| == LengthOf(f) + HEADER_SIZE }

  lemma RipeExtends(a: Data, b: Data)
    requires Ripe(a)
    ensures Ripe(a + b) && LengthOf(a + b) == LengthOf(a)
  {
    assert (a + b)[..2] == a[..2] && (a + b)[2..4] == a[2..4];
  }

  lemma FrameComesFirst(before: seq<Data>, stream: Data)
    requires Ripe(stream)
    ensures var n := LengthOf(stream) + HEADER_SIZE;
      && Deframe(stream).frames == [stream[..n]] + Deframe(stream[n..]).frames
      && before + Deframe(stream).frames == before + [stream[..n]] + Deframe(stream[n..]).frames
      && Deframe(stream).rest == Deframe(stream[n..]).rest
  {
    hide Decode;
    var n := LengthOf(stream) + HEADER_SIZE;
    Associate(before, [stream[..n]], Deframe(stream[n..]).frames);
  }

  lemma NothingComesOut(before: seq<Data>, stream: Data)
    requires !Ripe(stream)
    ensures Deframe(stream) == Deframed([], stream) && before + Deframe(stream).frames == before
  {
    hide Ripe;
  }

  /** Deframing in two steps is deframing at once. */
  lemma {:induction false} DeframeInTwo(a: Data, b: Data)
    ensures Deframe(a + b)
         == Deframed(Deframe(a).frames + Deframe(Deframe(a).rest + b).frames, Deframe(Deframe(a).rest + b).rest)
    decreases |a|
  {
    if Ripe(a) {
      RipeExtends(a, b);
      var n := LengthOf(a) + HEADER_SIZE;
      DeframeInTwo(a[n..], b);
      assert (a + b)[n..] == a[n..] + b && (a + b)[..n] == a[..n];
      Associate([a[..n]], Deframe(a[n..]).frames, Deframe(Deframe(a).rest + b).frames);
    } else {
      assert [] + Deframe(a + b).frames == Deframe(a + b).frames;
    }
  }

  /** Chunking independence: however a stream is cut into arrivals, the same frames come out and the same bytes stay. */
  lemma {:induction false} ChunkingIndependence(chunks: seq<Data>)
    ensures Feed(Deframed([], []), chunks) == Deframe(Concat(chunks))
  {
    if chunks != [] {
      var n := |chunks| - 1;
      ChunkingIndependence(chunks[..n]);
      ConcatAppend(chunks[..n], [chunks[n]]);
      assert chunks == chunks[..n] + [chunks[n]];
      assert Concat([chunks[n]]) == chunks[n];
      DeframeInTwo(Concat(chunks[..n]), chunks[n]);
    }
  }

  /** After the first wrong magic no further arrival yields a frame; the bytes just pile up. */
  lemma {:induction false} BrokenForGood(state: Deframed, chunks: seq<Data>)
    requires Broken(state.rest)
    ensures Feed(state, chunks) == Deframed(state.frames, state.rest + Concat(chunks))
  {
    if chunks == [] {
      assert state.rest + [] == state.rest;
    } else {
      var n := |chunks| - 1;
      BrokenForGood(state, chunks[..n]);
      ConcatAppend(chunks[..n], [chunks[n]]);
      assert chunks == chunks[..n] + [chunks[n]];
      assert Concat([chunks[n]]) == chunks[n];
      Associate(state.rest, Concat(chunks[..n]), chunks[n]);
      var all := state.rest + Concat(chunks);
      assert all[..2] == state.rest[..2];
      assert state.frames + [] == state.frames;
    }
  }

  lemma {:induction false} DeframeRebuilds(stream: Data)
    ensures Concat(Deframe(stream).frames) + Deframe(stream).rest == stream
    decreases |stream|
  {
    hide Ripe, LengthOf, Deframe, Concat;
    if Ripe(stream) {
      RipeHasFrame(stream);
      FrameComesFirst([], stream);
      var n := LengthOf(stream) + HEADER_SIZE;
      DeframeRebuilds(stream[n..]);
      var d := Deframe(stream[n..]);
      ConcatFirst(stream[..n], d.frames);
      Associate(stream[..n], Concat(d.frames), d.rest);
    } else {
      NothingComesOut([], stream);
      assert Concat([]) == [] by { NoChunks(); }
    }
  }

  lemma {:induction false} DeframedAreFrames(stream: Data)
    ensures forall f :: f in Deframe(stream).frames ==> IsFrame(f)
    decreases |stream|
  {
    hide Ripe, LengthOf, IsFrame;
    if Ripe(stream) {
      RipeHasFrame(stream);
      DeframedAreFrames(stream[LengthOf(stream) + HEADER_SIZE..]);
    }
  }

  /** What comes out first is a frame. */
  lemma RipeHasFrame(stream: Data)
    requires Ripe(stream)
    ensures HEADER_SIZE <= |stream| && LengthOf(stream) + HEADER_SIZE <= |stream|
    ensures IsFrame(stream[..LengthOf(stream) + HEADER_SIZE])
  {
    hide Decode;
    var n := LengthOf(stream) + HEADER_SIZE;
    assert stream[..n][..2] == stream[..2] && stream[..n][2..4] == stream[2..4];
  }

  lemma {:induction false} RestIsNotRipe(stream: Data)
    ensures !Ripe(Deframe(stream).rest)
    decreases |stream|
  {
    hide Decode;
    if Ripe(stream) { RestIsNotRipe(stream[LengthOf(stream) + HEADER_SIZE..]); }
  }

  /** Frames plus rest are the stream; every frame is one, and the rest does not start with another. */
  lemma DeframeSplits(stream: Data)
    ensures Concat(Deframe(stream).frames) + Deframe(stream).rest == stream
    ensures forall f :: f in Deframe(stream).frames ==> IsFrame(f)
    ensures !Ripe(Deframe(stream).rest)
  {
    hide Concat, Deframe, IsFrame, Ripe;
    DeframeRebuilds(stream);
    DeframedAreFrames(stream);
    RestIsNotRipe(stream);
  }

  /** And `Deframe` is the only such splitting. */
  lemma {:induction false} DeframeIsUnique(frames: seq<Data>, rest: Data)
    requires forall f :: f in frames ==> IsFrame(f)
    requires !Ripe(rest)
    ensures Deframe(Concat(frames) + rest) == Deframed(frames, rest)
  {
    if frames == [] {
      assert [] + rest == rest;
    } else {
      var f := frames[0];
      assert f in frames;
      DeframeIsUnique(frames[1..], rest);
      var tail := Concat(frames[1..]) + rest;
      Associate(f, Concat(frames[1..]), rest);
      RipeExtends(f, tail);
      assert (f + tail)[..|f|] == f && (f + tail)[|f|..] == tail;
      assert frames == [f] + frames[1..];
    }
  }

  lemma FrameFields(payload: Data)
    ensures |Frame(payload)| == HEADER_SIZE + |payload|
    ensures MagicOf(Frame(payload)) == MAGIC && LengthOf(Frame(payload)) == |payload| % 0x10000
  {
    var f := Frame(payload);
    assert f[..2] == Encode(MAGIC, 2) && f[2..4] == Encode(|payload|, 2);
    DecodeEncode(MAGIC, 2);
    DecodeEncode(|payload|, 2);
    assert Power256(2) == 0x10000 by { assert Power256(1) == 256 * Power256(0); }
  }

  function Frames(payloads: seq<Data>): seq<Data> {
    if payloads == [] then [] else [Frame(payloads[0])] + Frames(payloads[1..])
  }

  lemma {:induction false} FramesAreFrames(payloads: seq<Data>)
    requires forall p :: p in payloads ==> |p| <= 65535
    ensures forall f :: f in Frames(payloads) ==> IsFrame(f)
  {
    if payloads != [] {
      assert payloads[0] in payloads;
      FrameFields(payloads[0]);
      FramesAreFrames(payloads[1..]);
    }
  }

  /** Frames sent with payloads of up to 65535 bytes come back exactly, in order, with nothing left over. */
  lemma SentFramesComeBack(payloads: seq<Data>, chunks: seq<Data>)
    requires forall p :: p in payloads ==> |p| <= 65535
    requires Concat(chunks) == Concat(Frames(payloads))
    ensures Feed(Deframed([], []), chunks) == Deframed(Frames(payloads), [])
  {
    FramesAreFrames(payloads);
    DeframeIsUnique(Frames(payloads), []);
    assert Concat(Frames(payloads)) + [] == Concat(Frames(payloads));
    ChunkingIndependence(chunks);
  }

  /** A larger payload does not survive: its length field is cut to sixteen bits. */
  lemma FrameComesBackIff(payload: Data)
    ensures Deframe(Frame(payload)) == Deframed([Frame(payload)], []) <==> |payload| <= 65535
  {
    var f := Frame(payload);
    FrameFields(payload);
    if |payload| <= 65535 {
      DeframeIsUnique([f], []);
      assert Concat([f]) + [] == f;
    } else {
      assert |Deframe(f).frames[0]| < |f|;
    }
  }

  // ---------------------------------------------------------------------------------------------
  // The splitter itself

  class Connection {
    const split: Ring
    var received: seq<Data>    // what the `received` callback was given, frame by frame
    var closeCalls: nat        // calls of `ks_socket_close`

    ghost predicate Valid()
      reads this, split, split.blocks
    {
      split.Valid()
    }

    constructor ()
      ensures Valid() && fresh(split) && fresh(set b | b in split.blocks)
      ensures split.contents == [] && received == [] && closeCalls == 0
    {
      split := new Ring();
      received := [];
      closeCalls := 0;
    }

    /** The `arrived` callback. */
    method Arrived(data: Data)
      requires Valid()
      modifies this, split, set b | b in split.blocks
      ensures Valid() && forall b :: b in split.blocks ==> b in old(split.blocks) || fresh(b)
      ensures split.contents == Deframe(old(split.contents) + data).rest
      ensures received == old(received) + Deframe(old(split.contents) + data).frames
      ensures closeCalls == old(closeCalls) + if Broken(split.contents) then 1 else 0
    {
      hide Deframe;
      split.Queue(data);
      while true
        invariant Valid() && forall b :: b in split.blocks ==> b in old(split.blocks) || fresh(b)
        invariant closeCalls == old(closeCalls)
        invariant Deframe(old(split.contents) + data).rest == Deframe(split.contents).rest
        invariant old(received) + Deframe(old(split.contents) + data).frames
          == received + Deframe(split.contents).frames
        decreases |split.contents|
      {
        var peeked, magic, length := PeekHeader();
        if !peeked {
          NothingComesOut(received, split.contents);
          return;
        }
        if magic != MAGIC {
          NothingComesOut(received, split.contents);
          closeCalls := closeCalls + 1;
          return;
        }
        var size := length + HEADER_SIZE;
        if split.usingsize < size {
          NothingComesOut(received, split.contents);
          return;
        }
        FrameComesFirst(received, split.contents);
        var frame := TakeFrame(size);
        received := received + [frame];
      }
    }

    /** Looks at the header of the next frame, if it is there. */
    method PeekHeader() returns (ok: bool, magic: nat, length: nat)
      requires Valid()
      ensures ok == (|split.contents| >= HEADER_SIZE)
      ensures ok ==> magic == MagicOf(split.contents) && length == LengthOf(split.contents)
    {
      var header := new byte[HEADER_SIZE];
      ok := split.PeekArray(header, HEADER_SIZE);
      magic, length := Decode(header[..2]), Decode(header[2..4]);
      assert header[..2] == header[..4][..2] && header[2..4] == header[..4][2..4];
      if ok {
        assert split.contents[..4][..2] == split.contents[..2] && split.contents[..4][2..4] == split.contents[2..4];
      }
    }

    /** Dequeues `size` bytes into a fresh buffer, and hands out what the buffer then shows. */
    method TakeFrame(size: nat) returns (frame: Data)
      requires Valid() && size <= |split.contents|
      modifies split, set b | b in split.blocks
      ensures Valid() && forall b :: b in split.blocks ==> b in old(split.blocks) || fresh(b)
      ensures frame == old(split.contents)[..size] && split.contents == old(split.contents)[size..]
    {
      var buffer := new Buffer();
      var _ := buffer.AddRef();
      buffer.Reserve(size);
      var dequeued := split.DequeueArray(buffer.GetData(), size);
      assert dequeued;
      forall b | b in split.blocks ensures b in old(split.blocks) { assert b in multiset(old(split.blocks)); }
      buffer.usingsize := buffer.usingsize + size;
      frame := buffer.GetData()[..buffer.usingsize];
    }
  }

  /** A whole connection: whatever the arrivals, the callback has seen the frames of the stream, and no others. */
  method ReceiveAll(chunks: seq<Data>) returns (c: Connection)
    ensures c.Valid()
    ensures c.received == Deframe(Concat(chunks)).frames && c.split.contents == Deframe(Concat(chunks)).rest
  {
    c := new Connection();
    var i := 0;
    while i < |chunks|
      invariant i <= |chunks| && c.Valid() && fresh(c) && fresh(c.split) && fresh(set b | b in c.split.blocks)
      invariant Deframed(c.received, c.split.contents) == Feed(Deframed([], []), chunks[..i])
    {
      assert chunks[..i + 1][..i] == chunks[..i];
      c.Arrived(chunks[i]);
      i := i + 1;
    }
    assert chunks[..i] == chunks;
    ChunkingIndependence(chunks);
  }
}
