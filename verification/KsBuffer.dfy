/** `ks_buffer`: 512 inline bytes that move to a heap block, and from block to larger block, as they are outgrown. */
module KsBuffer {
  import opened Bytes

  const DEFAULT_DATA_SIZE := 512

  /** The `align_size` macro. */
  function Align(size: nat, align: nat): nat
    requires align > 0
  {
    if size % align == 0 then size else (size / align + 1) * align
  }

  /** `Align` gives the least multiple that holds `size` bytes. */
  lemma AlignIsLeast(size: nat)
    ensures size <= Align(size, DEFAULT_DATA_SIZE) < size + 512 && Align(size, DEFAULT_DATA_SIZE) % 512 == 0
  {
  }

  function Min(a: nat, b: nat): nat { if a < b then a else b }

  /** The capacity after room for `needed` bytes was asked of a capacity of `total`. */
  function Grown(total: nat, needed: nat): nat {
    if needed > total then Align(needed, DEFAULT_DATA_SIZE) else total
  }

  /** That is the old capacity if it is enough, and otherwise the least multiple of 512 that is. */
  lemma GrownIsLeast(total: nat, needed: nat)
    requires total % 512 == 0
    ensures var grown := Grown(total, needed);
      && total <= grown && needed <= grown && grown % 512 == 0
      && forall n: nat :: total <= n && needed <= n && n % 512 == 0 ==> grown <= n
  {
    AlignIsLeast(needed);
  }

  class Buffer {
    var refcount: int
    const data: array<byte>
    var data2: array?<byte>
    var totalsize: nat
    var usingsize: nat
    ghost var users: nat     // references held by users of a container's pool

    ghost predicate Valid()
      reads this
    {
      && data.Length == DEFAULT_DATA_SIZE
      && totalsize == (if data2 == null then DEFAULT_DATA_SIZE else data2.Length)
      && totalsize % DEFAULT_DATA_SIZE == 0
      && usingsize <= totalsize
      && data2 != data
    }

    /** What the buffer shows: the first `usingsize` bytes behind `ks_buffer_getdata`. */
    ghost function Contents(): Data
      reads this, data, data2
      requires Valid()
    {
      GetData()[..usingsize]
    }

    function GetData(): (d: array<byte>)
      reads this
    {
      if data2 != null then data2 else data
    }

    constructor ()
      ensures Valid() && fresh(data) && data2 == null
      ensures refcount == 0 && users == 0 && totalsize == 512 && Contents() == []
    {
      refcount := 0;
      data := new byte[DEFAULT_DATA_SIZE];
      data2 := null;
      totalsize := DEFAULT_DATA_SIZE;
      usingsize := 0;
      users := 0;
    }

    /** Growing keeps the bytes in use, whichever block they are in, and never shrinks. */
    method Reserve(size: nat)
      requires Valid()
      modifies this
      ensures Valid() && (data2 == old(data2) || fresh(data2))
      ensures Contents() == old(Contents()) && refcount == old(refcount) && users == old(users)
      ensures totalsize == Grown(old(totalsize), usingsize + size) >= usingsize + size
      ensures old(totalsize) >= usingsize + size ==> data2 == old(data2)
    {
      var needed := usingsize + size;
      AlignIsLeast(needed);
      if data2 != null {
        if needed > totalsize {
          var aligned := Align(needed, DEFAULT_DATA_SIZE);
          var grown := new byte[aligned];
          forall i | 0 <= i < totalsize { grown[i] := data2[i]; }
          totalsize := aligned;
          data2 := grown;
        }
      } else if totalsize < needed {
        totalsize := Align(needed, DEFAULT_DATA_SIZE);
        var moved := new byte[totalsize];
        forall i | 0 <= i < usingsize { moved[i] := data[i]; }
        data2 := moved;
      }
    }

    /** Bytes already there stay, up to the new size; bytes beyond them are whatever the block held. */
    method SetSize(size: nat)
      requires Valid()
      modifies this
      ensures Valid() && (data2 == old(data2) || fresh(data2)) && refcount == old(refcount)
      ensures usingsize == size && users == old(users)
      ensures totalsize == Grown(old(totalsize), old(usingsize) + size)
      ensures Contents()[..Min(size, old(usingsize))] == old(Contents())[..Min(size, old(usingsize))]
    {
      Reserve(size);
      usingsize := size;
    }

    method Write(bytes: Data)
      requires Valid()
      modifies this, data, data2
      ensures Valid() && (data2 == old(data2) || fresh(data2)) && refcount == old(refcount)
      ensures Contents() == old(Contents()) + bytes && users == old(users)
      ensures totalsize == Grown(old(totalsize), |old(Contents())| + |bytes|)
    {
      Reserve(|bytes|);
      var dst := GetData();
      forall i | 0 <= i < |bytes| { dst[usingsize + i] := bytes[i]; }
      usingsize := usingsize + |bytes|;
    }

    method Reset()
      requires Valid()
      modifies this
      ensures Valid() && data2 == null && refcount == old(refcount)
      ensures Contents() == [] && totalsize == 512 && users == old(users)
    {
      data2 := null;
      totalsize := DEFAULT_DATA_SIZE;
      usingsize := 0;
    }

    /** The first reference also resets the buffer. */
    method AddRef() returns (count: int)
      requires Valid()
      modifies this
      ensures Valid() && count == refcount == old(refcount) + 1 && users == old(users)
      ensures refcount == 1 ==> Contents() == [] && data2 == null && totalsize == 512
      ensures refcount != 1 ==> data2 == old(data2) && Contents() == old(Contents()) && totalsize == old(totalsize)
    {
      refcount := refcount + 1;
      count := refcount;
      if count == 1 { Reset(); }
    }

    method DecRef() returns (last: bool)
      requires Valid()
      modifies this`refcount
      ensures Valid() && refcount == old(refcount) - 1 && last == (refcount <= 0)
      ensures Contents() == old(Contents())
    {
      refcount := refcount - 1;
      last := refcount <= 0;
    }
  }

  /** A use of the buffer, for statements about whole runs. */
  datatype Use = Reserving(size: nat) | Writing(bytes: Data) | Resetting

  /** What has been written since the latest reset of a run that began with `before` in the buffer. */
  function Written(before: Data, uses: seq<Use>): Data {
    if uses == [] then before
    else
      var u := uses[|uses| - 1];
      var d := Written(before, uses[..|uses| - 1]);
      match u
      case Reserving(_) => d
      case Writing(bytes) => d + bytes
      case Resetting => []
  }

  function Writes(uses: seq<Use>): seq<Data> {
    if uses == [] then []
    else Writes(uses[..|uses| - 1]) + (if uses[|uses| - 1].Writing? then [uses[|uses| - 1].bytes] else [])
  }

  /** Without a reset in it, a run appends the concatenation of its writes, however the reserves are mixed in. */
  lemma {:induction false} WrittenSinceReset(before: Data, uses: seq<Use>)
    requires forall u :: u in uses ==> !u.Resetting?
    ensures Written(before, uses) == before + Concat(Writes(uses))
    ensures Written(before, [Resetting] + uses) == Concat(Writes(uses))
    decreases |uses|
  {
    hide Concat, Written, Writes;
    NothingWritten(before);
    NothingWritten([]);
    WrittenAfterReset(before, uses);
    if uses != [] {
      var n := |uses| - 1;
      WrittenSinceReset(before, uses[..n]);
      WrittenSinceReset([], uses[..n]);
      LastUse(before, uses);
      LastUse([], uses);
    }
    assert [] + Concat(Writes(uses)) == Concat(Writes(uses));
  }

  lemma NothingWritten(before: Data)
    ensures Written(before, []) == before && before + Concat(Writes([])) == before
  {
  }

  /** What was there before a reset does not matter. */
  lemma {:induction false} WrittenAfterReset(before: Data, uses: seq<Use>)
    ensures Written(before, [Resetting] + uses) == Written([], uses)
  {
    var all := [Resetting] + uses;
    if uses == [] {
      assert all[..|all| - 1] == [];
    } else {
      var n := |uses| - 1;
      WrittenAfterReset(before, uses[..n]);
      assert all[..|all| - 1] == [Resetting] + uses[..n];
    }
  }

  /** One more use that is no reset. */
  lemma LastUse(before: Data, uses: seq<Use>)
    requires uses != [] && !uses[|uses| - 1].Resetting?
    requires var init := uses[..|uses| - 1]; Written(before, init) == before + Concat(Writes(init))
    ensures Written(before, uses) == before + Concat(Writes(uses))
  {
    hide Concat;
    var init, u := uses[..|uses| - 1], uses[|uses| - 1];
    var bytes := if u.Writing? then [u.bytes] else [];
    assert Writes(uses) == Writes(init) + bytes;
    ConcatAppend(Writes(init), bytes);
    OneChunk(u);
  }

  lemma OneChunk(u: Use)
    ensures Concat(if u.Writing? then [u.bytes] else []) == if u.Writing? then u.bytes else []
  {
  }

  /** Any run of uses leaves exactly `Written` in the buffer, across the move to the heap and every regrow. */
  method Replay(b: Buffer, uses: seq<Use>)
    requires b.Valid()
    modifies b, b.data, b.data2
    ensures b.Valid() && b.Contents() == Written(old(b.Contents()), uses)
  {
    var i := 0;
    while i < |uses|
      invariant i <= |uses| && b.Valid()
      invariant b.data2 == old(b.data2) || b.data2 == null || fresh(b.data2)
      invariant b.Contents() == Written(old(b.Contents()), uses[..i])
    {
      assert uses[..i + 1][..i] == uses[..i];
      match uses[i] {
        case Reserving(size) => b.Reserve(size);
        case Writing(bytes) => b.Write(bytes);
        case Resetting => b.Reset();
      }
      i := i + 1;
    }
    assert uses[..i] == uses;
  }
}
