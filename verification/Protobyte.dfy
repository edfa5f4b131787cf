/**
  Protobyte: a tagged binary format. `Writer` collects members and serializes them, `Reader` takes
  them out of arbitrary bytes again. Integers are stored in the order of a little-endian host; floats
  and doubles are the four and eight bytes they consist of.
 */
module Protobyte {
  import opened Bytes

  datatype Option<T> = None | Some(value: T)

  datatype Kind = Bool | Char | UChar | Int32 | UInt32 | Int64 | UInt64 | Float | Double

  const WORD := 0x1_0000_0000        // 2^32
  const INT_MAX := 0x7fff_ffff

  function Width(k: Kind): nat {
    match k
    case Bool => 1
    case Char => 1
    case UChar => 1
    case Int32 => 4
    case UInt32 => 4
    case Int64 => 8
    case UInt64 => 8
    case Float => 4
    case Double => 8
  }

  predicate Signed(k: Kind) { k.Char? || k.Int32? || k.Int64? }

  function Tag(k: Kind): byte {
    match k
    case Bool => 1
    case Char => 2
    case UChar => 3
    case Int32 => 4
    case UInt32 => 5
    case Int64 => 6
    case UInt64 => 7
    case Float => 8
    case Double => 9
  }

  const STRING_TAG: byte := 10
  const BLOB_TAG: byte := 11
  const ARRAY_TAG: byte := 12

  /**
    A member as it is kept. The characters of a string include the terminator; an array's `size` has
    gone through a cast to 32 bits, its elements have not.
   */
  datatype Member =
    | Scalar(kind: Kind, value: int)
    | String(chars: Data)
    | Blob(data: Data)
    | Array(nelts: nat, size: nat, elts: Data)

  predicate InRange(k: Kind, v: int) {
    if Signed(k) then FitsSigned(v, Width(k)) else 0 <= v < Power256(Width(k))
  }

  /** `data->size * data->nelts`, in 32-bit unsigned arithmetic. */
  function Product32(nelts: nat, size: nat): (p: nat)
    ensures p < WORD
  {
    nelts * size % WORD
  }

  /** What the pushes leave behind, for any value the C types admit. */
  predicate Kept(m: Member) {
    match m
    case Scalar(k, v) => InRange(k, v)
    case String(chars) => 0 < |chars| <= INT_MAX && chars[|chars| - 1] == 0 && 0 !in chars[..|chars| - 1]
    case Blob(data) => |data| <= INT_MAX
    case Array(nelts, size, elts) => nelts <= INT_MAX && size < WORD && Product32(nelts, size) == |elts| % WORD
  }

  predicate AllKept(ms: seq<Member>) { forall m :: m in ms ==> Kept(m) }

  /** `ks_protobyte_data_size` */
  function DataSize(m: Member): nat {
    match m
    case Scalar(k, _) => 1 + Width(k)
    case String(chars) => 5 + |chars|
    case Blob(data) => 5 + |data|
    case Array(nelts, size, _) => 9 + Product32(nelts, size)
  }

  /** What a push adds to `usingsize`: an array's product is taken in 64 bits there. */
  function PushedSize(m: Member): nat {
    if m.Array? then 9 + |m.elts| else DataSize(m)
  }

  function Total(ms: seq<Member>): nat {
    if ms == [] then 0 else Total(ms[..|ms| - 1]) + DataSize(ms[|ms| - 1])
  }

  function PushedTotal(ms: seq<Member>): nat {
    if ms == [] then 0 else PushedTotal(ms[..|ms| - 1]) + PushedSize(ms[|ms| - 1])
  }

  function Prefix(d: Data, n: nat): Data { if n <= |d| then d[..n] else d }

  /** The bytes of one member. */
  function EncodeMember(m: Member): Data {
    match m
    case Scalar(k, v) => [Tag(k)] + Encode(ToUnsigned(v, Width(k)), Width(k))
    case String(chars) => [STRING_TAG] + Encode(|chars|, 4) + chars
    case Blob(data) => [BLOB_TAG] + Encode(|data|, 4) + data
    case Array(nelts, size, elts) =>
      [ARRAY_TAG] + Encode(nelts, 4) + Encode(size, 4) + Prefix(elts, Product32(nelts, size))
  }

  function EncodeAll(ms: seq<Member>): Data {
    if ms == [] then [] else EncodeAll(ms[..|ms| - 1]) + EncodeMember(ms[|ms| - 1])
  }

  // ---------------------------------------------------------------------------------------------
  // Sizes

  lemma ProductFits(m: Member)
    requires Kept(m) && m.Array?
    ensures Product32(m.nelts, m.size) <= |m.elts|
    ensures Product32(m.nelts, m.size) == |m.elts| <==> |m.elts| < WORD
  {
  }

  lemma MemberSize(m: Member)
    requires Kept(m)
    ensures |EncodeMember(m)| == DataSize(m)
  {
    if m.Array? { ProductFits(m); }
  }

  lemma {:induction false} EncodingSize(ms: seq<Member>)
    requires AllKept(ms)
    ensures |EncodeAll(ms)| == Total(ms)
  {
    if ms != [] {
      var n := |ms| - 1;
      assert ms[n] in ms && forall m :: m in ms[..n] ==> m in ms;
      EncodingSize(ms[..n]);
      MemberSize(ms[n]);
    }
  }

  predicate Fits32(m: Member) { m.Array? ==> |m.elts| < WORD }

  /** The size kept by the pushes is the size of the encoding exactly if no array outgrows 32 bits. */
  lemma {:induction false} SizesAgreeIff(ms: seq<Member>)
    requires AllKept(ms)
    ensures Total(ms) <= PushedTotal(ms)
    ensures PushedTotal(ms) == Total(ms) <==> forall m :: m in ms ==> Fits32(m)
  {
    hide Fits32, DataSize, PushedSize, Kept;
    if ms != [] {
      var n := |ms| - 1;
      assert ms[n] in ms && forall m :: m in ms[..n] ==> m in ms;
      SizesAgreeIff(ms[..n]);
      OneSizeAgrees(ms[n]);
      assert forall m :: m in ms ==> m == ms[n] || m in ms[..n];
    }
  }

  lemma OneSizeAgrees(m: Member)
    requires Kept(m)
    ensures DataSize(m) <= PushedSize(m) && (DataSize(m) == PushedSize(m) <==> Fits32(m))
  {
    if m.Array? { ProductFits(m); }
  }

  lemma {:induction false} EncodeAllConcat(a: seq<Member>, b: seq<Member>)
    ensures EncodeAll(a + b) == EncodeAll(a) + EncodeAll(b)
  {
    if b == [] {
      assert a + b == a;
    } else {
      var n := |b| - 1;
      EncodeAllConcat(a, b[..n]);
      assert (a + b)[..|a + b| - 1] == a + b[..n];
      Associate(EncodeAll(a), EncodeAll(b[..n]), EncodeMember(b[n]));
    }
  }

  lemma EncodeFirst(m: Member, ms: seq<Member>)
    ensures EncodeAll([m] + ms) == EncodeMember(m) + EncodeAll(ms)
  {
    hide EncodeAll, EncodeMember;
    EncodeAllConcat([m], ms);
    EncodeOne(m);
  }

  lemma EncodeOne(m: Member)
    ensures EncodeAll([m]) == EncodeMember(m)
  {
    hide EncodeMember;
    assert [m][..0] == [];
    assert EncodeAll([]) == [];
  }

  /** The cast of `size` to 32 bits does not change the 32-bit product. */
  lemma CastKeepsProduct(nelts: nat, size: nat)
    ensures Product32(nelts, size % WORD) == nelts * size % WORD
  {
    var q, r := size / WORD, size % WORD;
    var a, b := nelts * r / WORD, nelts * r % WORD;
    assert nelts * size == nelts * (q * WORD + r) == (nelts * q) * WORD + nelts * r;
    assert nelts * size == (nelts * q + a) * WORD + b;
    DivModUnique(nelts * size, WORD, nelts * q + a, b);
  }

  // ---------------------------------------------------------------------------------------------
  // The bytes of a member, one by one

  /** `v` stands at `at` in `n` bytes, that of the least weight first, negative numbers in two's complement. */
  ghost predicate NumberAt(d: Data, at: nat, v: int, n: nat) {
    at + n <= |d| && forall i :: 0 <= i < n ==> d[at + i] as int == v / Power256(i) % 256
  }

  ghost predicate BytesAt(d: Data, at: nat, bytes: Data) { at + |bytes| <= |d| && d[at..at + |bytes|] == bytes }

  /** Tag, numbers and bytes of a member from position `at` on. */
  ghost predicate MemberAt(d: Data, at: nat, m: Member) {
    match m
    case Scalar(k, v) => NumberAt(d, at, Tag(k) as int, 1) && NumberAt(d, at + 1, v, Width(k))
    case String(chars) => NumberAt(d, at, 10, 1) && NumberAt(d, at + 1, |chars|, 4) && BytesAt(d, at + 5, chars)
    case Blob(data) => NumberAt(d, at, 11, 1) && NumberAt(d, at + 1, |data|, 4) && BytesAt(d, at + 5, data)
    case Array(nelts, size, elts) =>
      && NumberAt(d, at, 12, 1) && NumberAt(d, at + 1, nelts, 4) && NumberAt(d, at + 5, size, 4)
      && nelts * size % 0x1_0000_0000 <= |elts| && BytesAt(d, at + 9, elts[..nelts * size % 0x1_0000_0000])
  }

  lemma SignedIsThere(d: Data, at: nat, v: int, n: nat)
    requires BytesAt(d, at, Encode(ToUnsigned(v, n), n))
    ensures NumberAt(d, at, v, n)
  {
    forall i | 0 <= i < n ensures d[at + i] as int == v / Power256(i) % 256 {
      assert d[at + i] == d[at..at + n][i];
      StoredByte(v, n, i);
    }
  }

  lemma CountIsThere(d: Data, at: nat, v: nat, n: nat)
    requires BytesAt(d, at, Encode(v, n))
    ensures NumberAt(d, at, v, n)
  {
    forall i | 0 <= i < n ensures d[at + i] as int == v / Power256(i) % 256 {
      assert d[at + i] == d[at..at + n][i];
      EncodedByte(v, n, i);
    }
  }

  lemma TagIsThere(d: Data, at: nat, tag: byte)
    requires BytesAt(d, at, [tag])
    ensures NumberAt(d, at, tag as int, 1)
  {
    assert d[at] == d[at..at + 1][0] && Power256(0) == 1;
  }

  lemma BothThere(d: Data, at: nat, x: Data, y: Data)
    requires BytesAt(d, at, x + y)
    ensures BytesAt(d, at, x) && BytesAt(d, at + |x|, y)
  {
    var e := d[at..at + |x + y|];
    assert d[at..at + |x|] == e[..|x|] && d[at + |x|..at + |x| + |y|] == e[|x|..];
  }

  lemma CountedIsThere(d: Data, at: nat, tag: byte, bytes: Data)
    requires BytesAt(d, at, [tag] + Encode(|bytes|, 4) + bytes)
    ensures NumberAt(d, at, tag as int, 1) && NumberAt(d, at + 1, |bytes|, 4) && BytesAt(d, at + 5, bytes)
  {
    hide NumberAt, BytesAt, Encode;
    BothThere(d, at, [tag] + Encode(|bytes|, 4), bytes);
    BothThere(d, at, [tag], Encode(|bytes|, 4));
    TagIsThere(d, at, tag);
    CountIsThere(d, at + 1, |bytes|, 4);
  }

  lemma ArrayIsThere(d: Data, at: nat, nelts: nat, size: nat, bytes: Data)
    requires BytesAt(d, at, [ARRAY_TAG] + Encode(nelts, 4) + Encode(size, 4) + bytes)
    ensures NumberAt(d, at, 12, 1) && NumberAt(d, at + 1, nelts, 4) && NumberAt(d, at + 5, size, 4)
    ensures BytesAt(d, at + 9, bytes)
  {
    hide NumberAt, BytesAt, Encode;
    BothThere(d, at, [ARRAY_TAG] + Encode(nelts, 4) + Encode(size, 4), bytes);
    BothThere(d, at, [ARRAY_TAG] + Encode(nelts, 4), Encode(size, 4));
    BothThere(d, at, [ARRAY_TAG], Encode(nelts, 4));
    TagIsThere(d, at, ARRAY_TAG);
    CountIsThere(d, at + 1, nelts, 4);
    CountIsThere(d, at + 5, size, 4);
  }

  lemma ScalarIsThere(d: Data, at: nat, k: Kind, v: int)
    requires BytesAt(d, at, EncodeMember(Scalar(k, v)))
    ensures NumberAt(d, at, Tag(k) as int, 1) && NumberAt(d, at + 1, v, Width(k))
  {
    hide NumberAt, BytesAt, Encode;
    BothThere(d, at, [Tag(k)], Encode(ToUnsigned(v, Width(k)), Width(k)));
    TagIsThere(d, at, Tag(k));
    SignedIsThere(d, at + 1, v, Width(k));
  }

  /** Where the encoding of a member stands, its bytes are as they should be. */
  lemma MemberIsThere(d: Data, at: nat, m: Member)
    requires Kept(m) && BytesAt(d, at, EncodeMember(m))
    ensures MemberAt(d, at, m)
  {
    hide NumberAt, BytesAt, Encode, Kept;
    match m {
      case Scalar(k, v) => ScalarIsThere(d, at, k, v);
      case String(chars) => CountedIsThere(d, at, STRING_TAG, chars);
      case Blob(data) => CountedIsThere(d, at, BLOB_TAG, data);
      case Array(nelts, size, elts) =>
        ProductFits(m);
        ArrayIsThere(d, at, nelts, size, elts[..Product32(nelts, size)]);
    }
  }

  /** In the encoding of a list every member stands right behind those before it. */
  lemma MembersAreThere(ms: seq<Member>, d: Data)
    requires AllKept(ms) && BytesAt(d, 0, EncodeAll(ms))
    ensures forall j :: 0 <= j < |ms| ==> MemberAt(d, Total(ms[..j]), ms[j])
  {
    hide EncodeAll, EncodeMember, MemberAt, Kept, Total;
    forall j | 0 <= j < |ms| ensures MemberAt(d, Total(ms[..j]), ms[j]) {
      var before, m, after := ms[..j], ms[j], ms[j + 1..];
      assert ms == before + ([m] + after) && m in ms;
      EncodeAllConcat(before, [m] + after);
      EncodeFirst(m, after);
      EncodingSize(before);
      BytesInside(d, EncodeAll(before), EncodeMember(m), EncodeAll(after));
      MemberIsThere(d, Total(before), m);
    }
  }

  lemma BytesInside(d: Data, before: Data, bytes: Data, after: Data)
    requires BytesAt(d, 0, before + (bytes + after))
    ensures BytesAt(d, |before|, bytes)
  {
    BothThere(d, 0, before, bytes + after);
    BothThere(d, |before|, bytes, after);
  }

  function LowByte(v: int): byte { (v % 256) as byte }

  lemma Four(v: nat)
    ensures Encode(v, 4) == [LowByte(v), LowByte(v / 0x100), LowByte(v / 0x1_0000), LowByte(v / 0x100_0000)]
  {
    hide Encode;
    Powers();
    EncodedByte(v, 4, 0);
    EncodedByte(v, 4, 1);
    EncodedByte(v, 4, 2);
    EncodedByte(v, 4, 3);
  }

  lemma Eight(low: nat, high: nat)
    requires low < WORD
    ensures Encode(high * WORD + low, 8) == Encode(low, 4) + Encode(high, 4)
  {
    hide Encode;
    Powers();
    var v := high * WORD + low;
    DivModUnique(v, WORD, high, low);
    forall i | 0 <= i < 4
      ensures Encode(v, 8)[i] == Encode(low, 4)[i] && Encode(v, 8)[4 + i] == Encode(high, 4)[i]
    {
      EncodedByte(v, 8, i);
      EncodedByte(v, 8, 4 + i);
      StoredByte(v, 4, i);
      EncodedByte(high, 4, i);
      DivTwice(v, WORD, Power256(i));
    }
  }

  /** One member of every type, byte by byte; the float and the double are 1.0. */
  lemma SmallExamples()
    ensures EncodeMember(Scalar(Bool, 1)) == [1, 1]
    ensures EncodeMember(Scalar(Char, -1)) == [2, 255]
    ensures EncodeMember(Scalar(UChar, 200)) == [3, 200]
  {
    hide Encode;
    Powers();
    EncodedByte(1, 1, 0);
    EncodedByte(255, 1, 0);
    EncodedByte(200, 1, 0);
  }

  lemma WordExamples()
    ensures EncodeMember(Scalar(Int32, -2)) == [4, 254, 255, 255, 255]
    ensures EncodeMember(Scalar(UInt32, 0x1020304)) == [5, 4, 3, 2, 1]
    ensures EncodeMember(Scalar(Float, 0x3f80_0000)) == [8, 0, 0, 128, 63]
  {
    hide Encode, Power256;
    Powers();
    Four(0xffff_fffe);
    Four(0x1020304);
    Four(0x3f80_0000);
  }

  lemma LongExamples()
    ensures EncodeMember(Scalar(Int64, -2)) == [6, 254, 255, 255, 255, 255, 255, 255, 255]
    ensures EncodeMember(Scalar(UInt64, 0x1020304)) == [7, 4, 3, 2, 1, 0, 0, 0, 0]
  {
    hide Encode, Power256;
    Powers();
    Eight(0xffff_fffe, 0xffff_ffff);
    Four(0xffff_fffe);
    Four(0xffff_ffff);
    Eight(0x1020304, 0);
    Four(0x1020304);
    Four(0);
  }

  lemma DoubleExample()
    ensures EncodeMember(Scalar(Double, 0x3ff0_0000_0000_0000)) == [9, 0, 0, 0, 0, 0, 0, 240, 63]
  {
    hide Encode, Power256;
    Powers();
    Eight(0, 0x3ff0_0000);
    Four(0);
    Four(0x3ff0_0000);
  }

  lemma CountedExamples()
    ensures EncodeMember(String([65, 0])) == [10, 2, 0, 0, 0, 65, 0]
    ensures EncodeMember(Blob([7, 8, 9])) == [11, 3, 0, 0, 0, 7, 8, 9]
    ensures EncodeMember(Array(2, 3, [1, 2, 3, 4, 5, 6])) == [12, 2, 0, 0, 0, 3, 0, 0, 0, 1, 2, 3, 4, 5, 6]
  {
    hide Encode;
    Four(2);
    Four(3);
  }

  /** The values of the scalar types. */
  lemma Ranges(v: int)
    ensures InRange(Bool, v) <==> 0 <= v < 256
    ensures InRange(Char, v) <==> -128 <= v < 128
    ensures InRange(UChar, v) <==> 0 <= v < 256
    ensures InRange(Int32, v) <==> -0x8000_0000 <= v < 0x8000_0000
    ensures InRange(UInt32, v) <==> 0 <= v < 0x1_0000_0000
    ensures InRange(Int64, v) <==> -0x8000_0000_0000_0000 <= v < 0x8000_0000_0000_0000
    ensures InRange(UInt64, v) <==> 0 <= v < 0x1_0000_0000_0000_0000
    ensures InRange(Float, v) <==> 0 <= v < 0x1_0000_0000
    ensures InRange(Double, v) <==> 0 <= v < 0x1_0000_0000_0000_0000
  {
    Powers();
  }

  lemma Powers()
    ensures Power256(0) == 1 && Power256(1) == 0x100 && Power256(2) == 0x1_0000 && Power256(3) == 0x100_0000
    ensures Power256(4) == WORD && Power256(8) == WORD * WORD
    ensures Power256(5) == 0x100_0000_0000 && Power256(6) == 0x1_0000_0000_0000 && Power256(7) == 0x100_0000_0000_0000
  {
    assert Power256(2) == 0x1_0000 && Power256(3) == 0x100_0000;
    assert Power256(5) == 0x100_0000_0000 && Power256(6) == 0x1_0000_0000_0000 && Power256(7) == 0x100_0000_0000_0000;
  }

  // ---------------------------------------------------------------------------------------------
  // The writer

  class Writer {
    var head: seq<Member>
    var usingsize: nat
    var membersCount: nat

    ghost predicate Valid()
      reads this
    {
      AllKept(head) && usingsize == PushedTotal(head) && membersCount == |head|
    }

    constructor ()
      ensures Valid() && head == []
    {
      head, usingsize, membersCount := [], 0, 0;
    }

    /** The nine pushes of fixed size. */
    method PushScalar(k: Kind, v: int)
      requires Valid() && InRange(k, v)
      modifies this
      ensures Valid() && head == old(head) + [Scalar(k, v)]
      ensures usingsize == old(usingsize) + 1 + Width(k) && membersCount == old(membersCount) + 1
    {
      Append(Scalar(k, v));
      usingsize := usingsize + 1 + Width(k);
      membersCount := membersCount + 1;
    }

    /** `v` is a C string: it has no NUL, and its terminator is stored with it. */
    method PushString(v: Data)
      requires Valid() && 0 !in v && |v| < INT_MAX
      modifies this
      ensures Valid() && head == old(head) + [String(v + [0])]
      ensures usingsize == old(usingsize) + 1 + 4 + |v| + 1 && membersCount == old(membersCount) + 1
    {
      var length := |v| + 1;
      assert (v + [0])[..|v|] == v;
      Append(String(v + [0]));
      usingsize := usingsize + 1 + 4 + length;
      membersCount := membersCount + 1;
    }

    method PushBlob(data: Data)
      requires Valid() && |data| <= INT_MAX
      modifies this
      ensures Valid() && head == old(head) + [Blob(data)]
      ensures usingsize == old(usingsize) + 1 + 4 + |data| && membersCount == old(membersCount) + 1
    {
      Append(Blob(data));
      usingsize := usingsize + 1 + 4 + |data|;
      membersCount := membersCount + 1;
    }

    /** `elts` are `nelts` elements of `size` bytes. */
    method PushArray(elts: Data, size: nat, nelts: nat)
      requires Valid() && nelts <= INT_MAX && |elts| == size * nelts
      modifies this
      ensures Valid() && head == old(head) + [Array(nelts, size % WORD, elts)]
      ensures usingsize == old(usingsize) + 1 + 4 + 4 + size * nelts && membersCount == old(membersCount) + 1
      ensures 0 < nelts && |elts| < WORD ==> size % WORD == size
    {
      if 0 < nelts { assert size <= size * nelts; }
      CastKeepsProduct(nelts, size);
      Append(Array(nelts, size % WORD, elts));
      usingsize := usingsize + 1 + 4 + 4 + size * nelts;
      membersCount := membersCount + 1;
    }

    /** `list_add_tail` of a member; the caller accounts for it. */
    method Append(m: Member)
      requires Kept(m)
      modifies this`head
      ensures head == old(head) + [m] && PushedTotal(head) == PushedTotal(old(head)) + PushedSize(m)
      ensures AllKept(old(head)) ==> AllKept(head)
    {
      head := head + [m];
      assert head[..|head| - 1] == old(head);
    }

    /** `ks_protobyte_destroy` */
    method Clear()
      modifies this
      ensures Valid() && head == []
    {
      head, usingsize, membersCount := [], 0, 0;
    }

    /** Writes the encoding if it fits in `length`, and nothing at or beyond `length` in any case. */
    method SerializeAsArray(data: array<byte>, length: nat) returns (written: nat)
      requires Valid() && length <= data.Length
      modifies data
      ensures written == if Total(head) <= length then Total(head) else 0
      ensures Total(head) <= length ==> data[..written] == EncodeAll(head)
      ensures Total(head) <= length ==> forall j :: 0 <= j < |head| ==> MemberAt(data[..], Total(head[..j]), head[j])
      ensures forall i ::
                (if Total(head) <= length then written else length) <= i < data.Length ==> data[i] == old(data[i])
    {
      hide EncodeMember, DataSize, Kept, MemberAt;
      written := 0;
      var i := 0;
      while i < |head|
        invariant i <= |head| && written == Total(head[..i]) <= length
        invariant data[..written] == EncodeAll(head[..i])
        invariant forall j :: written <= j < data.Length ==> data[j] == old(data[j])
      {
        assert head[i] in head && head[..i + 1][..i] == head[..i];
        var size := DataSize(head[i]);
        TotalOfPrefix(head, i + 1);
        if size + written > length {
          return 0;
        }
        StoreNext(data, written, head[i]);
        written := written + size;
        i := i + 1;
      }
      assert head[..i] == head;
      assert BytesAt(data[..], 0, EncodeAll(head));
      MembersAreThere(head, data[..]);
    }

    /** `ks_protobyte_serialize`: a block of `usingsize` bytes is always large enough. */
    method Serialize() returns (data: array<byte>, length: nat)
      requires Valid()
      ensures fresh(data) && data.Length == usingsize
      ensures length == Total(head) <= data.Length && data[..length] == EncodeAll(head)
    {
      SizesAgreeIff(head);
      data := new byte[usingsize];
      length := SerializeAsArray(data, usingsize);
    }
  }

  lemma {:induction false} TotalOfPrefix(ms: seq<Member>, i: nat)
    requires i <= |ms|
    ensures Total(ms[..i]) <= Total(ms)
  {
    if i < |ms| {
      TotalOfPrefix(ms[..|ms| - 1], i);
      assert ms[..|ms| - 1][..i] == ms[..i];
    } else {
      assert ms[..i] == ms;
    }
  }

  /** `memcpy`, and the stores through casted pointers. */
  method Store(data: array<byte>, at: nat, bytes: Data)
    requires at + |bytes| <= data.Length
    modifies data
    ensures data[at..at + |bytes|] == bytes
    ensures forall i :: 0 <= i < at || at + |bytes| <= i < data.Length ==> data[i] == old(data[i])
  {
    forall i | 0 <= i < |bytes| { data[at + i] := bytes[i]; }
  }

  /** A store right behind what has been stored from `from` on. */
  method StoreBehind(data: array<byte>, from: nat, at: nat, bytes: Data)
    requires from <= at && at + |bytes| <= data.Length
    modifies data
    ensures data[from..at + |bytes|] == old(data[from..at]) + bytes
    ensures forall i :: 0 <= i < at || at + |bytes| <= i < data.Length ==> data[i] == old(data[i])
  {
    Store(data, at, bytes);
    assert data[from..at + |bytes|] == data[from..at] + data[at..at + |bytes|];
    assert data[from..at] == old(data[from..at]);
  }

  /** One round of the serializer: the member goes right behind what is written already. */
  method StoreNext(data: array<byte>, at: nat, m: Member)
    requires Kept(m) && at + DataSize(m) <= data.Length
    modifies data
    ensures data[..at + DataSize(m)] == old(data[..at]) + EncodeMember(m)
    ensures forall i :: at + DataSize(m) <= i < data.Length ==> data[i] == old(data[i])
  {
    hide EncodeMember, DataSize, Kept;
    StoreMember(data, at, m);
    assert data[..at + DataSize(m)] == data[..at] + data[at..at + DataSize(m)];
    assert data[..at] == old(data[..at]);
  }

  /** The tag, the numbers and the bytes of a member, each in its place. */
  method StoreMember(data: array<byte>, at: nat, m: Member)
    requires Kept(m) && at + DataSize(m) <= data.Length
    modifies data
    ensures data[at..at + DataSize(m)] == EncodeMember(m)
    ensures forall i :: 0 <= i < at || at + DataSize(m) <= i < data.Length ==> data[i] == old(data[i])
  {
    match m {
      case Scalar(k, v) =>
        StoreBehind(data, at, at, [Tag(k)]);
        StoreBehind(data, at, at + 1, Encode(ToUnsigned(v, Width(k)), Width(k)));
      case String(chars) => StoreCounted(data, at, STRING_TAG, chars);
      case Blob(bytes) => StoreCounted(data, at, BLOB_TAG, bytes);
      case Array(nelts, size, elts) =>
        ProductFits(m);
        StoreArray(data, at, nelts, size, elts[..Product32(nelts, size)]);
    }
  }

  method StoreArray(data: array<byte>, at: nat, nelts: nat, size: nat, bytes: Data)
    requires at + 9 + |bytes| <= data.Length
    modifies data
    ensures data[at..at + 9 + |bytes|] == [ARRAY_TAG] + Encode(nelts, 4) + Encode(size, 4) + bytes
    ensures forall i :: 0 <= i < at || at + 9 + |bytes| <= i < data.Length ==> data[i] == old(data[i])
  {
    StoreBehind(data, at, at, [ARRAY_TAG]);
    StoreBehind(data, at, at + 1, Encode(nelts, 4));
    StoreBehind(data, at, at + 5, Encode(size, 4));
    StoreBehind(data, at, at + 9, bytes);
  }

  method StoreCounted(data: array<byte>, at: nat, tag: byte, bytes: Data)
    requires at + 5 + |bytes| <= data.Length
    modifies data
    ensures data[at..at + 5 + |bytes|] == [tag] + Encode(|bytes|, 4) + bytes
    ensures forall i :: 0 <= i < at || at + 5 + |bytes| <= i < data.Length ==> data[i] == old(data[i])
  {
    StoreBehind(data, at, at, [tag]);
    StoreBehind(data, at, at + 1, Encode(|bytes|, 4));
    StoreBehind(data, at, at + 5, bytes);
  }

  // ---------------------------------------------------------------------------------------------
  // The reader

  datatype Request = AskScalar(kind: Kind) | AskString | AskBlob | AskArray

  /** The matching read of a member. */
  function Ask(m: Member): Request {
    match m
    case Scalar(k, _) => AskScalar(k)
    case String(_) => AskString
    case Blob(_) => AskBlob
    case Array(_, _, _) => AskArray
  }

  /** The value of an integer stored in the first `n` bytes of `d`. */
  function IntAt(d: Data, n: nat): int
    requires n <= |d|
  {
    ToSigned(Decode(d[..n]), n)
  }

  function ScalarAt(k: Kind, d: Data): int
    requires Width(k) <= |d|
  {
    if Signed(k) then IntAt(d, Width(k)) else Decode(d[..Width(k)])
  }

  /** `_nelts * _size`, where the signed count is converted to unsigned first. */
  function Chunk(nelts: int, size: nat): nat { nelts * size % WORD }

  /**
    What a read makes of the bytes from its position on: the value and the number of bytes consumed,
    or nothing. The reads of strings, blobs and arrays do not look at the tag.
   */
  function Read(q: Request, d: Data): (r: Option<(Value, nat)>)
    ensures r.Some? ==> 0 < r.value.1 <= |d|
  {
    match q
    case AskScalar(k) =>
      if 1 + Width(k) > |d| || d[0] != Tag(k) then None else Some((Number(ScalarAt(k, d[1..])), 1 + Width(k)))
    case AskString =>
      if 5 > |d| then None
      else
        var n := IntAt(d[1..], 4);
        if n <= 0 || 5 + n > |d| then None else Some((Bytes(d[5..5 + n][n - 1 := 0]), 5 + n))
    case AskBlob =>
      if 5 > |d| then None
      else
        var n := IntAt(d[1..], 4);
        if n <= 0 || 5 + n > |d| then None else Some((Bytes(d[5..5 + n]), 5 + n))
    case AskArray =>
      if 9 > |d| then None
      else
        var nelts, size := IntAt(d[1..], 4), Decode(d[5..9]);
        var n := Chunk(nelts, size);
        if n > INT_MAX || 9 + n > |d| then None else Some((Elements(nelts, size, d[9..9 + n]), 9 + n))
  }

  datatype Value = Number(v: int) | Bytes(bytes: Data) | Elements(nelts: int, size: nat, elts: Data)

  /** The value a caller pushed. */
  function ValueOf(m: Member): Value {
    match m
    case Scalar(_, v) => Number(v)
    case String(chars) => Bytes(chars)
    case Blob(data) => Bytes(data)
    case Array(nelts, size, elts) => Elements(nelts, size, elts)
  }

  class Reader {
    const data: Data
    const length: nat
    var pos: nat       // as an offset from `head`
    var npos: nat

    ghost predicate Valid()
      reads this
    {
      pos == npos <= length == |data|
    }

    constructor (data: Data)
      ensures Valid() && this.data == data && pos == 0
    {
      this.data, length, pos, npos := data, |data|, 0, 0;
    }

    /** The nine reads of fixed size. */
    method ReadScalar(k: Kind) returns (r: Option<int>)
      requires Valid()
      modifies this
      ensures Valid()
      ensures match Read(AskScalar(k), data[old(pos)..])
              case None => r == None && pos == old(pos)
              case Some((value, n)) => r.Some? && value == Number(r.value) && pos == old(pos) + n
      ensures r.Some? ==> InRange(k, r.value) && data[old(pos)..pos] == EncodeMember(Scalar(k, r.value))
      ensures r.None? ==> pos == old(pos) && forall v :: InRange(k, v) ==> !(EncodeMember(Scalar(k, v)) <= data[pos..])
    {
      hide InRange, EncodeMember;
      ghost var d := data[pos..];
      ScalarsAccepted(k, d);
      var n := 1 + Width(k);
      if pos + n > length {
        return None;
      }
      if data[pos] != Tag(k) {
        return None;
      }
      assert data[pos..][1..][..Width(k)] == data[pos + 1..pos + n];
      var u := Decode(data[pos + 1..pos + n]);
      r := Some(if Signed(k) then ToSigned(u, Width(k)) else u);
      pos := pos + n;
      npos := npos + n;
    }

    method ReadString() returns (r: Option<Data>)
      requires Valid()
      modifies this
      ensures Valid()
      ensures match Read(AskString, data[old(pos)..])
              case None => r == None && pos == old(pos)
              case Some((value, n)) => r.Some? && value == Bytes(r.value) && pos == old(pos) + n
    {
      var n := 5;
      if pos + n > length {
        return None;
      }
      assert data[pos..][1..][..4] == data[pos + 1..pos + 5];
      var buflen := ToSigned(Decode(data[pos + 1..pos + 5]), 4);
      if buflen <= 0 || pos + n + buflen > length {
        return None;
      }
      assert data[pos..][5..5 + buflen] == data[pos + n..pos + n + buflen];
      var temp := data[pos + n..pos + n + buflen];
      temp := temp[buflen - 1 := 0];
      r := Some(temp);
      pos := pos + n + buflen;
      npos := npos + n + buflen;
    }

    method ReadBlob() returns (r: Option<Data>)
      requires Valid()
      modifies this
      ensures Valid()
      ensures match Read(AskBlob, data[old(pos)..])
              case None => r == None && pos == old(pos)
              case Some((value, n)) => r.Some? && value == Bytes(r.value) && pos == old(pos) + n
    {
      var n := 5;
      if pos + n > length {
        return None;
      }
      assert data[pos..][1..][..4] == data[pos + 1..pos + 5];
      var buflen := ToSigned(Decode(data[pos + 1..pos + 5]), 4);
      if buflen <= 0 || pos + n + buflen > length {
        return None;
      }
      assert data[pos..][5..5 + buflen] == data[pos + n..pos + n + buflen];
      r := Some(data[pos + n..pos + n + buflen]);
      pos := pos + n + buflen;
      npos := npos + n + buflen;
    }

    method ReadArray() returns (r: Option<(Data, nat, int)>)
      requires Valid()
      modifies this
      ensures Valid()
      ensures match Read(AskArray, data[old(pos)..])
              case None => r == None && pos == old(pos)
              case Some((value, n)) =>
                r.Some? && value == Elements(r.value.2, r.value.1, r.value.0) && pos == old(pos) + n
    {
      var n := 9;
      if pos + n > length {
        return None;
      }
      assert data[pos..][1..][..4] == data[pos + 1..pos + 5] && data[pos..][5..9] == data[pos + 5..pos + 9];
      var nelts := ToSigned(Decode(data[pos + 1..pos + 5]), 4);
      var size := Decode(data[pos + 5..pos + 9]);
      var chunk := Chunk(nelts, size);
      if chunk > INT_MAX {
        return None;
      }
      if pos + n + chunk > length {
        return None;
      }
      assert data[pos..][9..9 + chunk] == data[pos + n..pos + n + chunk];
      r := Some((data[pos + n..pos + n + chunk], size, nelts));
      pos := pos + n + chunk;
      npos := npos + n + chunk;
    }
  }

  // ---------------------------------------------------------------------------------------------
  // Round trips

  /** What the reads ask of a member beyond what the pushes do. */
  predicate Readable(m: Member) {
    match m
    case Blob(data) => data != []
    case Array(_, _, elts) => |elts| <= INT_MAX
    case _ => true
  }

  /** A count up to INT_MAX reads back as itself, signed or not. */
  lemma CountReadsBack(v: nat)
    requires v < WORD
    ensures Decode(Encode(v, 4)) == v
    ensures v <= INT_MAX ==> IntAt(Encode(v, 4), 4) == v
  {
    Powers();
    UnsignedBytesRoundTrip(v, 4);
    assert Encode(v, 4)[..4] == Encode(v, 4);
  }

  lemma ScalarReadsBack(k: Kind, v: int, rest: Data)
    requires InRange(k, v)
    ensures Read(AskScalar(k), EncodeMember(Scalar(k, v)) + rest) == Some((Number(v), 1 + Width(k)))
  {
    var w := Width(k);
    var code := Encode(ToUnsigned(v, w), w);
    var d := EncodeMember(Scalar(k, v)) + rest;
    assert d[1..][..w] == code;
    if Signed(k) {
      SignedBytesRoundTrip(v, w);
    } else {
      DivModUnique(v, Power256(w), 0, v);
      UnsignedBytesRoundTrip(v, w);
    }
  }

  /** The layout that strings and blobs share. */
  lemma CountedLayout(tag: byte, bytes: Data, rest: Data)
    requires |bytes| <= INT_MAX
    ensures var d := [tag] + Encode(|bytes|, 4) + bytes + rest;
      |d| >= 5 && IntAt(d[1..], 4) == |bytes| && 5 + |bytes| <= |d| && d[5..5 + |bytes|] == bytes
          && d[5 + |bytes|..] == rest
  {
    var d := [tag] + Encode(|bytes|, 4) + bytes + rest;
    CountReadsBack(|bytes|);
    assert d[1..][..4] == Encode(|bytes|, 4) == Encode(|bytes|, 4)[..4];
  }

  lemma ArrayLayout(nelts: nat, size: nat, bytes: Data, rest: Data)
    requires nelts <= INT_MAX && size < WORD
    ensures var d := [ARRAY_TAG] + Encode(nelts, 4) + Encode(size, 4) + bytes + rest;
      && |d| >= 9 && IntAt(d[1..], 4) == nelts && Decode(d[5..9]) == size
      && 9 + |bytes| <= |d| && d[9..9 + |bytes|] == bytes && d[9 + |bytes|..] == rest
  {
    var d := [ARRAY_TAG] + Encode(nelts, 4) + Encode(size, 4) + bytes + rest;
    CountReadsBack(nelts);
    CountReadsBack(size);
    assert d[1..][..4] == Encode(nelts, 4) == Encode(nelts, 4)[..4];
    assert d[5..9] == Encode(size, 4);
  }

  // What each read accepts, over arbitrary bytes.

  lemma StoredSigned(d: Data, n: nat)
    requires n == |d| > 0
    ensures FitsSigned(ToSigned(Decode(d), n), n) && Encode(ToUnsigned(ToSigned(Decode(d), n), n), n) == d
  {
    var u, p := Decode(d), Power256(n);
    DecodeBounded(d);
    EncodeDecode(d);
    EvenPower(n);
    DivModUnique(ToSigned(u, n), p, if 2 * u < p then 0 else -1, u);
  }

  lemma EvenPower(n: nat)
    requires n > 0
    ensures Power256(n) % 2 == 0
  {
    assert Power256(n) == 2 * (128 * Power256(n - 1));
  }

  lemma StoredUnsigned(d: Data, n: nat)
    requires n == |d|
    ensures 0 <= Decode(d) < Power256(n) && Encode(ToUnsigned(Decode(d), n), n) == d
  {
    DecodeBounded(d);
    EncodeDecode(d);
    DivModUnique(Decode(d), Power256(n), 0, Decode(d));
  }

  lemma ScalarIsStored(k: Kind, d: Data)
    requires |d| == 1 + Width(k) && d[0] == Tag(k)
    ensures InRange(k, ScalarAt(k, d[1..])) && d == EncodeMember(Scalar(k, ScalarAt(k, d[1..])))
  {
    hide Encode, Decode, Tag;
    var w := Width(k);
    assert d == [Tag(k)] + d[1..] && d[1..][..w] == d[1..];
    if Signed(k) { StoredSigned(d[1..], w); } else { StoredUnsigned(d[1..], w); }
  }

  /** A scalar is read exactly where its encoding stands, tag and all. */
  lemma ReadScalarIff(k: Kind, d: Data, v: int, n: nat)
    ensures Read(AskScalar(k), d) == Some((Number(v), n))
       <==> InRange(k, v) && n == 1 + Width(k) <= |d| && d[..n] == EncodeMember(Scalar(k, v))
  {
    hide InRange, EncodeMember, Encode, Decode;
    var w := 1 + Width(k);
    if w <= |d| {
      SameScalar(k, d[1..], d[..w][1..]);
      if d[0] == Tag(k) { ScalarIsStored(k, d[..w]); }
      if InRange(k, v) && d[..w] == EncodeMember(Scalar(k, v)) {
        ScalarReadsBack(k, v, d[w..]);
        assert d == d[..w] + d[w..];
      }
    }
  }

  lemma ScalarsAccepted(k: Kind, d: Data)
    ensures match Read(AskScalar(k), d)
            case None => forall v :: InRange(k, v) ==> !(EncodeMember(Scalar(k, v)) <= d)
            case Some((value, n)) =>
              value.Number? && InRange(k, value.v) && n <= |d| && d[..n] == EncodeMember(Scalar(k, value.v))
  {
    hide Read;
    var r := Read(AskScalar(k), d);
    if r.Some? {
      assert r.value.0.Number? by { NumbersOnly(k, d); }
      ReadScalarIff(k, d, r.value.0.v, r.value.1);
    } else {
      forall v | InRange(k, v) ensures !(EncodeMember(Scalar(k, v)) <= d) { ReadScalarIff(k, d, v, 1 + Width(k)); }
    }
  }

  lemma NumbersOnly(k: Kind, d: Data)
    ensures Read(AskScalar(k), d).Some? ==> Read(AskScalar(k), d).value.0.Number?
  {
  }

  lemma SameScalar(k: Kind, d: Data, e: Data)
    requires Width(k) == |e| <= |d| && d[..|e|] == e
    ensures ScalarAt(k, d) == ScalarAt(k, e)
  {
    hide Decode;
    assert e[..|e|] == e;
  }

  /** So the scalar read of any other member fails, whatever stands behind it. */
  lemma ForeignScalarFails(k: Kind, m: Member, rest: Data)
    requires Kept(m) && !(m.Scalar? && m.kind == k)
    ensures Read(AskScalar(k), EncodeMember(m) + rest) == None
  {
    hide Encode, Decode, Kept;
    assert (EncodeMember(m) + rest)[0] == TagOf(m) != Tag(k);
  }

  // The reads of strings, blobs and arrays take any tag.

  lemma CountInRange(d: Data)
    requires |d| >= 5
    ensures var n := IntAt(d[1..], 4);
      -0x8000_0000 <= n <= 0x7fff_ffff && d[1..5] == Encode(ToUnsigned(n, 4), 4)
  {
    hide Encode, Decode;
    Powers();
    assert d[1..][..4] == d[1..5];
    StoredSigned(d[1..5], 4);
  }

  lemma CountIsOnly(d: Data, m: int)
    requires |d| >= 5 && -0x8000_0000 <= m <= 0x7fff_ffff && d[1..5] == Encode(ToUnsigned(m, 4), 4)
    ensures m == IntAt(d[1..], 4)
  {
    hide Encode, Decode;
    Powers();
    assert d[1..][..4] == d[1..5];
    SignedBytesRoundTrip(m, 4);
  }

  lemma CountIsStored(d: Data)
    requires |d| >= 5
    ensures var n := IntAt(d[1..], 4);
      && -0x8000_0000 <= n <= 0x7fff_ffff && d[1..5] == Encode(ToUnsigned(n, 4), 4)
      && (n >= 0 ==> d[1..5] == Encode(n, 4))
      && forall m: int :: -0x8000_0000 <= m <= 0x7fff_ffff && d[1..5] == Encode(ToUnsigned(m, 4), 4) ==> m == n
  {
    hide Encode, IntAt;
    CountInRange(d);
    var n := IntAt(d[1..], 4);
    assert n >= 0 ==> ToUnsigned(n, 4) == n by { Powers(); }
    forall m: int | -0x8000_0000 <= m <= 0x7fff_ffff && d[1..5] == Encode(ToUnsigned(m, 4), 4) ensures m == n {
      CountIsOnly(d, m);
    }
  }

  lemma CountIff(d: Data, n: nat)
    requires |d| >= 5 && n <= 0x7fff_ffff
    ensures IntAt(d[1..], 4) == n <==> d[1..5] == Encode(n, 4)
  {
    hide IntAt;
    CountIsStored(d);
    Powers();
    assert ToUnsigned(n, 4) == n;
  }

  /** A string is read where its count stands behind some byte and is positive; its last byte becomes the terminator. */
  lemma ReadStringIff(d: Data, chars: Data, n: nat)
    ensures Read(AskString, d) == Some((Bytes(chars), n)) <==>
      && 0 < |chars| <= 0x7fff_ffff && n == 5 + |chars| <= |d|
      && d[1..5] == Encode(|chars|, 4) && chars == d[5..n][|chars| - 1 := 0]
  {
    hide IntAt, Encode, Decode;
    if |d| >= 5 {
      CountIsStored(d);
      if |chars| <= 0x7fff_ffff { CountIff(d, |chars|); }
    }
  }

  lemma ReadBlobIff(d: Data, bytes: Data, n: nat)
    ensures Read(AskBlob, d) == Some((Bytes(bytes), n)) <==>
      && 0 < |bytes| <= 0x7fff_ffff && n == 5 + |bytes| <= |d|
      && d[1..5] == Encode(|bytes|, 4) && bytes == d[5..n]
  {
    hide IntAt, Encode, Decode;
    if |d| >= 5 {
      CountIsStored(d);
      if |bytes| <= 0x7fff_ffff { CountIff(d, |bytes|); }
    }
  }

  /** An array is read where its signed count and its size stand, and the 32-bit product is at most INT_MAX. */
  lemma ReadArrayIff(d: Data, nelts: int, size: nat, elts: Data, n: nat)
    ensures Read(AskArray, d) == Some((Elements(nelts, size, elts), n)) <==>
      && -0x8000_0000 <= nelts <= 0x7fff_ffff && size < 0x1_0000_0000
      && |elts| == nelts * size % 0x1_0000_0000 <= 0x7fff_ffff && n == 9 + |elts| <= |d|
      && d[1..5] == Encode(ToUnsigned(nelts, 4), 4) && d[5..9] == Encode(size, 4) && elts == d[9..n]
  {
    hide IntAt, Encode, Decode;
    if |d| >= 9 {
      CountIsStored(d);
      Powers();
      StoredUnsigned(d[5..9], 4);
      assert ToUnsigned(Decode(d[5..9]), 4) == Decode(d[5..9]);
      if size < 0x1_0000_0000 { UnsignedBytesRoundTrip(size, 4); }
    }
  }

  /** The matching read gives back exactly the member that was pushed, if and only if the member is readable. */
  lemma ReadsBackIff(m: Member, rest: Data)
    requires Kept(m)
    ensures Read(Ask(m), EncodeMember(m) + rest) == Some((ValueOf(m), DataSize(m))) <==> Readable(m)
  {
    match m {
      case Scalar(k, v) => ScalarReadsBack(k, v, rest);
      case String(chars) =>
        CountedLayout(STRING_TAG, chars, rest);
        assert chars[|chars| - 1 := 0] == chars;
      case Blob(data) => CountedLayout(BLOB_TAG, data, rest);
      case Array(nelts, size, elts) => ArrayReadsBackIff(m, rest);
    }
  }

  lemma ArrayReadsBackIff(m: Member, rest: Data)
    requires Kept(m) && m.Array?
    ensures Read(AskArray, EncodeMember(m) + rest) == Some((ValueOf(m), DataSize(m))) <==> Readable(m)
  {
    ProductFits(m);
    var n := Product32(m.nelts, m.size);
    ArrayLayout(m.nelts, m.size, m.elts[..n], rest);
    if |m.elts| < WORD { assert m.elts[..n] == m.elts; }
  }

  /** A cut behind the count leaves the count. */
  lemma CountedCut(tag: byte, bytes: Data, cut: nat)
    requires |bytes| <= INT_MAX && 5 <= cut <= 5 + |bytes|
    ensures var d := [tag] + Encode(|bytes|, 4) + bytes;
      |d| == 5 + |bytes| && IntAt(d[..cut][1..], 4) == |bytes|
  {
    hide IntAt;
    var d := [tag] + Encode(|bytes|, 4) + bytes;
    CountedLayout(tag, bytes, []);
    assert d + [] == d;
    SameInt(d[..cut][1..], d[1..]);
  }

  lemma SameInt(d: Data, e: Data)
    requires 4 <= |d| <= |e| && d == e[..|d|]
    ensures IntAt(d, 4) == IntAt(e, 4)
  {
    hide Decode;
    assert d[..4] == e[..4];
  }

  lemma ArrayCut(nelts: nat, size: nat, bytes: Data, cut: nat)
    requires nelts <= INT_MAX && size < WORD && 9 <= cut <= 9 + |bytes|
    ensures var d := [ARRAY_TAG] + Encode(nelts, 4) + Encode(size, 4) + bytes;
      |d| == 9 + |bytes| && IntAt(d[..cut][1..], 4) == nelts && Decode(d[..cut][5..9]) == size
  {
    hide IntAt, Decode;
    var d := [ARRAY_TAG] + Encode(nelts, 4) + Encode(size, 4) + bytes;
    ArrayLayout(nelts, size, bytes, []);
    assert d + [] == d;
    SameInt(d[..cut][1..], d[1..]);
    assert d[..cut][5..9] == d[5..9];
  }

  lemma ShortString(chars: Data, cut: nat)
    requires Kept(String(chars)) && cut < 5 + |chars|
    ensures Read(AskString, EncodeMember(String(chars))[..cut]) == None
  {
    hide IntAt, Encode, Decode;
    if cut >= 5 { CountedCut(STRING_TAG, chars, cut); }
  }

  lemma ShortBlob(data: Data, cut: nat)
    requires Kept(Blob(data)) && cut < 5 + |data|
    ensures Read(AskBlob, EncodeMember(Blob(data))[..cut]) == None
  {
    hide IntAt, Encode, Decode;
    if cut >= 5 { CountedCut(BLOB_TAG, data, cut); }
  }

  lemma ShortArray(m: Member, cut: nat)
    requires Kept(m) && m.Array? && Readable(m) && cut < DataSize(m)
    ensures cut <= |EncodeMember(m)| && Read(AskArray, EncodeMember(m)[..cut]) == None
  {
    hide IntAt, Encode, Decode;
    ProductFits(m);
    assert m.elts[..|m.elts|] == m.elts;
    if cut >= 9 { ArrayCut(m.nelts, m.size, m.elts, cut); }
  }

  lemma ShortScalar(k: Kind, v: int, cut: nat)
    requires cut < 1 + Width(k)
    ensures Read(AskScalar(k), EncodeMember(Scalar(k, v))[..cut]) == None
  {
    hide Encode, ScalarAt;
  }

  /** A read that meets only a part of its member fails. */
  lemma ShortReadFails(m: Member, cut: nat)
    requires Kept(m) && Readable(m) && cut < DataSize(m)
    ensures |EncodeMember(m)| == DataSize(m) && Read(Ask(m), EncodeMember(m)[..cut]) == None
  {
    hide Read, EncodeMember;
    MemberSize(m);
    match m {
      case Scalar(k, v) => ShortScalar(k, v, cut);
      case String(chars) => ShortString(chars, cut);
      case Blob(data) => ShortBlob(data, cut);
      case Array(_, _, _) => ShortArray(m, cut);
    }
  }

  /** Issues the reads one after the other, up to the first that fails: the values, and the bytes consumed. */
  function Replay(qs: seq<Request>, d: Data): (seq<Value>, nat) {
    if qs == [] then ([], 0)
    else
      match Read(qs[0], d)
      case None => ([], 0)
      case Some((v, n)) =>
        var (vs, k) := Replay(qs[1..], d[n..]);
        ([v] + vs, n + k)
  }

  function Asks(ms: seq<Member>): seq<Request> {
    if ms == [] then [] else [Ask(ms[0])] + Asks(ms[1..])
  }

  function Values(ms: seq<Member>): seq<Value> {
    if ms == [] then [] else [ValueOf(ms[0])] + Values(ms[1..])
  }

  predicate AllReadable(ms: seq<Member>) { forall m :: m in ms ==> Readable(m) }

  /** How many members are complete within the first `cut` bytes. */
  function Complete(ms: seq<Member>, cut: nat): nat {
    if ms == [] || cut < DataSize(ms[0]) then 0 else 1 + Complete(ms[1..], cut - DataSize(ms[0]))
  }

  lemma TotalFirst(m: Member, ms: seq<Member>)
    requires Kept(m) && AllKept(ms)
    ensures Total([m] + ms) == DataSize(m) + Total(ms)
  {
    EncodeFirst(m, ms);
    EncodingSize(ms);
    EncodingSize([m] + ms);
    MemberSize(m);
  }

  /** `Complete` is what its name says. */
  lemma {:induction false} CompleteIsMaximal(ms: seq<Member>, cut: nat)
    requires AllKept(ms)
    ensures Complete(ms, cut) <= |ms| && Total(ms[..Complete(ms, cut)]) <= cut
    ensures Complete(ms, cut) < |ms| ==> cut < Total(ms[..Complete(ms, cut) + 1])
  {
    hide Total, DataSize, Kept;
    EmptyTotals();
    if ms != [] {
      var k := Complete(ms, cut);
      assert ms[0] in ms && AllKept(ms[1..]);
      TotalFirst(ms[0], []);
      assert [ms[0]] + [] == ms[..1];
      if k > 0 {
        CompleteIsMaximal(ms[1..], cut - DataSize(ms[0]));
        assert ms[..k] == [ms[0]] + ms[1..][..k - 1];
        TotalFirst(ms[0], ms[1..][..k - 1]);
        if k < |ms| {
          assert ms[..k + 1] == [ms[0]] + ms[1..][..k];
          TotalFirst(ms[0], ms[1..][..k]);
        }
      }
    }
  }

  /**
    Reading a truncated encoding: exactly the complete members come back, and the first read that
    fails has consumed nothing. With `cut` the whole length this is the round trip.
   */
  lemma {:induction false} ReplayOfPrefix(ms: seq<Member>, cut: nat)
    requires AllKept(ms) && AllReadable(ms) && cut <= |EncodeAll(ms)|
    ensures Complete(ms, cut) <= |ms|
    ensures Replay(Asks(ms), EncodeAll(ms)[..cut]) == (Values(ms[..Complete(ms, cut)]), Total(ms[..Complete(ms, cut)]))
  {
    hide Read, EncodeMember, EncodeAll, Total, DataSize;
    CompleteIsMaximal(ms, cut);
    EmptyTotals();
    if ms != [] {
      var m, rest, k := ms[0], ms[1..], Complete(ms, cut);
      assert m in ms && ms == [m] + rest && AllKept(rest) && AllReadable(rest);
      EncodeFirst(m, rest);
      MemberSize(m);
      if cut < DataSize(m) {
        ShortReadFails(m, cut);
        assert EncodeAll(ms)[..cut] == EncodeMember(m)[..cut];
      } else {
        var n := cut - DataSize(m);
        ReplayOfPrefix(rest, n);
        assert EncodeAll(ms)[..cut] == EncodeMember(m) + EncodeAll(rest)[..n];
        ReplayFirst(m, Asks(rest), EncodeAll(rest)[..n]);
        assert ms[..k] == [m] + rest[..k - 1];
        TotalFirst(m, rest[..k - 1]);
      }
    }
  }

  lemma EmptyTotals()
    ensures Total([]) == 0 && EncodeAll([]) == []
  {
  }

  lemma ReplayFirst(m: Member, qs: seq<Request>, tail: Data)
    requires Kept(m) && Readable(m)
    ensures var (vs, n) := Replay(qs, tail);
      Replay([Ask(m)] + qs, EncodeMember(m) + tail) == ([ValueOf(m)] + vs, DataSize(m) + n)
  {
    hide Read, EncodeMember;
    ReadsBackIff(m, tail);
    MemberSize(m);
    assert (EncodeMember(m) + tail)[DataSize(m)..] == tail;
    assert ([Ask(m)] + qs)[1..] == qs;
  }

  /** Serializing and issuing the matching reads returns every value and ends at the end. */
  lemma RoundTrip(ms: seq<Member>)
    requires AllKept(ms) && AllReadable(ms)
    ensures Replay(Asks(ms), EncodeAll(ms)) == (Values(ms), |EncodeAll(ms)|)
  {
    EncodingSize(ms);
    CompleteIsMaximal(ms, |EncodeAll(ms)|);
    ReplayOfPrefix(ms, |EncodeAll(ms)|);
    var k := Complete(ms, |EncodeAll(ms)|);
    if k < |ms| {
      TotalOfPrefix(ms, k + 1);
    } else {
      assert ms[..k] == ms && EncodeAll(ms)[..|EncodeAll(ms)|] == EncodeAll(ms);
    }
  }

  function TagOf(m: Member): byte {
    match m
    case Scalar(k, _) => Tag(k)
    case String(_) => STRING_TAG
    case Blob(_) => BLOB_TAG
    case Array(_, _, _) => ARRAY_TAG
  }

  lemma ScalarPrefixFree(a: Member, b: Member, x: Data, y: Data)
    requires Kept(a) && Kept(b) && a.Scalar? && b.Scalar? && a.kind == b.kind
    requires EncodeMember(a) + x == EncodeMember(b) + y
    ensures a == b
  {
    ScalarReadsBack(a.kind, a.value, x);
    ScalarReadsBack(b.kind, b.value, y);
  }

  lemma CountedPrefixFree(a: Member, b: Member, x: Data, y: Data)
    requires Kept(a) && Kept(b) && ((a.String? && b.String?) || (a.Blob? && b.Blob?))
    requires EncodeMember(a) + x == EncodeMember(b) + y
    ensures a == b
  {
    if a.String? {
      CountedLayout(STRING_TAG, a.chars, x);
      CountedLayout(STRING_TAG, b.chars, y);
    } else {
      CountedLayout(BLOB_TAG, a.data, x);
      CountedLayout(BLOB_TAG, b.data, y);
    }
  }

  lemma ArrayPrefixFree(a: Member, b: Member, x: Data, y: Data)
    requires Kept(a) && Kept(b) && a.Array? && b.Array? && Fits32(a) && Fits32(b)
    requires EncodeMember(a) + x == EncodeMember(b) + y
    ensures a == b
  {
    ProductFits(a);
    ProductFits(b);
    assert Prefix(a.elts, |a.elts|) == a.elts && Prefix(b.elts, |b.elts|) == b.elts;
    ArrayLayout(a.nelts, a.size, a.elts, x);
    ArrayLayout(b.nelts, b.size, b.elts, y);
  }

  lemma SameTag(a: Member, b: Member, x: Data, y: Data)
    requires EncodeMember(a) + x == EncodeMember(b) + y
    ensures TagOf(a) == TagOf(b)
  {
    assert (EncodeMember(a) + x)[0] == TagOf(a) && (EncodeMember(b) + y)[0] == TagOf(b);
  }

  /** Within 32-bit sizes no encoding is a prefix of another member's. */
  lemma PrefixFree(a: Member, b: Member, x: Data, y: Data)
    requires Kept(a) && Kept(b) && Fits32(a) && Fits32(b)
    requires EncodeMember(a) + x == EncodeMember(b) + y
    ensures a == b && x == y
  {
    hide EncodeMember, Kept, Fits32;
    SameTag(a, b, x, y);
    match a {
      case Scalar(_, _) => ScalarPrefixFree(a, b, x, y);
      case String(_) => CountedPrefixFree(a, b, x, y);
      case Blob(_) => CountedPrefixFree(a, b, x, y);
      case Array(_, _, _) => ArrayPrefixFree(a, b, x, y);
    }
    SuffixesAgree(EncodeMember(a), x, y);
  }

  lemma SuffixesAgree(d: Data, x: Data, y: Data)
    requires d + x == d + y
    ensures x == y
  {
    assert (d + x)[|d|..] == x && (d + y)[|d|..] == y;
  }

  lemma OnlyEmptyIsEmpty(ms: seq<Member>)
    requires AllKept(ms)
    ensures EncodeAll(ms) == [] <==> ms == []
  {
    if ms != [] {
      assert ms[0] in ms && ms == [ms[0]] + ms[1..];
      EncodeFirst(ms[0], ms[1..]);
      MemberSize(ms[0]);
    }
  }

  /** Unique decodability: within 32-bit sizes different member lists have different encodings. */
  lemma {:induction false} EncodingIsUnique(a: seq<Member>, b: seq<Member>)
    requires AllKept(a) && AllKept(b)
    requires forall m :: m in a + b ==> Fits32(m)
    requires EncodeAll(a) == EncodeAll(b)
    ensures a == b
    decreases |a|
  {
    hide EncodeAll, EncodeMember, Fits32, Kept;
    OnlyEmptyIsEmpty(a);
    OnlyEmptyIsEmpty(b);
    if a != [] {
      assert a[0] in a + b && b[0] in a + b;
      assert a == [a[0]] + a[1..] && b == [b[0]] + b[1..];
      EncodeFirst(a[0], a[1..]);
      EncodeFirst(b[0], b[1..]);
      PrefixFree(a[0], b[0], EncodeAll(a[1..]), EncodeAll(b[1..]));
      EncodingIsUnique(a[1..], b[1..]);
    }
  }

  /**
    Beyond them it always fails: an array that outgrows 32 bits has a last byte that is not serialized,
    and changing it changes the member and not the encoding.
   */
  lemma OversizedArraysCollide(m: Member) returns (other: Member)
    requires Kept(m) && !Fits32(m)
    ensures Kept(other) && other != m && EncodeMember(other) == EncodeMember(m) && PushedSize(other) == PushedSize(m)
  {
    var last := |m.elts| - 1;
    other := m.(elts := m.elts[last := if m.elts[last] == 0 then 1 else 0]);
    assert other.elts[last] != m.elts[last];
    assert Prefix(other.elts, Product32(m.nelts, m.size)) == Prefix(m.elts, Product32(m.nelts, m.size));
  }

  /** Whole lists collide with one such member: the two lists differ, and a reader cannot tell which was sent. */
  lemma OversizedListsCollide(ms: seq<Member>, i: nat) returns (others: seq<Member>)
    requires AllKept(ms) && i < |ms| && !Fits32(ms[i])
    ensures AllKept(others) && others != ms && EncodeAll(others) == EncodeAll(ms)
    ensures PushedTotal(others) == PushedTotal(ms)
  {
    assert ms[i] in ms;
    var other := OversizedArraysCollide(ms[i]);
    others := ms[i := other];
    assert others[i] != ms[i];
    EncodeReplaced(ms, i, other);
    forall m | m in others ensures Kept(m) { assert m == other || m in ms; }
    PushedReplaced(ms, i, other);
  }

  lemma {:induction false} PushedReplaced(ms: seq<Member>, i: nat, other: Member)
    requires i < |ms| && PushedSize(other) == PushedSize(ms[i])
    ensures PushedTotal(ms[i := other]) == PushedTotal(ms)
  {
    var n := |ms| - 1;
    if i < n {
      PushedReplaced(ms[..n], i, other);
      assert ms[i := other][..n] == ms[..n][i := other];
    } else {
      assert ms[i := other][..n] == ms[..n];
    }
  }

  /** No other list has both this encoding and this `usingsize`. */
  ghost predicate Decodable(ms: seq<Member>) {
    forall others :: AllKept(others) && EncodeAll(others) == EncodeAll(ms) && PushedTotal(others) == PushedTotal(ms)
      ==> others == ms
  }

  /** The encoding and the size kept by the pushes determine the members exactly if no array outgrows 32 bits. */
  lemma DecodableIff(ms: seq<Member>)
    requires AllKept(ms)
    ensures Decodable(ms) <==> forall m :: m in ms ==> Fits32(m)
  {
    SizesAgreeIff(ms);
    EncodingSize(ms);
    if forall m :: m in ms ==> Fits32(m) {
      forall others | AllKept(others) && EncodeAll(others) == EncodeAll(ms) && PushedTotal(others) == PushedTotal(ms)
        ensures others == ms
      {
        SizesAgreeIff(others);
        EncodingSize(others);
        EncodingIsUnique(others, ms);
      }
    } else {
      var i :| 0 <= i < |ms| && !Fits32(ms[i]);
      var others := OversizedListsCollide(ms, i);
    }
  }

  lemma EncodeReplaced(ms: seq<Member>, i: nat, other: Member)
    requires i < |ms| && EncodeMember(other) == EncodeMember(ms[i])
    ensures EncodeAll(ms[i := other]) == EncodeAll(ms)
  {
    hide EncodeMember, EncodeAll;
    var before, after := ms[..i], ms[i + 1..];
    EncodeFirst(ms[i], after);
    EncodeFirst(other, after);
    EncodeAllConcat(before, [ms[i]] + after);
    EncodeAllConcat(before, [other] + after);
    assert ms == before + ([ms[i]] + after) && ms[i := other] == before + ([other] + after);
  }

  // ---------------------------------------------------------------------------------------------
  // Writer and reader together

  /** Issues one read, whichever it is. */
  method Issue(r: Reader, q: Request) returns (value: Option<Value>)
    requires r.Valid()
    modifies r
    ensures r.Valid()
    ensures match Read(q, r.data[old(r.pos)..])
            case None => value == None && r.pos == old(r.pos)
            case Some((v, n)) => value == Some(v) && r.pos == old(r.pos) + n
  {
    match q {
      case AskScalar(k) =>
        var v := r.ReadScalar(k);
        value := if v.Some? then Some(Number(v.value)) else None;
      case AskString =>
        var v := r.ReadString();
        value := if v.Some? then Some(Bytes(v.value)) else None;
      case AskBlob =>
        var v := r.ReadBlob();
        value := if v.Some? then Some(Bytes(v.value)) else None;
      case AskArray =>
        var v := r.ReadArray();
        value := if v.Some? then Some(Elements(v.value.2, v.value.1, v.value.0)) else None;
    }
  }

  lemma ReplayStops(qs: seq<Request>, d: Data)
    requires qs == [] || Read(qs[0], d).None?
    ensures Replay(qs, d) == ([], 0)
  {
  }

  lemma ReplayGoesOn(qs: seq<Request>, d: Data)
    requires qs != [] && Read(qs[0], d).Some?
    ensures var (v, n) := Read(qs[0], d).value;
      Replay(qs, d) == ([v] + Replay(qs[1..], d[n..]).0, n + Replay(qs[1..], d[n..]).1)
  {
    hide Read;
  }

  method IssueAll(r: Reader, qs: seq<Request>) returns (values: seq<Value>)
    requires r.Valid()
    modifies r
    ensures r.Valid() && (values, r.pos - old(r.pos)) == Replay(qs, r.data[old(r.pos)..])
  {
    hide Read, Replay;
    values := [];
    ghost var d := r.data[r.pos..];
    if qs == [] {
      ReplayStops(qs, d);
    } else {
      var value := Issue(r, qs[0]);
      if value.Some? {
        ReplayGoesOn(qs, d);
        assert r.data[r.pos..] == d[r.pos - old(r.pos)..];
        var rest := IssueAll(r, qs[1..]);
        values := [value.value] + rest;
      } else {
        ReplayStops(qs, d);
      }
    }
  }

  /** What went into a writer comes out of a reader over its serialization, which is read to the end. */
  method WriteThenRead(w: Writer) returns (values: seq<Value>, r: Reader)
    requires w.Valid() && AllReadable(w.head)
    ensures values == Values(w.head)
    ensures r.Valid() && r.pos == r.npos == r.length == w.usingsize
  {
    var data, length := w.Serialize();
    assert forall m :: m in w.head ==> Fits32(m);
    SizesAgreeIff(w.head);
    RoundTrip(w.head);
    r := new Reader(data[..length]);
    assert r.data[0..] == r.data;
    values := IssueAll(r, Asks(w.head));
  }
}
