/**
 `muduo::net::Buffer`: a byte vector with a read and a write index, proved to act like the plain
 sequence of its readable bytes whatever the indexes and the vector do underneath.
 */
module Buffers {

  type Byte = x: int | 0 <= x < 256

  import opened Options

  const K_CHEAP_PREPEND: nat := 8
  const K_INITIAL_SIZE: nat := 1024
  const K_EXTRA_BUFFER: nat := 65536

  // ---------- Integers in network byte order ----------

  /** 256 to the power `n`. */
  function Scale(n: nat): (s: int)
    ensures s > 0
  {
    if n == 0 then 1 else 256 * Scale(n - 1)
  }

  /** The low `n` bytes of `x` in two's complement, most significant first. */
  function Encode(x: int, n: nat): (s: seq<Byte>)
    ensures |s| == n
    decreases n
  {
    if n == 0 then [] else Encode(x / 256, n - 1) + [x % 256]
  }

  function Unsigned(s: seq<Byte>): int {
    if s == [] then 0 else Unsigned(s[..|s| - 1]) * 256 + s[|s| - 1]
  }

  /** The signed integer that `s` encodes. */
  function Decode(s: seq<Byte>): int {
    if s != [] && s[0] >= 128 then Unsigned(s) - Scale(|s|) else Unsigned(s)
  }

  /** `x` fits a signed integer of `n` bytes. */
  predicate Fits(x: int, n: nat) {
    n > 0 && -Scale(n) <= 2 * x < Scale(n)
  }

  lemma {:induction false} EncodeUnsigned(x: int, n: nat)
    ensures Unsigned(Encode(x, n)) == x % Scale(n)
    ensures n > 0 ==> (Encode(x, n)[0] >= 128 <==> 2 * (x % Scale(n)) >= Scale(n))
    decreases n
  {
    if n == 1 {
      assert Encode(x, 1) == [x % 256] && Encode(x, 1)[..0] == [] && Scale(1) == 256;
    } else if n > 1 {
      EncodeUnsigned(x / 256, n - 1);
      ModByParts(x, Scale(n - 1));
      assert Encode(x, n)[..n - 1] == Encode(x / 256, n - 1);
      HighBit(x / 256 % Scale(n - 1), x % 256, Scale(n - 2));
    }
  }

  /** The low byte does not decide whether a value reaches half its range. */
  lemma HighBit(m: int, low: nat, s: int)
    requires low < 256
    ensures 2 * m >= 256 * s <==> 2 * (m * 256 + low) >= 256 * (256 * s)
  {
    assert 2 * m < 256 * s ==> m <= 128 * s - 1;
  }

  /** Network byte order: the most significant byte comes first. */
  lemma {:induction false} NetworkOrder(x: int, n: nat, k: nat)
    requires k < n
    ensures Encode(x, n)[k] == x / Scale(n - 1 - k) % 256
    ensures Scale(0) == 1 && Scale(1) == 0x100 && Scale(3) == 0x100_0000 && Scale(7) == 0x100_0000_0000_0000
    decreases n
  {
    assert Scale(3) == 256 * Scale(2) == 256 * (256 * Scale(1));
    assert Scale(7) == 256 * Scale(6) == 256 * (256 * Scale(5)) == 256 * (256 * (256 * Scale(4)));
    if k == n - 1 {
      assert x / 1 == x;
    } else {
      NetworkOrder(x / 256, n - 1, k);
      DivideTwice(x, Scale(n - 2 - k));
    }
  }

  lemma DivideTwice(x: int, s: int)
    requires s > 0
    ensures x / 256 / s == x / (256 * s)
  {
    var h := x / 256;
    var q, r := h / s, h % s;
    assert h == q * s + r;
    assert x == q * (256 * s) + (r * 256 + x % 256);
    DivideUnique(x, 256 * s, q, r * 256 + x % 256);
  }

  lemma DivideUnique(x: int, m: int, q: int, r: int)
    requires m > 0 && x == q * m + r && 0 <= r < m
    ensures x / m == q
  {
    var k := x / m;
    assert x == k * m + x % m;
    assert m * (k - q) == r - x % m;
    var d := k - q;
    assert d >= 1 ==> m * d >= m;
    assert d <= -1 ==> m * d <= -m;
  }

  lemma ModByParts(x: int, s: int)
    requires s > 0
    ensures x % (256 * s) == x / 256 % s * 256 + x % 256
  {
    var h := x / 256;
    var q, r := h / s, h % s;
    assert h == q * s + r;
    assert x == q * (256 * s) + (r * 256 + x % 256);
    ModUnique(x, 256 * s, q, r * 256 + x % 256);
  }

  lemma ModUnique(x: int, m: int, q: int, r: int)
    requires m > 0 && x == q * m + r && 0 <= r < m
    ensures x % m == r
  {
    var k := x / m;
    assert x == k * m + x % m;
    assert m * (k - q) == r - x % m;
    var d := k - q;
    assert d >= 1 ==> m * d >= m;
    assert d <= -1 ==> m * d <= -m;
  }

  /** Reading back what was appended: every signed integer of the width survives. */
  lemma IntegerRoundTrip(x: int, n: nat)
    requires Fits(x, n)
    ensures Decode(Encode(x, n)) == x
  {
    EncodeUnsigned(x, n);
    if x >= 0 {
      ModUnique(x, Scale(n), 0, x);
    } else {
      ModUnique(x, Scale(n), -1, x + Scale(n));
    }
  }

  lemma {:induction false} UnsignedBound(s: seq<Byte>)
    ensures 0 <= Unsigned(s) < Scale(|s|)
    ensures s != [] ==> (s[0] >= 128 <==> 2 * Unsigned(s) >= Scale(|s|))
    decreases |s|
  {
    if |s| > 1 {
      UnsignedBound(s[..|s| - 1]);
      HighBit(Unsigned(s[..|s| - 1]), s[|s| - 1], Scale(|s| - 2));
    } else if |s| == 1 {
      assert s[..0] == [] && Scale(1) == 256;
    }
  }

  /** And every group of bytes is the encoding of the integer it decodes to. */
  lemma BytesRoundTrip(s: seq<Byte>)
    requires s != []
    ensures Fits(Decode(s), |s|) && Encode(Decode(s), |s|) == s
  {
    hide Encode, Unsigned, Scale;
    UnsignedBound(s);
    EncodeShift(s, -1);
    EncodeShift(s, 0);
    assert -1 * Scale(|s|) == -Scale(|s|) && 0 * Scale(|s|) == 0;
  }

  lemma {:induction false} EncodeShift(s: seq<Byte>, k: int)
    ensures Encode(Unsigned(s) + k * Scale(|s|), |s|) == s
    decreases |s|
  {
    if s != [] {
      var high, low := s[..|s| - 1], s[|s| - 1];
      var h := Unsigned(high) + k * Scale(|high|);
      EncodeShift(high, k);
      ShiftByParts(Unsigned(high), k, Scale(|high|), low);
      assert Unsigned(s) == Unsigned(high) * 256 + low && Scale(|s|) == 256 * Scale(|high|);
      EncodeLast(h, low, |s|);
      hide Encode, Unsigned, Scale;
      assert s == high + [low];
    }
  }

  lemma ShiftByParts(u: int, k: int, s: int, low: int)
    ensures (u * 256 + low) + k * (256 * s) == (u + k * s) * 256 + low
  {
  }

  lemma EncodeLast(h: int, low: Byte, n: nat)
    requires n > 0
    ensures Encode(h * 256 + low, n) == Encode(h, n - 1) + [low]
  {
    assert (h * 256 + low) / 256 == h && (h * 256 + low) % 256 == low;
  }

  // ---------- The buffer ----------

  /** What `readv` reports: the bytes it delivered, or an errno. */
  datatype ReadResult = Delivered(bytes: seq<Byte>) | Failed(errno: int)

  /** The operations of a buffer's user, for whole sequences of them. */
  datatype Op =
    | AppendOp(data: seq<Byte>)
    | PrependOp(data: seq<Byte>)
    | RetrieveOp(len: nat)
    | UnwriteOp(len: nat)
    | ShrinkOp(reserve: nat)
    | ReadFdOp(result: ReadResult)
    | AppendIntOp(x: int, width: nat)
    | PrependIntOp(y: int, prependWidth: nat)
    | ReadIntOp(width: nat)

  /** The same operations on a plain sequence of bytes. */
  function Meaning(c: seq<Byte>, op: Op): seq<Byte> {
    match op
    case AppendOp(data) => c + data
    case PrependOp(data) => data + c
    case RetrieveOp(len) => if len <= |c| then c[len..] else c
    case UnwriteOp(len) => if len <= |c| then c[..|c| - len] else c
    case ShrinkOp(_) => c
    case ReadFdOp(result) => if result.Delivered? then c + result.bytes else c
    case AppendIntOp(x, width) => c + Encode(x, width)
    case PrependIntOp(x, width) => Encode(x, width) + c
    case ReadIntOp(width) => if width <= |c| then c[width..] else c
  }

  function MeaningOfAll(c: seq<Byte>, ops: seq<Op>): seq<Byte> {
    if ops == [] then c else Meaning(MeaningOfAll(c, ops[..|ops| - 1]), ops[|ops| - 1])
  }

  /** The integers that the reads of `ops` return. */
  function ValuesRead(c: seq<Byte>, ops: seq<Op>): seq<int> {
    if ops == [] then []
    else
      var before := ops[..|ops| - 1];
      ValuesRead(c, before) + ValueRead(MeaningOfAll(c, before), ops[|ops| - 1])
  }

  function ValueRead(c: seq<Byte>, op: Op): seq<int> {
    if op.ReadIntOp? && op.width <= |c| then [Decode(c[..op.width])] else []
  }

  class Buffer {
    var buffer: array<Byte>
    var readerIndex: nat
    var writerIndex: nat

    ghost predicate Valid()
      reads this
    {
      readerIndex <= writerIndex <= buffer.Length && K_CHEAP_PREPEND <= buffer.Length
    }

    ghost function Contents(): seq<Byte>
      requires Valid()
      reads this, buffer
    {
      buffer[readerIndex..writerIndex]
    }

    function ReadableBytes(): nat
      requires Valid()
      reads this
    {
      writerIndex - readerIndex
    }

    function WritableBytes(): nat
      requires Valid()
      reads this
    {
      buffer.Length - writerIndex
    }

    constructor (initialSize: nat)
      ensures Valid() && fresh(buffer)
      ensures Contents() == [] && WritableBytes() == initialSize && readerIndex == 8
    {
      buffer := new Byte[K_CHEAP_PREPEND + initialSize](_ => 0);
      readerIndex, writerIndex := K_CHEAP_PREPEND, K_CHEAP_PREPEND;
    }

    method RetrieveAll()
      requires Valid()
      modifies this`readerIndex, this`writerIndex
      ensures Valid() && Contents() == [] && readerIndex == 8
    {
      readerIndex, writerIndex := K_CHEAP_PREPEND, K_CHEAP_PREPEND;
    }

    method Retrieve(len: nat)
      requires Valid() && len <= ReadableBytes()
      modifies this`readerIndex, this`writerIndex
      ensures Valid() && Contents() == old(Contents())[len..]
      ensures readerIndex == if len < old(ReadableBytes()) then old(readerIndex) + len else 8
    {
      if len < ReadableBytes() {
        readerIndex := readerIndex + len;
      } else {
        RetrieveAll();
      }
    }

    method RetrieveAsString(len: nat) returns (result: seq<Byte>)
      requires Valid() && len <= ReadableBytes()
      modifies this`readerIndex, this`writerIndex
      ensures Valid() && result + Contents() == old(Contents()) && |result| == len
    {
      result := buffer[readerIndex..readerIndex + len];
      Retrieve(len);
    }

    /** Room for `len` more bytes: a larger vector, or the readable bytes moved to the front. */
    method MakeSpace(len: nat)
      requires Valid() && WritableBytes() < len
      modifies this, buffer
      ensures Valid() && (buffer == old(buffer) || fresh(buffer))
      ensures Contents() == old(Contents()) && WritableBytes() >= len
      ensures buffer == old(buffer) <==> old(WritableBytes() + readerIndex) >= len + 8
      ensures readerIndex == if buffer == old(buffer) then 8 else old(readerIndex)
      ensures WritableBytes() == if buffer == old(buffer) then old(WritableBytes() + readerIndex) - 8 else len
    {
      if WritableBytes() + readerIndex < len + K_CHEAP_PREPEND {
        buffer := Resized(writerIndex + len);
      } else {
        assert K_CHEAP_PREPEND < readerIndex;
        var readable := ReadableBytes();
        MoveToFront();
        readerIndex := K_CHEAP_PREPEND;
        writerIndex := readerIndex + readable;
        assert readable == ReadableBytes();
      }
    }

    /** `vector::resize` to a larger size. */
    method Resized(size: nat) returns (larger: array<Byte>)
      requires Valid() && size >= writerIndex
      ensures fresh(larger) && larger.Length == size
      ensures larger[readerIndex..writerIndex] == Contents()
    {
      larger := new Byte[size](_ => 0);
      for i := 0 to writerIndex
        invariant larger[..i] == buffer[..i]
      {
        larger[i] := buffer[i];
      }
      assert larger[readerIndex..writerIndex] == larger[..writerIndex][readerIndex..];
      assert Contents() == buffer[..writerIndex][readerIndex..];
    }

    /** The copy of the readable bytes within the vector, front to back; the ranges may overlap. */
    method MoveToFront()
      requires Valid() && K_CHEAP_PREPEND < readerIndex
      modifies buffer
      ensures buffer[K_CHEAP_PREPEND..K_CHEAP_PREPEND + ReadableBytes()] == old(Contents())
    {
      ghost var c := Contents();
      for i := 0 to ReadableBytes()
        invariant forall k :: 0 <= k < i ==> buffer[K_CHEAP_PREPEND + k] == c[k]
        invariant forall k :: i <= k < |c| ==> buffer[readerIndex + k] == c[k]
      {
        buffer[K_CHEAP_PREPEND + i] := buffer[readerIndex + i];
      }
    }

    method EnsureWritableBytes(len: nat)
      requires Valid()
      modifies this, buffer
      ensures Valid() && (buffer == old(buffer) || fresh(buffer))
      ensures Contents() == old(Contents()) && WritableBytes() >= len
      ensures buffer == old(buffer) <==> old(WritableBytes()) >= len || old(WritableBytes() + readerIndex) >= len + 8
      ensures readerIndex == if buffer != old(buffer) || old(WritableBytes()) >= len then old(readerIndex) else 8
      ensures buffer != old(buffer) ==> WritableBytes() == len
      ensures old(WritableBytes()) >= len ==> WritableBytes() == old(WritableBytes())
    {
      if WritableBytes() < len {
        MakeSpace(len);
      }
    }

    /** `std::copy` of `data` to `begin() + at`. */
    method CopyTo(at: nat, data: seq<Byte>)
      requires at + |data| <= buffer.Length
      modifies buffer
      ensures buffer[at..at + |data|] == data
      ensures buffer[..at] == old(buffer[..at]) && buffer[at + |data|..] == old(buffer[at + |data|..])
    {
      for i := 0 to |data|
        invariant buffer[at..at + i] == data[..i]
        invariant buffer[..at] == old(buffer[..at]) && buffer[at + i..] == old(buffer[at + i..])
      {
        ghost var rest := buffer[at + i..];
        buffer[at + i] := data[i];
        assert buffer[at..at + i + 1] == buffer[at..at + i] + [data[i]];
        assert buffer[at + i + 1..] == rest[1..];
      }
    }

    /** Copies `data` behind the readable bytes, without counting it as written yet. */
    method CopyIn(data: seq<Byte>)
      requires Valid() && |data| <= WritableBytes()
      modifies buffer
      ensures Contents() == old(Contents()) && buffer[writerIndex..writerIndex + |data|] == data
    {
      CopyTo(writerIndex, data);
      assert Contents() == buffer[..writerIndex][readerIndex..];
      assert old(Contents()) == old(buffer[..writerIndex])[readerIndex..];
    }

    method HasWritten(len: nat)
      requires Valid() && len <= WritableBytes()
      modifies this`writerIndex
      ensures Valid() && Contents() == old(Contents()) + old(buffer[writerIndex..writerIndex + len])
      ensures WritableBytes() == old(WritableBytes()) - len
    {
      writerIndex := writerIndex + len;
    }

    /** Appends what fits already. */
    method Write(data: seq<Byte>)
      requires Valid() && |data| <= WritableBytes()
      modifies this`writerIndex, buffer
      ensures Valid() && Contents() == old(Contents()) + data
      ensures WritableBytes() == old(WritableBytes()) - |data|
    {
      CopyIn(data);
      HasWritten(|data|);
    }

    method Append(data: seq<Byte>)
      requires Valid()
      modifies this, buffer
      ensures Valid() && (buffer == old(buffer) || fresh(buffer))
      ensures Contents() == old(Contents()) + data
      ensures buffer == old(buffer) <==>
              old(WritableBytes()) >= |data| || old(WritableBytes() + readerIndex) >= |data| + 8
      ensures readerIndex == if buffer != old(buffer) || old(WritableBytes()) >= |data| then old(readerIndex) else 8
      ensures buffer != old(buffer) ==> WritableBytes() == 0
    {
      EnsureWritableBytes(|data|);
      Write(data);
    }

    method Unwrite(len: nat)
      requires Valid() && len <= ReadableBytes()
      modifies this`writerIndex
      ensures Valid() && Contents() == old(Contents())[..|old(Contents())| - len]
    {
      writerIndex := writerIndex - len;
    }

    /** Puts `data` before the readable bytes; it must fit the prependable area. */
    method Prepend(data: seq<Byte>)
      requires Valid() && |data| <= readerIndex
      modifies this`readerIndex, buffer
      ensures Valid() && Contents() == data + old(Contents())
      ensures readerIndex == old(readerIndex) - |data|
    {
      ghost var end := readerIndex;
      readerIndex := readerIndex - |data|;
      CopyTo(readerIndex, data);
      assert buffer[end..writerIndex] == buffer[end..][..writerIndex - end];
      assert Contents() == buffer[readerIndex..end] + buffer[end..writerIndex];
    }

    /** A new vector holding the readable bytes and `reserve` more. */
    method Shrink(reserve: nat)
      requires Valid()
      modifies this
      ensures Valid() && fresh(buffer)
      ensures Contents() == old(Contents()) && readerIndex == 8
      ensures WritableBytes() == if old(ReadableBytes()) + reserve <= 1024 then 1024 - old(ReadableBytes()) else reserve
    {
      var other := new Buffer(K_INITIAL_SIZE);
      other.EnsureWritableBytes(ReadableBytes() + reserve);
      var readable := buffer[readerIndex..writerIndex];
      assert readable == old(Contents());
      other.Write(readable);
      assert other.Contents() == readable;
      assert other.buffer[other.readerIndex..other.writerIndex] == readable;
      buffer, readerIndex, writerIndex := other.buffer, other.readerIndex, other.writerIndex;
      assert buffer[readerIndex..writerIndex] == readable;
    }

    /** How much one `readFd` can take: the free space, and the extra buffer when that space is small. */
    function ReadLimit(): nat
      requires Valid()
      reads this
    {
      if WritableBytes() < K_EXTRA_BUFFER then WritableBytes() + K_EXTRA_BUFFER else WritableBytes()
    }

    /** The scatter read: what does not fit behind the readable bytes goes through the extra buffer. */
    method ReadFd(result: ReadResult) returns (n: int, savedErrno: int)
      requires Valid() && (result.Delivered? ==> |result.bytes| <= ReadLimit())
      modifies this, buffer
      ensures Valid() && (buffer == old(buffer) || fresh(buffer))
      ensures result.Failed? ==> n < 0 && savedErrno == result.errno && Contents() == old(Contents())
      ensures result.Delivered? ==> n == |result.bytes| && Contents() == old(Contents()) + result.bytes
      ensures readerIndex == old(readerIndex) || readerIndex == 8
    {
      savedErrno := 0;
      match result
      case Failed(errno) =>
        n := -1;
        savedErrno := errno;
      case Delivered(bytes) =>
        n := |bytes|;
        var writable := WritableBytes();
        if |bytes| <= writable {
          Write(bytes);
        } else {
          Write(bytes[..writable]);
          Append(bytes[writable..]);
          assert bytes == bytes[..writable] + bytes[writable..];
        }
    }

    // ---------- Integers ----------

    method AppendInt(x: int, width: nat)
      requires Valid()
      modifies this, buffer
      ensures Valid() && (buffer == old(buffer) || fresh(buffer))
      ensures Contents() == old(Contents()) + Encode(x, width)
    {
      Append(Encode(x, width));
    }

    method PrependInt(x: int, width: nat)
      requires Valid() && width <= readerIndex
      modifies this`readerIndex, buffer
      ensures Valid() && Contents() == Encode(x, width) + old(Contents())
    {
      Prepend(Encode(x, width));
    }

    method PeekInt(width: nat) returns (x: int)
      requires Valid() && 0 < width <= ReadableBytes()
      ensures Encode(x, width) == Contents()[..width] && Fits(x, width)
    {
      x := Decode(buffer[readerIndex..readerIndex + width]);
      BytesRoundTrip(buffer[readerIndex..readerIndex + width]);
      assert buffer[readerIndex..readerIndex + width] == Contents()[..width];
    }

    /** Consumes an integer: the one whose encoding comes first. */
    method ReadInt(width: nat) returns (x: int)
      requires Valid() && 0 < width <= ReadableBytes()
      modifies this`readerIndex, this`writerIndex
      ensures Valid() && Encode(x, width) + Contents() == old(Contents()) && Fits(x, width)
    {
      x := PeekInt(width);
      Retrieve(width);
    }

    // ---------- Whole sequences of operations ----------

    /** The source asserts this of its callers. */
    predicate Allowed(op: Op)
      requires Valid()
      reads this
    {
      match op
      case PrependOp(data) => |data| <= readerIndex
      case PrependIntOp(_, width) => width <= readerIndex
      case RetrieveOp(len) => len <= ReadableBytes()
      case UnwriteOp(len) => len <= ReadableBytes()
      case ReadIntOp(width) => 0 < width <= ReadableBytes()
      case ReadFdOp(result) => result.Delivered? ==> |result.bytes| <= ReadLimit()
      case _ => true
    }

    method Perform(op: Op) returns (values: seq<int>)
      requires Valid() && Allowed(op)
      modifies this, buffer
      ensures Valid() && (buffer == old(buffer) || fresh(buffer))
      ensures Contents() == Meaning(old(Contents()), op) && values == ValueRead(old(Contents()), op)
      ensures match op
              case AppendOp(data) => Contents() == old(Contents()) + data && values == []
              case PrependOp(data) => Contents() == data + old(Contents()) && values == []
              case RetrieveOp(len) => Contents() == old(Contents())[len..] && values == []
              case UnwriteOp(len) => Contents() == old(Contents())[..|old(Contents())| - len] && values == []
              case ShrinkOp(_) => Contents() == old(Contents()) && values == []
              case ReadFdOp(result) =>
                Contents() == old(Contents()) + (if result.Delivered? then result.bytes else []) && values == []
              case AppendIntOp(x, width) => Contents() == old(Contents()) + Encode(x, width) && values == []
              case PrependIntOp(x, width) => Contents() == Encode(x, width) + old(Contents()) && values == []
              case ReadIntOp(width) =>
                |values| == 1 && Fits(values[0], width) && Encode(values[0], width) + Contents() == old(Contents())
    {
      values := [];
      match op
      case AppendOp(data) => Append(data);
      case PrependOp(data) => Prepend(data);
      case RetrieveOp(len) => Retrieve(len);
      case UnwriteOp(len) => Unwrite(len);
      case ShrinkOp(reserve) => Shrink(reserve);
      case ReadFdOp(result) => var _, _ := ReadFd(result);
      case AppendIntOp(x, width) => AppendInt(x, width);
      case PrependIntOp(x, width) => PrependInt(x, width);
      case ReadIntOp(width) =>
        ghost var c := Contents();
        var x := ReadInt(width);
        EncodedFirst(x, width, Contents());
        values := [x];
    }

    /** Any sequence of operations, up to the first that breaks its precondition, acts on the bytes alone. */
    method PerformAll(ops: seq<Op>) returns (done: nat, values: seq<int>)
      requires Valid()
      modifies this, buffer
      ensures Valid() && (buffer == old(buffer) || fresh(buffer))
      ensures done <= |ops| && Contents() == MeaningOfAll(old(Contents()), ops[..done])
      ensures values == ValuesRead(old(Contents()), ops[..done])
      ensures done < |ops| ==> !Allowed(ops[done])
    {
      done, values := 0, [];
      while done < |ops| && Allowed(ops[done])
        invariant Valid() && (buffer == old(buffer) || fresh(buffer))
        invariant done <= |ops| && Contents() == MeaningOfAll(old(Contents()), ops[..done])
        invariant values == ValuesRead(old(Contents()), ops[..done])
      {
        var more := Perform(ops[done]);
        values := values + more;
        assert ops[..done + 1][..done] == ops[..done];
        done := done + 1;
      }
    }

    // ---------- Searching ----------

    /** The first CRLF among the readable bytes, at or after offset `start`. */
    method FindCRLF(start: nat) returns (at: Option<nat>)
      requires Valid() && start <= ReadableBytes()
      ensures at.Some? ==> start <= at.value && IsCRLF(Contents(), at.value)
      ensures forall k :: start <= k < (if at.Some? then at.value else ReadableBytes()) ==> !IsCRLF(Contents(), k)
    {
      var i := start;
      while i + 2 <= ReadableBytes()
        invariant start <= i
        invariant forall k :: start <= k < i ==> !IsCRLF(Contents(), k)
      {
        if buffer[readerIndex + i] == 13 && buffer[readerIndex + i + 1] == 10 {
          return Some(i);
        }
        i := i + 1;
      }
      return None;
    }
  }

  predicate IsCRLF(s: seq<Byte>, i: nat) {
    i + 2 <= |s| && s[i] == 13 && s[i + 1] == 10
  }

  // ---------- Integers through a buffer ----------

  /** What reading finds at the front. */
  lemma EncodedFirst(x: int, width: nat, rest: seq<Byte>)
    requires Fits(x, width)
    ensures var c := Encode(x, width) + rest;
            width <= |c| && Decode(c[..width]) == x && c[width..] == rest
  {
    IntegerRoundTrip(x, width);
    var first := Encode(x, width);
    hide Encode, Decode, Fits;
    assert (first + rest)[..width] == first;
  }

  /** An integer and the width it is written with. */
  datatype Field = Field(x: int, width: nat)

  predicate FieldFits(f: Field) {
    f.width > 0 && Fits(f.x, f.width)
  }

  function EncodeAll(fields: seq<Field>): seq<Byte> {
    if fields == [] then []
    else EncodeAll(fields[..|fields| - 1]) + Encode(fields[|fields| - 1].x, fields[|fields| - 1].width)
  }

  lemma EncodeAllSnoc(fields: seq<Field>, f: Field)
    ensures EncodeAll(fields + [f]) == EncodeAll(fields) + Encode(f.x, f.width)
  {
    hide Encode;
    assert (fields + [f])[..|fields|] == fields;
  }

  lemma EncodeAllOne(f: Field)
    ensures EncodeAll([f]) == Encode(f.x, f.width) + EncodeAll([])
  {
    hide Encode;
    assert [f][..0] == [];
    assert EncodeAll([]) + Encode(f.x, f.width) == Encode(f.x, f.width) + EncodeAll([]);
  }

  lemma {:induction false} EncodeAllFirst(first: Field, rest: seq<Field>)
    ensures EncodeAll([first] + rest) == Encode(first.x, first.width) + EncodeAll(rest)
    decreases |rest|
  {
    var head := Encode(first.x, first.width);
    if rest == [] {
      EncodeAllOne(first);
      hide Encode, EncodeAll;
      assert [first] + rest == [first] && rest == [];
    } else {
      var init, last := rest[..|rest| - 1], rest[|rest| - 1];
      EncodeAllFirst(first, init);
      EncodeAllSnoc([first] + init, last);
      EncodeAllSnoc(init, last);
      hide Encode, EncodeAll;
      assert rest == init + [last];
      assert [first] + rest == ([first] + init) + [last];
      Regroup(head, EncodeAll(init), Encode(last.x, last.width));
    }
  }

  lemma Regroup(a: seq<Byte>, b: seq<Byte>, c: seq<Byte>)
    ensures (a + b) + c == a + (b + c)
  {
  }

  /** The integers written and not read yet, when `ops` only write and read integers. */
  function Unread(fields: seq<Field>, ops: seq<Op>): seq<Field> {
    if ops == [] then fields
    else
      var before := Unread(fields, ops[..|ops| - 1]);
      match ops[|ops| - 1]
      case AppendIntOp(x, width) => before + [Field(x, width)]
      case _ => if before == [] then [] else before[1..]
  }

  /** Integers that fit their width are written, and each is read with the width it was written with. */
  predicate Typed(fields: seq<Field>, ops: seq<Op>) {
    ops == [] ||
    (Typed(fields, ops[..|ops| - 1]) &&
     match ops[|ops| - 1]
     case AppendIntOp(x, width) => FieldFits(Field(x, width))
     case ReadIntOp(width) =>
       var before := Unread(fields, ops[..|ops| - 1]);
       before != [] && before[0].width == width
     case _ => false)
  }

  function Integers(fields: seq<Field>): seq<int> {
    seq(|fields|, i requires 0 <= i < |fields| => fields[i].x)
  }

  function Written(ops: seq<Op>): seq<int> {
    if ops == [] then []
    else Written(ops[..|ops| - 1]) + if ops[|ops| - 1].AppendIntOp? then [ops[|ops| - 1].x] else []
  }

  /** A buffer holding `unread` still, after `values` were read, when `written` had been put in altogether. */
  predicate InOrder(c: seq<Byte>, unread: seq<Field>, values: seq<int>, written: seq<int>) {
    && c == EncodeAll(unread)
    && (forall f <- unread :: FieldFits(f))
    && values + Integers(unread) == written
  }

  /**
   However writes and reads of integers are mixed, the values read, and then those still in the buffer,
   are the values that were there and those written, in order.
   */
  lemma {:induction false} ReadInOrder(fields: seq<Field>, ops: seq<Op>)
    requires Typed(fields, ops) && forall f <- fields :: FieldFits(f)
    ensures var c := EncodeAll(fields);
            InOrder(MeaningOfAll(c, ops), Unread(fields, ops), ValuesRead(c, ops), Integers(fields) + Written(ops))
  {
    var c := EncodeAll(fields);
    hide EncodeAll, FieldFits, Integers;
    if ops == [] {
      assert Integers(fields) + [] == [] + Integers(fields);
    } else {
      var before, op := ops[..|ops| - 1], ops[|ops| - 1];
      ReadInOrder(fields, before);
      var unread, values := Unread(fields, before), ValuesRead(c, before);
      if op.AppendIntOp? {
        WriteNext(MeaningOfAll(c, before), unread, values, Integers(fields) + Written(before), Field(op.x, op.width));
        hide InOrder;
        assert Integers(fields) + (Written(before) + [op.x]) == Integers(fields) + Written(before) + [op.x];
        assert values + [] == values;
      } else {
        ReadNext(MeaningOfAll(c, before), unread, values, Integers(fields) + Written(before));
        hide InOrder;
        assert Written(before) + [] == Written(before);
      }
    }
  }

  lemma WriteNext(c: seq<Byte>, unread: seq<Field>, values: seq<int>, written: seq<int>, f: Field)
    requires InOrder(c, unread, values, written) && FieldFits(f)
    ensures InOrder(Meaning(c, AppendIntOp(f.x, f.width)), unread + [f], values, written + [f.x])
  {
    EncodeAllSnoc(unread, f);
    hide EncodeAll, Encode, FieldFits;
    assert Integers(unread + [f]) == Integers(unread) + [f.x];
    hide Integers;
    assert values + (Integers(unread) + [f.x]) == values + Integers(unread) + [f.x];
  }

  lemma ReadNext(c: seq<Byte>, unread: seq<Field>, values: seq<int>, written: seq<int>)
    requires InOrder(c, unread, values, written) && unread != []
    ensures var op := ReadIntOp(unread[0].width);
            InOrder(Meaning(c, op), unread[1..], values + ValueRead(c, op), written)
  {
    var first, rest := unread[0], unread[1..];
    assert first in unread && FieldFits(first);
    assert unread == [first] + rest;
    EncodeAllFirst(first, rest);
    EncodedFirst(first.x, first.width, EncodeAll(rest));
    hide EncodeAll, Encode, Decode, FieldFits, Fits;
    assert Integers(unread) == [first.x] + Integers(rest);
    hide Integers;
    assert values + ([first.x] + Integers(rest)) == values + [first.x] + Integers(rest);
  }
}
