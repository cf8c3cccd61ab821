/** The byte buffer of a connection: a growing array with a reader and a writer index, which
    behaves like a plain byte sequence. */
module ByteBuffer {
  import opened Division

  type byte = x: int | 0 <= x < 256

  const CHEAP_PREPEND := 8
  const INITIAL_SIZE := 1024

  /** The overflow area that `readFd` puts on the stack. */
  const EXTRA := 65536

  // ----- integers in network order -----

  function Power256(n: nat): (r: nat)
    ensures r >= 1
  {
    if n == 0 then 1 else 256 * Power256(n - 1)
  }

  /** The `size` low bytes of `x` in two's complement, most significant byte first. */
  function BigEndian(x: int, size: nat): (r: seq<byte>)
    ensures |r| == size
    decreases size
  {
    if size == 0 then [] else BigEndian(x / 256, size - 1) + [x % 256]
  }

  /** The unsigned value of bytes in network order. */
  function Unsigned(bytes: seq<byte>): nat {
    if bytes == [] then 0 else 256 * Unsigned(bytes[..|bytes| - 1]) + bytes[|bytes| - 1]
  }

  /** The two's complement value. */
  function Signed(bytes: seq<byte>): int {
    var u := Unsigned(bytes);
    if 2 * u < Power256(|bytes|) then u else u - Power256(|bytes|)
  }

  /** The byte at position `k` is worth 256 to the number of bytes behind it. */
  lemma {:induction false} ByteAt(x: int, size: nat, k: nat)
    requires k < size
    ensures BigEndian(x, size)[k] == (x / Power256(size - 1 - k)) % 256
    decreases size
  {
    if k < size - 1 {
      ByteAt(x / 256, size - 1, k);
      var p := Power256(size - 2 - k);
      QuotientIs(x, 256 * p, (x / 256) / p, x % (256 * p)) by { DivMod(x, p); Regrouped(x, p); }
    }
  }

  lemma Regrouped(x: int, p: nat)
    requires p >= 1 && 256 * ((x / 256) % p) + x % 256 == x % (256 * p)
    ensures x == 256 * p * ((x / 256) / p) + x % (256 * p)
  {
    var q, m := (x / 256) / p, (x / 256) % p;
    assert x / 256 == p * q + m && x == 256 * (x / 256) + x % 256;
    assert 256 * p * q == 256 * (p * q);
  }

  predicate FitsIn(x: int, size: nat) {
    var p: int := Power256(size);
    -p <= 2 * x < p
  }

  lemma DivMod(x: int, p: nat)
    requires p >= 1
    ensures 256 * ((x / 256) % p) + x % 256 == x % (256 * p)
  {
    var q, m := (x / 256) / p, (x / 256) % p;
    assert x / 256 == q * p + m;
    assert x == 256 * (x / 256) + x % 256;
    assert x == q * (256 * p) + (256 * m + x % 256);
    QuotientIs(x, 256 * p, q, 256 * m + x % 256);
  }

  lemma {:induction false} UnsignedOfBigEndian(x: int, size: nat)
    ensures Unsigned(BigEndian(x, size)) == x % Power256(size)
    decreases size
  {
    if size > 0 {
      UnsignedOfBigEndian(x / 256, size - 1);
      assert BigEndian(x, size)[..size - 1] == BigEndian(x / 256, size - 1);
      DivMod(x, Power256(size - 1));
    }
  }

  /** Every integer that fits is read back as written. */
  lemma ReadBack(x: int, size: nat)
    requires FitsIn(x, size)
    ensures Signed(BigEndian(x, size)) == x
  {
    UnsignedOfBigEndian(x, size);
    var p := Power256(size);
    if x >= 0 {
      QuotientIs(x, p, 0, x);
    } else {
      QuotientIs(x, p, -1, x + p);
    }
  }

  lemma {:induction false} UnsignedBound(bytes: seq<byte>)
    ensures Unsigned(bytes) < Power256(|bytes|)
  {
    if bytes != [] {
      UnsignedBound(bytes[..|bytes| - 1]);
    }
  }

  lemma {:induction false} BigEndianOfUnsigned(bytes: seq<byte>, q: int)
    ensures BigEndian(Unsigned(bytes) + q * Power256(|bytes|), |bytes|) == bytes
  {
    if bytes != [] {
      var front, last := bytes[..|bytes| - 1], bytes[|bytes| - 1];
      var p := Power256(|front|);
      var x := Unsigned(bytes) + q * Power256(|bytes|);
      assert q * (256 * p) == 256 * (q * p);
      assert x == 256 * (Unsigned(front) + q * p) + last;
      assert x / 256 == Unsigned(front) + q * p && x % 256 == last;
      BigEndianOfUnsigned(front, q);
    }
  }

  /** Any bytes are those of the integer they are read as. */
  lemma WriteBack(bytes: seq<byte>)
    ensures FitsIn(Signed(bytes), |bytes|) && BigEndian(Signed(bytes), |bytes|) == bytes
  {
    hide Power256, BigEndian, Unsigned;
    UnsignedBound(bytes);
    if 2 * Unsigned(bytes) < Power256(|bytes|) {
      BigEndianOfUnsigned(bytes, 0);
    } else {
      BigEndianOfUnsigned(bytes, -1);
    }
  }

  /** `bytes` with `data` written over it from index `at` on. */
  function Spliced(bytes: seq<byte>, at: nat, data: seq<byte>): (r: seq<byte>)
    requires at + |data| <= |bytes|
    ensures |r| == |bytes|
  {
    bytes[..at] + data + bytes[at + |data|..]
  }

  lemma SplicedBehind(bytes: seq<byte>, at: nat, data: seq<byte>, from: nat)
    requires from <= at && at + |data| <= |bytes|
    ensures Spliced(bytes, at, data)[from..at] == bytes[from..at]
    ensures Spliced(bytes, at, data)[from..at + |data|] == bytes[from..at] + data
  {
  }

  lemma SplicedBefore(bytes: seq<byte>, at: nat, data: seq<byte>, to: nat)
    requires at + |data| <= to <= |bytes|
    ensures Spliced(bytes, at, data)[at..to] == data + bytes[at + |data|..to]
  {
  }

  lemma Shorter(bytes: seq<byte>, from: nat, to: nat, n: nat)
    requires from + n <= to <= |bytes|
    ensures bytes[from..to][..n] == bytes[from..from + n]
  {
  }

  predicate CrlfAt(s: seq<byte>, i: nat) {
    i + 1 < |s| && s[i] == 13 && s[i + 1] == 10
  }

  class Buffer {
    var buffer: array<byte>
    var readerIndex: nat
    var writerIndex: nat

    ghost predicate Valid()
      reads this
    {
      readerIndex <= writerIndex <= buffer.Length && CHEAP_PREPEND <= buffer.Length
    }

    ghost function Contents(): (s: seq<byte>)
      requires Valid()
      reads this, buffer
      ensures |s| == ReadableBytes()
      ensures s == buffer[..][readerIndex..writerIndex]
    {
      assert buffer[readerIndex..writerIndex] == buffer[..][readerIndex..writerIndex];
      buffer[readerIndex..writerIndex]
    }

    constructor (initialSize: nat)
      ensures Valid() && fresh(buffer) && Contents() == []
      ensures WritableBytes() == initialSize && PrependableBytes() == CHEAP_PREPEND
    {
      buffer := new byte[CHEAP_PREPEND + initialSize](_ => 0);
      readerIndex, writerIndex := CHEAP_PREPEND, CHEAP_PREPEND;
    }

    function ReadableBytes(): nat
      requires Valid()
      reads this
    {
      writerIndex - readerIndex
    }

    function WritableBytes(): nat
      requires Valid()
      reads this
    {
      buffer.Length - writerIndex
    }

    function PrependableBytes(): nat
      reads this
    {
      readerIndex
    }

    method RetrieveAll()
      requires Valid()
      modifies this
      ensures Valid() && buffer == old(buffer) && Contents() == []
      ensures PrependableBytes() == CHEAP_PREPEND
    {
      readerIndex, writerIndex := CHEAP_PREPEND, CHEAP_PREPEND;
    }

    method Retrieve(len: nat)
      requires Valid() && len <= ReadableBytes()
      modifies this
      ensures Valid() && buffer == old(buffer) && Contents() == old(Contents())[len..]
      ensures PrependableBytes() == if len < old(ReadableBytes()) then old(PrependableBytes()) + len else CHEAP_PREPEND
    {
      if len < ReadableBytes() {
        readerIndex := readerIndex + len;
      } else {
        RetrieveAll();
      }
    }

    method RetrieveAsString(len: nat) returns (result: seq<byte>)
      requires Valid() && len <= ReadableBytes()
      modifies this
      ensures Valid() && buffer == old(buffer)
      ensures result + Contents() == old(Contents()) && |result| == len
    {
      result := buffer[readerIndex..readerIndex + len];
      assert result == old(Contents())[..len];
      Retrieve(len);
    }

    /** Makes room for `len` bytes: grows the array, or moves the readable bytes to the front with
        a copy that may overlap. */
    method MakeSpace(len: nat)
      requires Valid() && WritableBytes() < len
      modifies this, buffer
      ensures Valid() && (buffer == old(buffer) || fresh(buffer))
      ensures Contents() == old(Contents()) && WritableBytes() >= len
    {
      if WritableBytes() + PrependableBytes() < len + CHEAP_PREPEND {
        var bigger := new byte[writerIndex + len](_ => 0);
        var i := 0;
        while i < buffer.Length
          invariant 0 <= i <= buffer.Length
          invariant forall k :: 0 <= k < i ==> bigger[k] == buffer[k]
          modifies bigger
        {
          bigger[i] := buffer[i];
          i := i + 1;
        }
        buffer := bigger;
      } else {
        assert CHEAP_PREPEND < readerIndex;
        var readable := ReadableBytes();
        var i := 0;
        while i < readable
          invariant 0 <= i <= readable
          invariant buffer[CHEAP_PREPEND..CHEAP_PREPEND + i] == old(Contents())[..i]
          invariant buffer[readerIndex + i..writerIndex] == old(Contents())[i..]
          modifies buffer
        {
          assert buffer[readerIndex + i] == buffer[readerIndex + i..writerIndex][0];
          buffer[CHEAP_PREPEND + i] := buffer[readerIndex + i];
          i := i + 1;
        }
        readerIndex := CHEAP_PREPEND;
        writerIndex := readerIndex + readable;
        assert readable == ReadableBytes();
      }
    }

    method EnsureWritableBytes(len: nat)
      requires Valid()
      modifies this, buffer
      ensures Valid() && (buffer == old(buffer) || fresh(buffer))
      ensures Contents() == old(Contents()) && WritableBytes() >= len
      ensures old(WritableBytes()) >= len ==> buffer == old(buffer) && writerIndex == old(writerIndex)
    {
      if WritableBytes() < len {
        MakeSpace(len);
      }
      assert WritableBytes() >= len;
    }

    /** Copies data into the array from index `at` on. */
    method CopyIn(data: seq<byte>, at: nat)
      requires at + |data| <= buffer.Length
      modifies buffer
      ensures buffer[..] == Spliced(old(buffer[..]), at, data)
    {
      var i := 0;
      while i < |data|
        invariant 0 <= i <= |data|
        invariant forall k :: 0 <= k < i ==> buffer[at + k] == data[k]
        invariant forall k :: 0 <= k < buffer.Length && !(at <= k < at + i) ==> buffer[k] == old(buffer[k])
      {
        buffer[at + i] := data[i];
        i := i + 1;
      }
    }

    method HasWritten(len: nat)
      requires Valid() && len <= WritableBytes()
      modifies this`writerIndex
      ensures Valid() && writerIndex == old(writerIndex) + len
    {
      writerIndex := writerIndex + len;
    }

    method Append(data: seq<byte>)
      requires Valid()
      modifies this, buffer
      ensures Valid() && (buffer == old(buffer) || fresh(buffer))
      ensures Contents() == old(Contents()) + data
      ensures old(WritableBytes()) >= |data| ==> buffer == old(buffer) && writerIndex == old(writerIndex) + |data|
    {
      hide Spliced;
      EnsureWritableBytes(|data|);
      ghost var bytes := buffer[..];
      CopyIn(data, writerIndex);
      SplicedBehind(bytes, writerIndex, data, readerIndex);
      HasWritten(|data|);
    }

    method Unwrite(len: nat)
      requires Valid() && len <= ReadableBytes()
      modifies this
      ensures Valid() && buffer == old(buffer)
      ensures Contents() == old(Contents())[..old(ReadableBytes()) - len]
    {
      Shorter(buffer[..], readerIndex, writerIndex, ReadableBytes() - len);
      writerIndex := writerIndex - len;
    }

    method Prepend(data: seq<byte>)
      requires Valid() && |data| <= PrependableBytes()
      modifies this, buffer
      ensures Valid() && buffer == old(buffer)
      ensures Contents() == data + old(Contents())
    {
      hide Spliced;
      ghost var bytes := buffer[..];
      readerIndex := readerIndex - |data|;
      CopyIn(data, readerIndex);
      SplicedBefore(bytes, readerIndex, data, writerIndex);
    }

    /** Moves the contents to a buffer with room for `reserve` more bytes. */
    method Shrink(reserve: nat)
      requires Valid()
      modifies this
      ensures Valid() && fresh(buffer) && Contents() == old(Contents())
      ensures WritableBytes() >= reserve
    {
      var other := new Buffer(INITIAL_SIZE);
      other.EnsureWritableBytes(ReadableBytes() + reserve);
      other.Append(buffer[readerIndex..writerIndex]);
      buffer, readerIndex, writerIndex := other.buffer, other.readerIndex, other.writerIndex;
    }

    /** `incoming` is what the scattered read delivers: as much as fits into the spare space and,
        when that is small, the overflow area; `failed` is its error. */
    method ReadFd(incoming: seq<byte>, failed: bool) returns (n: int)
      requires Valid()
      requires |incoming| <= WritableBytes() + if WritableBytes() < EXTRA then EXTRA else 0
      requires failed ==> incoming == []
      modifies this, buffer
      ensures Valid() && (buffer == old(buffer) || fresh(buffer))
      ensures Contents() == old(Contents()) + incoming
      ensures n == if failed then -1 else |incoming|
    {
      hide Spliced;
      var writable := WritableBytes();
      var direct := if |incoming| <= writable then |incoming| else writable;
      ghost var bytes := buffer[..];
      CopyIn(incoming[..direct], writerIndex);
      SplicedBehind(bytes, writerIndex, incoming[..direct], readerIndex);
      assert buffer[readerIndex..writerIndex + direct] == buffer[..][readerIndex..writerIndex + direct];
      assert incoming[..direct] + incoming[direct..] == incoming;
      var extrabuf := incoming[direct..];
      n := if failed then -1 else |incoming|;
      if n < 0 {
      } else if n <= writable {
        writerIndex := writerIndex + n;
      } else {
        writerIndex := buffer.Length;
        Append(extrabuf);
      }
    }

    method AppendInt(x: int, size: nat)
      requires Valid() && FitsIn(x, size)
      modifies this, buffer
      ensures Valid() && (buffer == old(buffer) || fresh(buffer))
      ensures Contents() == old(Contents()) + BigEndian(x, size)
    {
      Append(BigEndian(x, size));
    }

    method PrependInt(x: int, size: nat)
      requires Valid() && FitsIn(x, size) && size <= PrependableBytes()
      modifies this, buffer
      ensures Valid() && buffer == old(buffer)
      ensures Contents() == BigEndian(x, size) + old(Contents())
    {
      Prepend(BigEndian(x, size));
    }

    method PeekInt(size: nat) returns (x: int)
      requires Valid() && size <= ReadableBytes()
      ensures FitsIn(x, size) && BigEndian(x, size) == Contents()[..size]
    {
      x := Signed(buffer[readerIndex..readerIndex + size]);
      WriteBack(buffer[readerIndex..readerIndex + size]);
    }

    /** Reads the integer that `AppendInt` or `PrependInt` wrote. */
    method ReadInt(size: nat) returns (x: int)
      requires Valid() && size <= ReadableBytes()
      modifies this
      ensures Valid() && buffer == old(buffer)
      ensures FitsIn(x, size) && old(Contents()) == BigEndian(x, size) + Contents()
      ensures forall y :: FitsIn(y, size) && old(Contents())[..size] == BigEndian(y, size) ==> x == y
    {
      x := PeekInt(size);
      forall y | FitsIn(y, size) && Contents()[..size] == BigEndian(y, size) ensures x == y {
        ReadBack(x, size);
        ReadBack(y, size);
      }
      Retrieve(size);
    }

    /** The first CR LF at or after `start`. */
    method FindCRLF(start: nat) returns (found: bool, i: nat)
      requires Valid() && start <= ReadableBytes()
      ensures found ==> start <= i && CrlfAt(Contents(), i)
      ensures forall k: nat :: start <= k < (if found then i else ReadableBytes()) ==> !CrlfAt(Contents(), k)
    {
      i := start;
      while i + 1 < ReadableBytes()
        invariant start <= i <= ReadableBytes()
        invariant forall k: nat :: start <= k < i ==> !CrlfAt(Contents(), k)
      {
        if buffer[readerIndex + i] == 13 && buffer[readerIndex + i + 1] == 10 {
          found := true;
          return;
        }
        i := i + 1;
      }
      found := false;
    }
  }
}
