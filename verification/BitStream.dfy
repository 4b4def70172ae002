/** The LSB-first bit stream and the buffered reader over it (deflate/bitreader.rs). */
module BitStream {
  import opened Words

  datatype DeflateError = UnexpectedEof | Invalid

  datatype Result<+T> = Ok(value: T) | Err(error: DeflateError)

  /** Bit q of the stream: bytes in order, each from its least significant bit; nothing is set past
      the end. */
  predicate StreamBit(input: seq<u8>, q: nat) {
    q / 8 < |input| && Bit(input[q / 8], q % 8)
  }

  /** The n bits from position p, the first one least significant. */
  function Val(input: seq<u8>, p: nat, n: nat): nat
    decreases n
  {
    if n == 0 then 0 else BitVal(StreamBit(input, p)) + 2 * Val(input, p + 1, n - 1)
  }

  /** n bytes from `pos` as a little-endian integer. */
  function LoadLE(input: seq<u8>, pos: nat, n: nat): nat
    requires pos + n <= |input|
    decreases n
  {
    if n == 0 then 0 else input[pos] + Shl(LoadLE(input, pos + 1, n - 1), 8)
  }

  lemma {:induction false} BitCat(x: nat, y: nat, n: nat, i: nat)
    requires x < Pow2(n)
    ensures Bit(x + Shl(y, n), i) == if i < n then Bit(x, i) else Bit(y, i - n)
  {
    if n > 0 && i > 0 {
      assert (x + Shl(y, n)) / 2 == x / 2 + Shl(y, n - 1);
      BitCat(x / 2, y, n - 1, i - 1);
    }
  }

  /** A little-endian load carries the stream's own bits. */
  lemma {:induction false} LoadBits(input: seq<u8>, pos: nat, n: nat, i: nat)
    requires pos + n <= |input|
    ensures Bit(LoadLE(input, pos, n), i) == (i < 8 * n && StreamBit(input, 8 * pos + i))
    decreases n
  {
    if n == 0 {
      BitZero(i);
    } else {
      assert Pow2(8) == 256;
      BitCat(input[pos], LoadLE(input, pos + 1, n - 1), 8, i);
      if i >= 8 { LoadBits(input, pos + 1, n - 1, i - 8); }
    }
  }

  lemma ValNone(input: seq<u8>, p: nat)
    ensures Val(input, p, 0) == 0
  {
  }

  lemma LoadOne(input: seq<u8>, pos: nat)
    requires pos < |input|
    ensures LoadLE(input, pos, 1) == input[pos]
  {
    assert LoadLE(input, pos + 1, 0) == 0;
    ShlOne(8);
  }

  lemma {:induction false} ValBits(input: seq<u8>, p: nat, n: nat, i: nat)
    ensures Bit(Val(input, p, n), i) == (i < n && StreamBit(input, p + i))
    decreases n
  {
    if n == 0 {
      BitZero(i);
    } else if i > 0 {
      ValBits(input, p + 1, n - 1, i - 1);
    }
  }

  lemma {:induction false} LowVal(input: seq<u8>, p: nat, m: nat, n: nat)
    requires n <= m
    ensures Low(Val(input, p, m), n) == Val(input, p, n)
    decreases n
  {
    if n > 0 { LowVal(input, p + 1, m - 1, n - 1); }
  }

  lemma {:induction false} ValBound(input: seq<u8>, p: nat, n: nat)
    ensures Val(input, p, n) < Pow2(n)
    decreases n
  {
    if n > 0 { ValBound(input, p + 1, n - 1); }
  }

  /** Bits that lie inside the stream do not change when more input arrives. */
  lemma {:induction false} ValExtend(input: seq<u8>, more: seq<u8>, p: nat, n: nat)
    requires p + n <= 8 * |input|
    ensures Val(input + more, p, n) == Val(input, p, n)
    decreases n
  {
    if n > 0 {
      assert (input + more)[p / 8] == input[p / 8];
      ValExtend(input, more, p + 1, n - 1);
    }
  }

  /** The first m bits, and the n after them above. */
  lemma {:induction false} SplitVal(input: seq<u8>, p: nat, m: nat, n: nat)
    ensures Val(input, p, m + n) == Val(input, p, m) + Shl(Val(input, p + m, n), m)
    decreases m
  {
    hide StreamBit;
    if m > 0 {
      SplitVal(input, p + 1, m - 1, n);
      assert p + 1 + (m - 1) == p + m;
    }
  }

  lemma {:induction false} ZerosVal(data: seq<u8>, p: nat, n: nat)
    requires forall q: nat | p <= q < p + n :: !StreamBit(data, q)
    ensures Val(data, p, n) == 0
    decreases n
  {
    if n > 0 { ZerosVal(data, p + 1, n - 1); }
  }

  /** An aligned byte is the stream's next eight bits. */
  lemma ValByte(input: seq<u8>, pos: nat)
    requires pos < |input|
    ensures Val(input, 8 * pos, 8) == input[pos]
  {
    hide Val, Low, Pow2;
    var v := Val(input, 8 * pos, 8);
    forall i: nat | i < 8 ensures Bit(v, i) == Bit(input[pos], i) {
      ValBits(input, 8 * pos, 8, i);
    }
    LowExt(v, input[pos], 8);
    ValBound(input, 8 * pos, 8);
    PowEight();
    LowSmall(v, 8);
    LowSmall(input[pos], 8);
  }

  lemma PowEight()
    ensures Pow2(8) == 256
  {
  }

  /** The accumulator invariant: the `bits` counted bits are the stream's from p on, and a bit set
      above the count is one the stream has there too. */
  ghost predicate Agrees(buf: nat, bits: nat, input: seq<u8>, p: nat) {
    && (forall i: nat | i < bits :: Bit(buf, i) == StreamBit(input, p + i))
    && (forall i: nat | Bit(buf, i) :: StreamBit(input, p + i))
  }

  /** Reading the counted bits reads the stream. */
  lemma AgreesLow(buf: nat, bits: nat, input: seq<u8>, p: nat, n: nat)
    requires Agrees(buf, bits, input, p) && n <= bits
    ensures Low(buf, n) == Val(input, p, n)
  {
    forall i: nat | i < n ensures Bit(buf, i) == Bit(Val(input, p, n), i) {
      ValBits(input, p, n, i);
    }
    LowExt(buf, Val(input, p, n), n);
    ValBound(input, p, n);
    LowSmall(Val(input, p, n), n);
  }

  /** Dropping counted bits moves the position. */
  lemma AgreesShift(buf: nat, bits: nat, input: seq<u8>, p: nat, n: nat)
    requires Agrees(buf, bits, input, p) && n <= bits
    ensures Agrees(Shr(buf, n), bits - n, input, p + n)
  {
    forall i: nat
      ensures i < bits - n ==> Bit(Shr(buf, n), i) == StreamBit(input, p + n + i)
      ensures Bit(Shr(buf, n), i) ==> StreamBit(input, p + n + i)
    {
      BitShr(buf, n, i);
      assert Bit(buf, i + n) ==> StreamBit(input, p + (i + n));
    }
  }

  /** Or-ing in k stream bytes behind the counted bits, cut to 64, keeps the invariant for every new
      count up to what the load covers; bits already present are simply set again. */
  lemma AgreesLoad(buf: nat, bits: nat, input: seq<u8>, pos: nat, k: nat, bits': nat)
    requires bits <= 8 * pos && pos + k <= |input|
    requires Agrees(buf, bits, input, 8 * pos - bits)
    requires bits' <= 64 && bits' <= bits + 8 * k
    ensures Agrees(Or(buf, Low(Shl(LoadLE(input, pos, k), bits), 64)), bits', input, 8 * pos - bits)
  {
    var p := 8 * pos - bits;
    var load := LoadLE(input, pos, k);
    var new' := Or(buf, Low(Shl(load, bits), 64));
    forall i: nat
      ensures i < bits' ==> Bit(new', i) == StreamBit(input, p + i)
      ensures Bit(new', i) ==> StreamBit(input, p + i)
    {
      BitOr(buf, Low(Shl(load, bits), 64), i);
      BitLow(Shl(load, bits), 64, i);
      BitShl(load, bits, i);
      if i >= bits { LoadBits(input, pos, k, i - bits); }
    }
  }

  /** The next byte to load after a refill at bit p, with the bytes before `at` loaded. */
  function LoadTo(size: nat, p: nat, at: nat, needed: nat): (r: nat)
    requires p <= 8 * at <= p + 63 && at <= size && needed <= 56
    ensures p + needed <= 8 * size ==> p + needed <= 8 * r <= p + 63 && at <= r <= size
  {
    var bits := 8 * at - p;
    if at + 8 <= size then at + (63 - bits) / 8
    else if bits >= needed then at
    else at + (needed + 7 - bits) / 8
  }

  /** Buffered reader: `bits` bits of the stream wait in `buf`, the next byte to load is `bytePos`. */
  class BitReader {
    const input: seq<u8>
    var bytePos: nat
    var buf: nat
    var bits: nat
    var exhausted: bool

    ghost predicate Valid()
      reads this
    {
      && bytePos <= |input|
      && bits <= 64
      && bits <= 8 * bytePos
      && buf < Pow2(64)
      && Agrees(buf, bits, input, 8 * bytePos - bits)
    }

    /** Bits consumed so far. */
    function TellBit(): nat
      requires bits <= 8 * bytePos
      reads this
    {
      8 * bytePos - bits
    }

    constructor (input: seq<u8>)
      ensures Valid() && this.input == input && TellBit() == 0 && bits == 0 && !exhausted
    {
      this.input := input;
      bytePos, buf, bits, exhausted := 0, 0, 0, false;
      new;
      forall i: nat ensures !Bit(0, i) { BitZero(i); }
    }

    /** One eight-byte load, or-ed in behind the counted bits, of which `advance` bytes count. */
    method LoadWord(advance: nat)
      requires Valid() && bytePos + 8 <= |input|
      requires bits + 8 * advance <= 64
      modifies this`buf, this`bytePos, this`bits
      ensures Valid() && TellBit() == old(TellBit())
      ensures bits == old(bits) + 8 * advance && bytePos == old(bytePos) + advance
    {
      hide Agrees, StreamBit, LoadLE, Shl, Shr, Low, Or, Bit, Pow2, Val, Xor;
      var chunk := Low(Shl(LoadLE(input, bytePos, 8), bits), 64);
      AgreesLoad(buf, bits, input, bytePos, 8, bits + 8 * advance);
      LowBound(Shl(LoadLE(input, bytePos, 8), bits), 64);
      OrBound(buf, chunk, 64);
      buf := Or(buf, chunk);
      bytePos := bytePos + advance;
      bits := bits + 8 * advance;
    }

    /** One byte, or-ed in behind the counted bits. */
    method LoadByte()
      requires Valid() && bytePos < |input| && bits <= 56
      modifies this`buf, this`bytePos, this`bits
      ensures Valid() && TellBit() == old(TellBit())
      ensures bits == old(bits) + 8 && bytePos == old(bytePos) + 1
    {
      hide Agrees, StreamBit, LoadLE, Shl, Shr, Low, Or, Bit, Pow2, Val, Xor;
      LoadOne(input, bytePos);
      AgreesLoad(buf, bits, input, bytePos, 1, bits + 8);
      LowBound(Shl(input[bytePos], bits), 64);
      OrBound(buf, Low(Shl(input[bytePos], bits), 64), 64);
      buf := Or(buf, Low(Shl(input[bytePos], bits), 64));
      bytePos := bytePos + 1;
      bits := bits + 8;
    }

    /** Buffer at least n bits. It fails exactly when the stream holds fewer than n more bits, and
        never moves the position. */
    method Refill(n: nat) returns (r: Result<()>)
      requires Valid() && n <= 56
      modifies this
      ensures Valid() && TellBit() == old(TellBit())
      ensures r.Ok? <==> old(TellBit()) + n <= 8 * |input|
      ensures r.Ok? ==> bits >= n
      ensures old(bits) >= n ==> bits == old(bits)
      ensures r.Err? ==> r == Err(UnexpectedEof) && exhausted
    {
      hide Agrees, StreamBit, LoadLE, Shl, Shr, Low, Or, Bit, Pow2, Val, Xor;
      if bits >= n {
        return Ok(());
      }
      if bytePos + 8 <= |input| && bits <= 56 {
        var added := 64 - bits;
        LoadWord(added / 8);
        return Ok(());
      }
      while bits < n
        invariant Valid() && TellBit() == old(TellBit())
        decreases |input| - bytePos
      {
        if bytePos >= |input| {
          exhausted := true;
          return Err(UnexpectedEof);
        }
        LoadByte();
      }
      return Ok(());
    }

    /** The refill of the decode loops: the unconditional eight-byte load with `bits |= 56` while
        eight bytes remain, otherwise byte by byte up to `needed`. A count of at most 63 keeps it a
        legal shift, and it leaves one again; the load never hurts when it adds nothing. */
    method TopUp(needed: nat) returns (ok: bool)
      requires Valid() && bits <= 63 && needed <= 56
      modifies this
      ensures Valid() && TellBit() == old(TellBit()) && bits <= 63
      ensures ok <==> old(TellBit()) + needed <= 8 * |input|
      ensures ok ==> bits >= needed
      ensures ok ==> bytePos == LoadTo(|input|, old(TellBit()), old(bytePos), needed)
      ensures bits >= old(bits)
    {
      hide Agrees, StreamBit, LoadLE, Shl, Shr, Low, Or, Bit, Pow2, Val, Xor;
      ok := true;
      if bytePos + 8 <= |input| {
        WideRefillCount(bits);
        var advance := Shr(Xor(63, bits), 3);
        LoadWord(advance);
        assert bits == Or(old(bits), 56);
      } else {
        while bits < needed
          invariant Valid() && TellBit() == old(TellBit())
          invariant old(bits) <= bits <= 63
          invariant bytePos > old(bytePos) ==> bits < needed + 8 && old(bits) < needed
          decreases |input| - bytePos
        {
          if bytePos >= |input| {
            exhausted := true;
            return false;
          }
          LoadByte();
        }
      }
    }

    /** Drop n buffered bits. */
    method Consume(n: nat)
      requires Valid() && n <= bits
      modifies this`buf, this`bits
      ensures Valid() && TellBit() == old(TellBit()) + n && bits == old(bits) - n
    {
      hide Agrees, StreamBit, LoadLE, Shl, Shr, Low, Or, Bit, Pow2, Val, Xor;
      AgreesShift(buf, bits, input, TellBit(), n);
      ShrBound(buf, n);
      buf := Shr(buf, n);
      bits := bits - n;
    }

    /** The next n buffered bits. */
    method PeekBuffered(n: nat) returns (v: nat)
      requires Valid() && n <= bits
      ensures v == Val(input, TellBit(), n)
    {
      hide Agrees, StreamBit, LoadLE, Shl, Shr, Low, Or, Bit, Pow2, Val, Xor;
      AgreesLow(buf, bits, input, TellBit(), n);
      v := Low(buf, n);
    }

    /** The next n bits without consuming them. */
    method Peek(n: nat) returns (r: Result<nat>)
      requires Valid() && n <= 32
      modifies this
      ensures Valid() && TellBit() == old(TellBit())
      ensures r == if old(TellBit()) + n <= 8 * |input|
                   then Ok(Val(input, old(TellBit()), n)) else Err(UnexpectedEof)
      ensures r.Ok? ==> bits >= n
      ensures old(bits) >= n ==> bits == old(bits)
    {
      hide Agrees, StreamBit, LoadLE, Shl, Shr, Low, Or, Bit, Pow2, Val, Xor;
      var ok := Refill(n);
      if ok.Err? {
        return Err(ok.error);
      }
      var v := PeekBuffered(n);
      r := Ok(v);
    }

    /** The next n bits, consumed. Afterwards a wide refill is legal again. */
    method Read(n: nat) returns (r: Result<nat>)
      requires Valid() && n <= 32
      modifies this
      ensures Valid()
      ensures r == if old(TellBit()) + n <= 8 * |input|
                   then Ok(Val(input, old(TellBit()), n)) else Err(UnexpectedEof)
      ensures TellBit() == old(TellBit()) + (if r.Ok? then n else 0)
      ensures r.Ok? && (n > 0 || old(bits) <= 63) ==> bits <= 63
    {
      hide Agrees, StreamBit, LoadLE, Shl, Shr, Low, Or, Bit, Pow2, Val, Xor;
      if n == 0 {
        assert Val(input, TellBit(), 0) == 0 by { ValNone(input, TellBit()); }
        return Ok(0);
      }
      var ok := Refill(n);
      if ok.Err? {
        return Err(ok.error);
      }
      var v := PeekBuffered(n);
      Consume(n);
      r := Ok(v);
    }

    /** Skip to the next byte boundary. */
    method ByteAlign()
      requires Valid()
      modifies this
      ensures Valid() && TellBit() % 8 == 0
      ensures old(TellBit()) <= TellBit() < old(TellBit()) + 8
      ensures TellBit() <= 8 * |input|
      ensures bits <= old(bits)
    {
      hide Agrees, StreamBit, LoadLE, Shl, Shr, Low, Or, Bit, Pow2, Val, Xor;
      var drop := bits % 8;
      Consume(drop);
    }

    /** Reposition to an absolute bit. */
    method SeekToBit(pos: nat) returns (r: Result<()>)
      requires Valid()
      modifies this
      ensures Valid()
      ensures r == if pos <= 8 * |input| then Ok(()) else Err(UnexpectedEof)
      ensures r.Ok? ==> TellBit() == pos && bits <= 63
      ensures r.Err? ==> exhausted && TellBit() == old(TellBit())
    {
      if pos > 8 * |input| {
        exhausted := true;
        return Err(UnexpectedEof);
      }
      var sub := pos % 8;
      bytePos, buf, bits, exhausted := pos / 8, 0, 0, false;
      forall i: nat ensures !Bit(0, i) { BitZero(i); }
      if sub != 0 {
        var ok := Refill(sub);
        Consume(sub);
      }
      r := Ok(());
    }
  }
}
