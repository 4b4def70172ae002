/** Blocks are read as they are written: the baseline decoder's blocks are exactly the bits the format has for
    some block, with the meaning it has (deflate/inflate.rs, deflate/safe_inflate.rs). */
module Written {
  import opened Words
  import opened BitStream
  import opened Canonical
  import opened Tables
  import opened Huffman
  import opened Lz77
  import opened Deflate
  import opened SafeInflate
  import opened CodeSpace
  import F = Format

  // Bits in the input

  /** The input has these bits from p on. */
  ghost predicate Shows(input: seq<u8>, p: nat, bits: F.Bits) {
    p + |bits| <= 8 * |input| && forall i | 0 <= i < |bits| :: StreamBit(input, p + i) == bits[i]
  }

  lemma ShowsCat(input: seq<u8>, p: nat, a: F.Bits, b: F.Bits)
    ensures Shows(input, p, a + b) <==> Shows(input, p, a) && Shows(input, p + |a|, b)
  {
    hide StreamBit;
    if Shows(input, p, a + b) {
      forall i | 0 <= i < |a| ensures StreamBit(input, p + i) == a[i] { assert (a + b)[i] == a[i]; }
      forall i | 0 <= i < |b| ensures StreamBit(input, p + |a| + i) == b[i] {
        assert (a + b)[|a| + i] == b[i] && p + (|a| + i) == p + |a| + i;
      }
    }
    if Shows(input, p, a) && Shows(input, p + |a|, b) {
      forall i | 0 <= i < |a + b| ensures StreamBit(input, p + i) == (a + b)[i] {
        if i >= |a| { assert p + |a| + (i - |a|) == p + i; }
      }
    }
  }

  /** A number that is there is the one that is read. */
  lemma {:induction false} NumRead(input: seq<u8>, p: nat, x: nat, n: nat)
    requires x < Pow2(n) && p + n <= 8 * |input|
    ensures Shows(input, p, F.Num(x, n)) <==> Val(input, p, n) == x
    decreases n
  {
    hide StreamBit;
    if n > 0 {
      var head := [x % 2 == 1];
      ShowsCat(input, p, head, F.Num(x / 2, n - 1));
      NumRead(input, p + 1, x / 2, n - 1);
      assert Shows(input, p, head) <==> StreamBit(input, p) == (x % 2 == 1) by {
        assert head[0] == (x % 2 == 1) && p + 0 == p;
      }
    }
  }

  lemma {:induction false} CodeBitAt(c: nat, n: nat, i: nat)
    requires i < n
    ensures F.CodeBits(c, n)[i] == Bit(c, n - 1 - i)
    decreases n
  {
    if i < n - 1 { CodeBitAt(c / 2, n - 1, i); }
  }

  /** The leading n bits of a window that shows the code bits are the code. */
  lemma {:induction false} MsbOfBits(w: nat, c: nat, n: nat)
    requires c < Pow2(n)
    ensures (forall i: nat | i < n :: Bit(w, i) == F.CodeBits(c, n)[i]) <==> Msb(w, n) == c
    decreases n
  {
    hide Bit;
    if n > 0 {
      var rest := F.CodeBits(c / 2, n - 1);
      MsbOfBits(w, c / 2, n - 1);
      assert F.CodeBits(c, n) == rest + [c % 2 == 1];
      if forall i: nat | i < n :: Bit(w, i) == F.CodeBits(c, n)[i] {
        forall i: nat | i < n - 1 ensures Bit(w, i) == rest[i] { assert (rest + [c % 2 == 1])[i] == rest[i]; }
        assert Bit(w, n - 1) == (rest + [c % 2 == 1])[n - 1];
      }
      if Msb(w, n) == c {
        assert Msb(w, n - 1) == c / 2 && Bit(w, n - 1) == (c % 2 == 1);
      }
    }
  }

  /** A code that is there is the symbol that is read. */
  lemma CodeRead(input: seq<u8>, p: nat, lengths: seq<nat>, s: nat)
    requires ShortLengths(lengths) && Fits(lengths) && F.HasCode(lengths, s) && p + lengths[s] <= 8 * |input|
    ensures Shows(input, p, F.Huff(lengths, s)) <==> SymAt(lengths, input, p) == s
  {
    hide Bit, StreamBit, Val, Code, Fits;
    var n, c, w := lengths[s], Code(lengths, s), Val(input, p, 15);
    var bits := F.CodeBits(c, n);
    CodeBound(lengths, s);
    forall i: nat | i < n ensures Bit(w, i) == StreamBit(input, p + i) { ValBits(input, p, 15, i); }
    MsbOfBits(w, c, n);
    if Shows(input, p, bits) {
      forall i: nat | i < n ensures Bit(w, i) == bits[i] { }
      SymIs(lengths, s, w);
    }
    if SymAt(lengths, input, p) == s {
      assert Matches(lengths, s, w);
      forall i | 0 <= i < n ensures StreamBit(input, p + i) == bits[i] { assert Bit(w, i) == bits[i]; }
    }
  }

  // The code lengths that are codes

  lemma {:induction false} TakenIsSpace(lengths: seq<nat>, n: nat)
    requires n <= |lengths| && ShortLengths(lengths)
    ensures F.Taken(lengths, n) == SpaceBefore(lengths, 16, 0, n)
  {
    if n > 0 { TakenIsSpace(lengths, n - 1); }
  }

  /** The tables are built for exactly the lengths that make a code. */
  lemma AcceptsCodes(lengths: seq<nat>)
    ensures Accepts(lengths, false) <==> F.IsCode(lengths)
    ensures F.IsCode(lengths) ==> ShortLengths(lengths) && Fits(lengths)
  {
    TolerantAccepts(lengths);
    if forall i | 0 <= i < |lengths| :: lengths[i] <= 15 { TakenIsSpace(lengths, |lengths|); }
  }

  // Literals and matches

  lemma PowersToSixteen()
    ensures Pow2(0) == 1 && Pow2(1) == 2 && Pow2(2) == 4 && Pow2(3) == 8 && Pow2(4) == 16 && Pow2(5) == 32
    ensures Pow2(6) == 64 && Pow2(7) == 128 && Pow2(8) == 256 && Pow2(9) == 512 && Pow2(10) == 1024
    ensures Pow2(11) == 2048 && Pow2(12) == 4096 && Pow2(13) == 8192 && Pow2(14) == 16384 && Pow2(15) == 32768
    ensures Pow2(16) == 65536
  {
  }

  /** The tables of lengths are what the rule says. */
  lemma LengthsByRule(s: nat)
    requires 257 <= s <= 285
    ensures LengthExtra(s) == F.LengthBits(s) && LengthBase(s) == F.FirstLength(s)
  {
    PowersToSixteen();
  }

  lemma DistancesByRule(d: nat)
    requires d < 30
    ensures DistanceExtra(d) == F.DistanceBits(d) && DistanceBase(d) == F.FirstDistance(d)
  {
    if d < 10 { NearByRule(d); } else if d < 20 { MiddleByRule(d); } else { FarByRule(d); }
  }

  lemma NearByRule(d: nat)
    requires d < 10
    ensures DistanceExtra(d) == F.DistanceBits(d) && DistanceBase(d) == F.FirstDistance(d)
  {
    assert Pow2(1) == 2 && Pow2(2) == 4 && Pow2(3) == 8;
  }

  lemma MiddleByRule(d: nat)
    requires 10 <= d < 20
    ensures DistanceExtra(d) == F.DistanceBits(d) && DistanceBase(d) == F.FirstDistance(d)
  {
    assert Pow2(4) == 16 && Pow2(5) == 32 && Pow2(6) == 64 && Pow2(7) == 128 && Pow2(8) == 256;
  }

  lemma FarByRule(d: nat)
    requires 20 <= d < 30
    ensures DistanceExtra(d) == F.DistanceBits(d) && DistanceBase(d) == F.FirstDistance(d)
  {
    PowersToSixteen();
    hide Pow2;
    assert d == 20 || d == 21 || d == 22 || d == 23 || d == 24 || d == 25 || d == 26 || d == 27 || d == 28 || d == 29;
  }

  /** A symbol that is there is read as what it means, to its last bit. */
  lemma SymbolRead(lit: seq<nat>, dist: seq<nat>, input: seq<u8>, p: nat, s: F.Symbol)
    requires F.IsCode(lit) && F.IsCode(dist) && F.CanWrite(lit, dist, s)
    requires Shows(input, p, F.SymbolBits(lit, dist, s))
    ensures StepAt(lit, dist, input, p) == Emit(F.Meaning(s), p + |F.SymbolBits(lit, dist, s)|)
  {
    hide SymAt, Shows, Val, F.IsCode, LengthBase, LengthExtra, DistanceBase, DistanceExtra, F.FirstLength,
      F.LengthBits, F.FirstDistance, F.DistanceBits, F.Huff, F.Num;
    AcceptsCodes(lit);
    AcceptsCodes(dist);
    match s {
      case Literal(b) => HuffRead(input, p, lit, b);
      case Match(l, x, d, y) =>
        LengthsByRule(l);
        DistancesByRule(d);
        var a, b, c, e := F.Huff(lit, l), F.Num(x, F.LengthBits(l)), F.Huff(dist, d), F.Num(y, F.DistanceBits(d));
        ShowsCat(input, p, a + b + c, e);
        ShowsCat(input, p, a + b, c);
        ShowsCat(input, p, a, b);
        HuffRead(input, p, lit, l);
        HuffRead(input, p + |a + b|, dist, d);
        NumHeld(input, p + |a|, x, F.LengthBits(l));
        NumHeld(input, p + |a + b + c|, y, F.DistanceBits(d));
    }
  }

  lemma HuffRead(input: seq<u8>, p: nat, lengths: seq<nat>, s: nat)
    requires ShortLengths(lengths) && Fits(lengths) && F.HasCode(lengths, s) && Shows(input, p, F.Huff(lengths, s))
    ensures SymAt(lengths, input, p) == s && p + lengths[s] <= 8 * |input|
  {
    hide SymAt;
    CodeRead(input, p, lengths, s);
  }

  lemma NumHeld(input: seq<u8>, p: nat, x: nat, n: nat)
    requires x < Pow2(n) && Shows(input, p, F.Num(x, n))
    ensures Val(input, p, n) == x && p + n <= 8 * |input|
  {
    NumRead(input, p, x, n);
  }

  lemma NumThere(input: seq<u8>, p: nat, n: nat)
    requires p + n <= 8 * |input|
    ensures Val(input, p, n) < Pow2(n) && Shows(input, p, F.Num(Val(input, p, n), n))
  {
    ValBound(input, p, n);
    NumRead(input, p, Val(input, p, n), n);
  }

  /** And a symbol that is read was there. */
  lemma ReadSymbol(lit: seq<nat>, dist: seq<nat>, input: seq<u8>, p: nat) returns (s: F.Symbol)
    requires F.IsCode(lit) && F.IsCode(dist)
    requires var r := StepAt(lit, dist, input, p); r.Emit? && r.next <= 8 * |input|
    ensures F.CanWrite(lit, dist, s) && Shows(input, p, F.SymbolBits(lit, dist, s))
    ensures StepAt(lit, dist, input, p) == Emit(F.Meaning(s), p + |F.SymbolBits(lit, dist, s)|)
  {
    hide SymAt, Shows, Val, F.IsCode, LengthBase, LengthExtra, DistanceBase, DistanceExtra, F.FirstLength,
      F.LengthBits, F.FirstDistance, F.DistanceBits, F.Huff, F.Num;
    AcceptsCodes(lit);
    AcceptsCodes(dist);
    var l := SymAt(lit, input, p);
    if l < 256 {
      s := F.Literal(l);
      CodeRead(input, p, lit, l);
    } else {
      LengthsByRule(l);
      var q := p + lit[l];
      var q1 := q + LengthExtra(l);
      var d := SymAt(dist, input, q1);
      DistancesByRule(d);
      var q2 := q1 + dist[d];
      s := F.Match(l, Val(input, q, LengthExtra(l)), d, Val(input, q2, DistanceExtra(d)));
      CodeRead(input, p, lit, l);
      NumThere(input, q, LengthExtra(l));
      CodeRead(input, q1, dist, d);
      NumThere(input, q2, DistanceExtra(d));
      var a, b, c := F.Huff(lit, l), F.Num(s.lenExtra, F.LengthBits(l)), F.Huff(dist, d);
      ShowsCat(input, p, a, b);
      ShowsCat(input, p, a + b, c);
      ShowsCat(input, p, a + b + c, F.Num(s.distExtra, F.DistanceBits(d)));
    }
  }

  // Every match can be written

  /** The e with v between 2^e and 2^(e+1). */
  lemma {:induction false} Log(v: nat, m: nat, n: nat) returns (e: nat)
    requires m < n && Pow2(m) <= v < Pow2(n)
    ensures Pow2(e) <= v < 2 * Pow2(e) && m <= e < n
  {
    if m + 1 < n && v < Pow2(n - 1) { e := Log(v, m, n - 1); } else { e := n - 1; }
  }

  /** A value in the group that begins at 4 * 2^e: its quarter and its place in the quarter. */
  lemma Quarters(v: nat, e: nat) returns (q: nat, x: nat)
    requires 4 * Pow2(e) <= v < 8 * Pow2(e)
    ensures q < 4 && x < Pow2(e) && v == (4 + q) * Pow2(e) + x
  {
    var w := v - 4 * Pow2(e);
    if w < Pow2(e) { q, x := 0, w; }
    else if w < 2 * Pow2(e) { q, x := 1, w - Pow2(e); }
    else if w < 3 * Pow2(e) { q, x := 2, w - 2 * Pow2(e); }
    else { q, x := 3, w - 3 * Pow2(e); }
  }

  lemma Halves(v: nat, e: nat) returns (q: nat, x: nat)
    requires 2 * Pow2(e) <= v < 4 * Pow2(e)
    ensures q < 2 && x < Pow2(e) && v == (2 + q) * Pow2(e) + x
  {
    var w := v - 2 * Pow2(e);
    if w < Pow2(e) { q, x := 0, w; } else { q, x := 1, w - Pow2(e); }
  }

  lemma LengthSymbol(n: nat) returns (l: nat, x: nat)
    requires 3 <= n <= 258
    ensures 257 <= l <= 285 && x < Pow2(F.LengthBits(l)) && F.FirstLength(l) + x == n
  {
    hide Pow2;
    PowersToSixteen();
    var v := n - 3;
    if n == 258 {
      l, x := 285, 0;
    } else if v < 8 {
      l, x := 257 + v, 0;
    } else {
      var g := Log(v, 3, 8);
      var e := g - 2;
      PowerNext(e);
      PowerNext(e + 1);
      var q, y := Quarters(v, e);
      l, x := 261 + 4 * e + q, y;
      assert (l - 261) / 4 == e && (l - 265) % 4 == q;
    }
  }

  lemma PowerNext(e: nat)
    ensures Pow2(e + 1) == 2 * Pow2(e)
  {
  }

  lemma DistanceSymbol(n: nat) returns (d: nat, y: nat)
    requires 1 <= n <= 32768
    ensures d < 30 && y < Pow2(F.DistanceBits(d)) && F.FirstDistance(d) + y == n
  {
    hide Pow2;
    PowersToSixteen();
    var v := n - 1;
    if v < 4 {
      d, y := v, 0;
    } else {
      var g := Log(v, 2, 15);
      var e := g - 1;
      PowerNext(e);
      var q, x := Halves(v, e);
      d, y := 2 * (e + 1) + q, x;
      assert d / 2 - 1 == e && d % 2 == q;
    }
  }

  /** Every length from 3 to 258 and every distance from 1 to 32768 has a symbol. */
  lemma EveryMatch(length: nat, distance: nat) returns (s: F.Symbol)
    requires 3 <= length <= 258 && 1 <= distance <= 32768
    ensures F.IsSymbol(s) && F.Meaning(s) == Copy(length, distance)
  {
    var l, x := LengthSymbol(length);
    var d, y := DistanceSymbol(distance);
    s := F.Match(l, x, d, y);
  }

  // The symbols of a block

  /** Symbols that are there, with their end, are the run that is read. */
  lemma {:induction false} RunRead(lit: seq<nat>, dist: seq<nat>, input: seq<u8>, p: nat, ss: seq<F.Symbol>)
    requires F.IsCode(lit) && F.IsCode(dist) && F.CanWriteAll(lit, dist, ss)
    requires Shows(input, p, F.SymbolsBits(lit, dist, ss))
    ensures RunFrom(lit, dist, input, p) == Run(F.Meanings(ss), RunEnd.Done(p + |F.SymbolsBits(lit, dist, ss)|))
    decreases |ss|
  {
    hide StepAt, Shows, F.IsCode, F.IsSymbol, F.HasCode, F.SymbolBits, F.Meaning, F.Huff;
    if ss == [] {
      EndRead(lit, dist, input, p);
      assert F.Meanings(ss) == [];
    } else {
      var rest := ss[1..];
      ShowsCat(input, p, F.SymbolBits(lit, dist, ss[0]), F.SymbolsBits(lit, dist, rest));
      SymbolRead(lit, dist, input, p, ss[0]);
      RunRead(lit, dist, input, p + |F.SymbolBits(lit, dist, ss[0])|, rest);
      StepAdvances(lit, dist, input, p);
      ShowsInside(input, p, F.SymbolBits(lit, dist, ss[0]));
      assert F.Meanings(ss) == [F.Meaning(ss[0])] + F.Meanings(rest);
    }
  }

  lemma ShowsInside(input: seq<u8>, p: nat, bits: F.Bits)
    requires Shows(input, p, bits)
    ensures p + |bits| <= 8 * |input|
  {
  }

  /** The end of block. */
  lemma EndRead(lit: seq<nat>, dist: seq<nat>, input: seq<u8>, p: nat)
    requires F.IsCode(lit) && F.HasCode(lit, 256) && Shows(input, p, F.Huff(lit, 256))
    ensures StepAt(lit, dist, input, p) == EndOfBlock(p + lit[256]) && p < p + lit[256] <= 8 * |input|
  {
    hide SymAt, Shows, F.IsCode;
    AcceptsCodes(lit);
    HuffRead(input, p, lit, 256);
  }

  lemma ReadEnd(lit: seq<nat>, dist: seq<nat>, input: seq<u8>, p: nat)
    requires F.IsCode(lit)
    requires var r := StepAt(lit, dist, input, p); r.EndOfBlock? && r.next <= 8 * |input|
    ensures F.HasCode(lit, 256) && Shows(input, p, F.Huff(lit, 256))
    ensures StepAt(lit, dist, input, p).next == p + lit[256]
  {
    hide SymAt, Shows, F.IsCode;
    AcceptsCodes(lit);
    CodeRead(input, p, lit, 256);
  }

  /** And a run that is read to its end was there. */
  lemma {:induction false} ReadRun(lit: seq<nat>, dist: seq<nat>, input: seq<u8>, p: nat) returns (ss: seq<F.Symbol>)
    requires F.IsCode(lit) && F.IsCode(dist) && RunFrom(lit, dist, input, p).end.Done?
    ensures F.CanWriteAll(lit, dist, ss) && Shows(input, p, F.SymbolsBits(lit, dist, ss))
    ensures RunFrom(lit, dist, input, p) == Run(F.Meanings(ss), RunEnd.Done(p + |F.SymbolsBits(lit, dist, ss)|))
    decreases 8 * |input| - p
  {
    hide StepAt, Shows, F.IsCode, F.IsSymbol, F.HasCode, F.SymbolBits, F.Meaning, F.Huff;
    StepAdvances(lit, dist, input, p);
    var r := StepAt(lit, dist, input, p);
    if r.EndOfBlock? {
      ss := [];
      ReadEnd(lit, dist, input, p);
      assert F.Meanings(ss) == [];
    } else {
      var s := ReadSymbol(lit, dist, input, p);
      var rest := ReadRun(lit, dist, input, r.next);
      ss := [s] + rest;
      assert ss[1..] == rest;
      WriteMore(lit, dist, s, rest);
      ShowsCat(input, p, F.SymbolBits(lit, dist, s), F.SymbolsBits(lit, dist, rest));
      assert F.Meanings(ss) == [F.Meaning(s)] + F.Meanings(rest);
    }
  }

  lemma WriteMore(lit: seq<nat>, dist: seq<nat>, s: F.Symbol, rest: seq<F.Symbol>)
    requires F.CanWrite(lit, dist, s) && F.CanWriteAll(lit, dist, rest)
    ensures F.CanWriteAll(lit, dist, [s] + rest)
  {
    hide F.CanWrite;
    forall i | 0 <= i < |[s] + rest| ensures F.CanWrite(lit, dist, ([s] + rest)[i]) {
      if i > 0 { assert ([s] + rest)[i] == rest[i - 1]; }
    }
  }

  // Code lengths

  /** What the parser adds to the lengths so far when it finds the item. */
  lemma ItemRead(cl: seq<nat>, input: seq<u8>, p: nat, it: F.Item)
    requires F.IsCode(cl) && F.CanItem(cl, it) && Shows(input, p, F.ItemBits(cl, it))
    ensures var sym := F.ItemSymbol(it);
      && SymInside(cl, input, p) == Some(sym) && sym <= 18
      && (sym <= 15 ==> it == F.Length(sym) && |F.ItemBits(cl, it)| == cl[sym])
      && (sym > 15 ==>
            && !it.Length? && |F.ItemBits(cl, it)| == cl[sym] + RepeatExtra(sym)
            && p + cl[sym] + RepeatExtra(sym) <= 8 * |input|
            && it.times == Val(input, p + cl[sym], RepeatExtra(sym)) + RepeatBase(sym))
  {
    hide SymAt, Shows, Val, F.IsCode, F.Huff, F.Num;
    PowersToSixteen();
    AcceptsCodes(cl);
    var sym := F.ItemSymbol(it);
    ShowsCat(input, p, F.Huff(cl, sym), F.ItemExtra(it));
    HuffRead(input, p, cl, sym);
    match it {
      case Length(_) =>
      case Again(n) => NumHeld(input, p + cl[16], n - 3, 2);
      case FewZeros(n) => NumHeld(input, p + cl[17], n - 3, 3);
      case ManyZeros(n) => NumHeld(input, p + cl[18], n - 11, 7);
    }
  }

  lemma {:induction false} SpellsGrows(cl: seq<nat>, items: seq<F.Item>, acc: seq<nat>, all: seq<nat>)
    requires F.Spells(cl, items, acc, all)
    ensures |acc| <= |all| && (items != [] ==> |acc| < |all|)
    decreases |items|
  {
    if items != [] { SpellsGrows(cl, items[1..], F.Added(acc, items[0]), all); }
  }

  /** Items that are there are read as the lengths they spell. */
  lemma {:induction false} ItemsRead(cl: seq<nat>, input: seq<u8>, p: nat, items: seq<F.Item>, acc: seq<nat>,
                                     all: seq<nat>)
    requires F.IsCode(cl) && F.Spells(cl, items, acc, all)
    requires (forall i | 0 <= i < |items| :: F.CanItem(cl, items[i])) && Shows(input, p, F.ItemsBits(cl, items))
    ensures |acc| <= |all|
    ensures SafeLengths(cl, input, p, acc, |all|) == Some((all, p + |F.ItemsBits(cl, items)|))
    decreases |items|
  {
    hide SymInside, Shows, Val, F.IsCode, F.IsItem, F.HasCode, F.ItemBits, RepeatExtra, RepeatBase;
    SpellsGrows(cl, items, acc, all);
    if items != [] {
      var it, rest := items[0], items[1..];
      ShowsCat(input, p, F.ItemBits(cl, it), F.ItemsBits(cl, rest));
      ItemRead(cl, input, p, it);
      var next := F.Added(acc, it);
      SpellsGrows(cl, rest, next, all);
      ItemsRead(cl, input, p + |F.ItemBits(cl, it)|, rest, next, all);
      AddedIs(acc, it);
    }
  }

  /** The item's lengths as the parser makes them. */
  lemma AddedIs(acc: seq<nat>, it: F.Item)
    requires F.IsItem(it) && (it.Again? ==> acc != [])
    ensures it.Length? ==> F.Added(acc, it) == acc + [it.len]
    ensures it.Again? ==> F.Added(acc, it) == acc + Repeat(acc[|acc| - 1], it.times)
    ensures it.FewZeros? || it.ManyZeros? ==> F.Added(acc, it) == acc + Repeat(0, it.times)
  {
  }

  /** And lengths that are read were spelled by items. */
  lemma {:induction false} ReadItems(cl: seq<nat>, input: seq<u8>, p: nat, acc: seq<nat>, total: nat)
      returns (items: seq<F.Item>)
    requires F.IsCode(cl) && |acc| <= total && SafeLengths(cl, input, p, acc, total).Some?
    requires p <= 8 * |input|
    ensures forall i | 0 <= i < |items| :: F.CanItem(cl, items[i])
    ensures var r := SafeLengths(cl, input, p, acc, total).value;
      && F.Spells(cl, items, acc, r.0) && Shows(input, p, F.ItemsBits(cl, items))
      && r.1 == p + |F.ItemsBits(cl, items)|
    decreases total - |acc|
  {
    hide SymInside, Shows, Val, F.IsCode, F.IsItem, F.HasCode, F.ItemBits, RepeatExtra, RepeatBase;
    if |acc| == total {
      items := [];
      assert Shows(input, p, []) by { ShowsNothing(input, p); }
    } else {
      var it := ReadItem(cl, input, p, acc, total);
      var next := F.Added(acc, it);
      AddedIs(acc, it);
      ItemRead(cl, input, p, it);
      ShowsInside(input, p, F.ItemBits(cl, it));
      var rest := ReadItems(cl, input, p + |F.ItemBits(cl, it)|, next, total);
      items := [it] + rest;
      assert items[1..] == rest;
      forall i | 0 <= i < |items| ensures F.CanItem(cl, items[i]) { if i > 0 { assert items[i] == rest[i - 1]; } }
      ShowsCat(input, p, F.ItemBits(cl, it), F.ItemsBits(cl, rest));
    }
  }

  lemma ShowsNothing(input: seq<u8>, p: nat)
    requires p <= 8 * |input|
    ensures Shows(input, p, [])
  {
  }

  lemma ReadItem(cl: seq<nat>, input: seq<u8>, p: nat, acc: seq<nat>, total: nat) returns (it: F.Item)
    requires F.IsCode(cl) && |acc| < total && SafeLengths(cl, input, p, acc, total).Some?
    ensures F.CanItem(cl, it) && (it.Again? ==> acc != []) && Shows(input, p, F.ItemBits(cl, it))
    ensures |F.Added(acc, it)| <= total
  {
    hide SymAt, Shows, Val, F.IsCode, F.Huff, F.Num, SafeLengths;
    LengthsStep(cl, input, p, acc, total);
    PowersToSixteen();
    AcceptsCodes(cl);
    var sym := SymInside(cl, input, p).value;
    CodeRead(input, p, cl, sym);
    if sym <= 15 {
      it := F.Length(sym);
    } else {
      var x := Val(input, p + cl[sym], RepeatExtra(sym));
      NumThere(input, p + cl[sym], RepeatExtra(sym));
      it := if sym == 16 then F.Again(x + 3) else if sym == 17 then F.FewZeros(x + 3) else F.ManyZeros(x + 11);
      ShowsCat(input, p, F.Huff(cl, sym), F.Num(x, RepeatExtra(sym)));
    }
    ShowsCat(input, p, F.Huff(cl, sym), F.ItemExtra(it));
    if sym <= 15 { ShowsNothing(input, p + cl[sym]); }
  }

  /** What a further length asks for. */
  lemma LengthsStep(cl: seq<nat>, input: seq<u8>, p: nat, acc: seq<nat>, total: nat)
    requires |acc| < total && SafeLengths(cl, input, p, acc, total).Some?
    ensures var s := SymInside(cl, input, p);
      && s.Some? && s.value <= 18 && (s.value == 16 ==> acc != [])
      && (s.value > 15 ==>
            && p + cl[s.value] + RepeatExtra(s.value) <= 8 * |input|
            && |acc| + Val(input, p + cl[s.value], RepeatExtra(s.value)) + RepeatBase(s.value) <= total)
  {
    hide SymInside, Val;
  }

  // The header of a dynamic block

  /** The place of a code length symbol in the order. */
  function OrderPlace(s: nat): nat
    requires s < 19
  {
    if s >= 16 then s - 16 else if s == 0 then 3 else if s >= 8 then 2 * s - 12 else 19 - 2 * s
  }

  lemma OrderByRule(i: nat)
    requires i < 19
    ensures CODE_LENGTH_ORDER[i] == F.InOrder(i) < 19 && OrderPlace(F.InOrder(i)) == i
  {
  }

  lemma PlaceByRule(s: nat)
    requires s < 19
    ensures OrderPlace(s) < 19 && F.InOrder(OrderPlace(s)) == s
  {
  }

  /** The code length code that is read from n lengths, symbol by symbol. */
  lemma {:induction false} LengthCodeAt(input: seq<u8>, p: nat, n: nat, s: nat)
    requires n <= 19 && s < 19
    ensures CodeLengthCode(input, p, n)[s] == if OrderPlace(s) < n then Val(input, p + 3 * OrderPlace(s), 3) else 0
    decreases n
  {
    hide Val;
    if n > 0 {
      LengthCodeAt(input, p, n - 1, s);
      OrderByRule(n - 1);
      PlaceByRule(s);
    }
  }

  lemma {:induction false} OrderRead(input: seq<u8>, p: nat, cl: seq<nat>, i: nat, k: nat)
    requires |cl| == 19 && i + k <= 19 && (forall s | 0 <= s < 19 :: cl[s] < 8) && p + 3 * k <= 8 * |input|
    ensures Shows(input, p, F.OrderBits(cl, i, k)) <==>
      forall j: nat | j < k :: Val(input, p + 3 * j, 3) == cl[F.InOrder(i + j)]
    ensures |F.OrderBits(cl, i, k)| == 3 * k
    decreases k
  {
    hide Shows, Val, F.Num, F.InOrder;
    if k == 0 {
      ShowsNothing(input, p);
    } else {
      var x := cl[F.InOrder(i)];
      assert Pow2(3) == 8;
      ShowsCat(input, p, F.Num(x, 3), F.OrderBits(cl, i + 1, k - 1));
      NumRead(input, p, x, 3);
      OrderRead(input, p + 3, cl, i + 1, k - 1);
      assert p + 3 * 0 == p && i + 0 == i;
      if Shows(input, p, F.OrderBits(cl, i, k)) {
        forall j: nat | j < k ensures Val(input, p + 3 * j, 3) == cl[F.InOrder(i + j)] {
          if j > 0 { assert p + 3 + 3 * (j - 1) == p + 3 * j && i + 1 + (j - 1) == i + j; }
        }
      }
      if forall j: nat | j < k :: Val(input, p + 3 * j, 3) == cl[F.InOrder(i + j)] {
        assert Val(input, p + 3 * 0, 3) == cl[F.InOrder(i + 0)];
        forall j: nat | j < k - 1 ensures Val(input, p + 3 + 3 * j, 3) == cl[F.InOrder(i + 1 + j)] {
          assert Val(input, p + 3 * (j + 1), 3) == cl[F.InOrder(i + (j + 1))];
          assert p + 3 + 3 * j == p + 3 * (j + 1) && i + 1 + j == i + (j + 1);
        }
      }
    }
  }

  /** The sent lengths make the code length code, and the rest of it is 0. */
  lemma LengthCodeRead(input: seq<u8>, p: nat, cl: seq<nat>, n: nat)
    requires |cl| == 19 && n <= 19 && (forall s | 0 <= s < 19 :: cl[s] < 8) && p + 3 * n <= 8 * |input|
    ensures Shows(input, p, F.OrderBits(cl, 0, n)) && (forall i: nat | n <= i < 19 :: cl[F.InOrder(i)] == 0)
       <==> CodeLengthCode(input, p, n) == cl
  {
    hide Shows, Val, F.InOrder, F.OrderBits;
    var r := CodeLengthCode(input, p, n);
    OrderRead(input, p, cl, 0, n);
    forall i: nat | i < 19 ensures r[F.InOrder(i)] == if i < n then Val(input, p + 3 * i, 3) else 0 {
      OrderByRule(i);
      LengthCodeAt(input, p, n, F.InOrder(i));
    }
    if r == cl {
      forall j: nat | j < n ensures Val(input, p + 3 * j, 3) == cl[F.InOrder(0 + j)] { assert 0 + j == j; }
    }
    if Shows(input, p, F.OrderBits(cl, 0, n)) && forall i: nat | n <= i < 19 :: cl[F.InOrder(i)] == 0 {
      forall s: nat | s < 19 ensures r[s] == cl[s] {
        PlaceByRule(s);
        var i := OrderPlace(s);
        assert r[F.InOrder(i)] == r[s];
        if i < n { assert Val(input, p + 3 * i, 3) == cl[F.InOrder(0 + i)]; }
      }
    }
  }

  lemma ThreeBits(input: seq<u8>, p: nat, n: nat)
    requires n <= 19
    ensures forall s | 0 <= s < 19 :: CodeLengthCode(input, p, n)[s] < 8
  {
    hide Val, CodeLengthCode;
    forall s: nat | s < 19 ensures CodeLengthCode(input, p, n)[s] < 8 {
      LengthCodeAt(input, p, n, s);
      ValBound(input, p + 3 * OrderPlace(s), 3);
      assert Pow2(3) == 8;
    }
  }

  /** Codes that are there are the header that is read. */
  lemma CodesRead(input: seq<u8>, p: nat, c: F.Codes)
    requires F.IsCodes(c) && Shows(input, p, F.CodesBits(c))
    ensures SafeHeaderAt(input, p) == Some(Header(c.lit, c.dist, p + |F.CodesBits(c)|))
  {
    hide Shows, Val, F.IsCode, F.Num, F.InOrder, F.OrderBits, F.Spells, F.CanItem, F.ItemsBits, CodeLengthCode,
      SafeLengths, Accepts;
    var a, b, d := F.Num(|c.lit| - 257, 5), F.Num(|c.dist| - 1, 5), F.Num(c.sent - 4, 4);
    var e, f := F.OrderBits(c.cl, 0, c.sent), F.ItemsBits(c.cl, c.items);
    ShowsCat(input, p, a + b + d + e, f);
    ShowsCat(input, p, a + b + d, e);
    ShowsCat(input, p, a + b, d);
    ShowsCat(input, p, a, b);
    assert Pow2(5) == 32 && Pow2(4) == 16;
    NumHeld(input, p, |c.lit| - 257, 5);
    NumHeld(input, p + 5, |c.dist| - 1, 5);
    NumHeld(input, p + 10, c.sent - 4, 4);
    OrderSize(c.cl, 0, c.sent);
    ShowsInside(input, p + 14, e);
    LengthCodeRead(input, p + 14, c.cl, c.sent);
    AcceptsCodes(c.cl);
    AcceptsCodes(c.lit);
    AcceptsCodes(c.dist);
    var all := c.lit + c.dist;
    ItemsRead(c.cl, input, p + 14 + 3 * c.sent, c.items, [], all);
    assert all[..|c.lit|] == c.lit && all[|c.lit|..] == c.dist && all[256] == c.lit[256];
  }

  lemma {:induction false} OrderSize(cl: seq<nat>, i: nat, k: nat)
    requires |cl| == 19 && i + k <= 19
    ensures |F.OrderBits(cl, i, k)| == 3 * k
    decreases k
  {
    if k > 0 { OrderSize(cl, i + 1, k - 1); }
  }

  /** And a header that is read was there. */
  lemma ReadCodes(input: seq<u8>, p: nat) returns (c: F.Codes)
    requires SafeHeaderAt(input, p).Some?
    ensures F.IsCodes(c) && Shows(input, p, F.CodesBits(c))
    ensures SafeHeaderAt(input, p) == Some(Header(c.lit, c.dist, p + |F.CodesBits(c)|))
  {
    hide Shows, Val, F.IsCode, F.Num, F.InOrder, F.OrderBits, F.Spells, F.CanItem, F.ItemsBits, CodeLengthCode,
      SafeLengths, Accepts;
    var h := SafeHeaderAt(input, p).value;
    ValBoundFour(input, p + 10);
    var hlit, hdist, sent := Val(input, p, 5) + 257, Val(input, p + 5, 5) + 1, Val(input, p + 10, 4) + 4;
    var q := p + 14 + 3 * sent;
    var cl := CodeLengthCode(input, p + 14, sent);
    AcceptsCodes(cl);
    ThreeBits(input, p + 14, sent);
    LengthCodeRead(input, p + 14, cl, sent);
    OrderSize(cl, 0, sent);
    var items := ReadItems(cl, input, q, [], hlit + hdist);
    var all := SafeLengths(cl, input, q, [], hlit + hdist).value.0;
    c := F.Codes(h.lit, h.dist, cl, sent, items);
    assert h.lit == all[..hlit] && h.dist == all[hlit..] && h.lit + h.dist == all && h.lit[256] == all[256];
    AcceptsCodes(h.lit);
    AcceptsCodes(h.dist);
    NumThere(input, p, 5);
    NumThere(input, p + 5, 5);
    NumThere(input, p + 10, 4);
    var a, b, d := F.Num(hlit - 257, 5), F.Num(hdist - 1, 5), F.Num(sent - 4, 4);
    var e, f := F.OrderBits(cl, 0, sent), F.ItemsBits(cl, items);
    ShowsCat(input, p, a, b);
    ShowsCat(input, p, a + b, d);
    ShowsCat(input, p, a + b + d, e);
    ShowsCat(input, p, a + b + d + e, f);
  }

  // Blocks

  lemma FixedAre()
    ensures F.FixedLiterals() == FixedLit() && F.FixedDistances() == FixedDist()
    ensures F.IsCode(FixedLit()) && F.IsCode(FixedDist())
  {
    SameFixed();
    hide FixedLit, FixedDist, F.FixedLiterals, F.FixedDistances, F.IsCode, Accepts;
    FixedFit();
    AcceptsFixed(FixedLit());
    AcceptsFixed(FixedDist());
  }

  lemma SameFixed()
    ensures F.FixedLiterals() == FixedLit() && F.FixedDistances() == FixedDist()
  {
    var a, b := F.FixedLiterals(), FixedLit();
    assert |a| == |b| && forall i | 0 <= i < 288 :: a[i] == b[i];
  }

  lemma AcceptsFixed(lengths: seq<nat>)
    requires ShortLengths(lengths) && Fits(lengths)
    ensures F.IsCode(lengths)
  {
    hide Fits, Kraft, Offset, F.IsCode;
    AcceptsCodes(lengths);
  }

  /** The fixed codes as the table of section 3.2.6 gives them. */
  lemma FixedByTable(s: nat)
    ensures s < 144 ==> F.Huff(F.FixedLiterals(), s) == F.CodeBits(0x30 + s, 8)
    ensures 144 <= s < 256 ==> F.Huff(F.FixedLiterals(), s) == F.CodeBits(0x190 + (s - 144), 9)
    ensures 256 <= s < 280 ==> F.Huff(F.FixedLiterals(), s) == F.CodeBits(s - 256, 7)
    ensures 280 <= s < 288 ==> F.Huff(F.FixedLiterals(), s) == F.CodeBits(0xC0 + (s - 280), 8)
    ensures s < 30 ==> F.Huff(F.FixedDistances(), s) == F.CodeBits(s, 5)
  {
    SameFixed();
    hide F.CodeBits, FixedLit, FixedDist, F.FixedLiterals, F.FixedDistances, Code;
    FixedSizes();
    FixedLengthsAre(s);
    if s < 288 { LiteralCodes(s); }
    if s < 30 { DistanceCodes(s); }
  }

  lemma LiteralCodes(s: nat)
    requires s < 288
    ensures Code(FixedLit(), s) ==
      if s < 144 then 48 + s else if s < 256 then 256 + s else if s < 280 then s - 256 else s - 88
  {
    hide FixedLit, CountTo, First;
    FixedSizes();
    FixedLengthsAre(s);
    FixedFirst(7);
    FixedFirstLong();
    FixedLitCount(7, s);
    FixedLitCount(8, s);
    FixedLitCount(9, s);
  }

  lemma DistanceCodes(s: nat)
    requires s < 30
    ensures Code(FixedDist(), s) == s
  {
    hide FixedDist, CountTo, First;
    FixedSizes();
    FixedLengthsAre(s);
    FixedDistFirst(5);
    FixedDistCount(5, s);
  }

  lemma FixedLengthsAre(s: nat)
    ensures s < 288 ==> FixedLit()[s] == if s < 144 then 8 else if s < 256 then 9 else if s < 280 then 7 else 8
    ensures s < 30 ==> FixedDist()[s] == 5
  {
  }

  lemma {:induction false} BytesRead(input: seq<u8>, p: nat, bytes: seq<u8>)
    requires p + 8 * |bytes| <= 8 * |input|
    ensures |F.BytesBits(bytes)| == 8 * |bytes|
    ensures Shows(input, p, F.BytesBits(bytes)) <==>
      StoredFrom(input, p, |bytes|) == seq(|bytes|, i requires 0 <= i < |bytes| => Lit(bytes[i]))
    decreases |bytes|
  {
    hide Shows, Val, F.Num;
    var lits := seq(|bytes|, i requires 0 <= i < |bytes| => Lit(bytes[i]));
    if bytes == [] {
      ShowsNothing(input, p);
      assert lits == [];
    } else {
      var rest := bytes[1..];
      var others := seq(|rest|, i requires 0 <= i < |rest| => Lit(rest[i]));
      assert Pow2(8) == 256;
      ShowsCat(input, p, F.Num(bytes[0], 8), F.BytesBits(rest));
      NumRead(input, p, bytes[0], 8);
      BytesRead(input, p + 8, rest);
      assert lits == [Lit(bytes[0])] + others;
      var stored := StoredFrom(input, p, |bytes|);
      assert stored == [Lit(ByteAt(input, p))] + StoredFrom(input, p + 8, |rest|);
      if stored == lits {
        assert stored[0] == lits[0];
        assert stored[1..] == lits[1..] == others;
      }
    }
  }

  /** The first three bits of a block. */
  lemma StartRead(input: seq<u8>, p: nat, final: bool, low: bool, high: bool)
    requires p + 3 <= 8 * |input|
    ensures Shows(input, p, [final, low, high]) <==>
      (Val(input, p, 1) != 0) == final && Val(input, p + 1, 2) == BitVal(low) + 2 * BitVal(high)
  {
    hide StreamBit;
    var bits := [final, low, high];
    assert bits[0] == final && bits[1] == low && bits[2] == high;
    assert Val(input, p + 2, 1) == BitVal(StreamBit(input, p + 2));
    assert Val(input, p + 1, 2) == BitVal(StreamBit(input, p + 1)) + 2 * Val(input, p + 2, 1);
    if Shows(input, p, bits) {
      assert StreamBit(input, p + 0) == bits[0] && StreamBit(input, p + 1) == bits[1];
      assert StreamBit(input, p + 2) == bits[2];
    }
  }

  lemma StoredRead(input: seq<u8>, p: nat, fill: F.Bits, bytes: seq<u8>, final: bool)
    requires F.IsBlock(F.Stored(fill, bytes), p) && Shows(input, p, F.BlockBits(F.Stored(fill, bytes), final, p))
    ensures BlockAt(input, p) == Block(F.Tokens(F.Stored(fill, bytes), p), final,
                                       p + |F.BlockBits(F.Stored(fill, bytes), final, p)|)
    ensures Val(input, p + 1, 2) == 0
  {
    hide Shows, Val, F.Num, F.BytesBits, StoredFrom;
    PowersToSixteen();
    var s, n, m := [final, false, false], F.Num(|bytes|, 16), F.Num(0xFFFF - |bytes|, 16);
    var d := F.BytesBits(bytes);
    ShowsCat(input, p, s + fill + n + m, d);
    ShowsCat(input, p, s + fill + n, m);
    ShowsCat(input, p, s + fill, n);
    ShowsCat(input, p, s, fill);
    ShowsInside(input, p, s);
    StartRead(input, p, final, false, false);
    var a := p + 3 + |fill|;
    assert Aligned(p + 3) == a;
    NumHeld(input, a, |bytes|, 16);
    NumHeld(input, a + 16, 0xFFFF - |bytes|, 16);
    ShowsInside(input, a + 32, d);
    BytesSize(bytes);
    BytesRead(input, a + 32, bytes);
  }

  lemma {:induction false} BytesSize(bytes: seq<u8>)
    ensures |F.BytesBits(bytes)| == 8 * |bytes|
  {
    if bytes != [] { BytesSize(bytes[1..]); }
  }

  /** A block that is there is read as what it means, to its last bit. */
  lemma BlockRead(input: seq<u8>, p: nat, b: F.Block, final: bool)
    requires F.IsBlock(b, p) && Shows(input, p, F.BlockBits(b, final, p))
    ensures SafeBlockAt(input, p) == Block(F.Tokens(b, p), final, p + |F.BlockBits(b, final, p)|)
  {
    hide Shows, Val, BlockAt, SafeHeaderAt, RunFrom, F.CodesBits, F.SymbolsBits, F.IsCodes, F.CanWriteAll, F.IsCode,
      FixedLit, FixedDist, F.FixedLiterals, F.FixedDistances, F.BytesBits, F.Num;
    match b {
      case Stored(fill, bytes) => StoredRead(input, p, fill, bytes, final);
      case Fixed(ss) =>
        FixedAre();
        var s, d := [final, true, false], F.SymbolsBits(FixedLit(), FixedDist(), ss);
        ShowsCat(input, p, s, d);
        ShowsInside(input, p, s);
        StartRead(input, p, final, true, false);
        RunRead(FixedLit(), FixedDist(), input, p + 3, ss);
        FixedBlock(input, p);
      case Dynamic(c, ss) =>
        var s, h, d := [final, false, true], F.CodesBits(c), F.SymbolsBits(c.lit, c.dist, ss);
        ShowsCat(input, p, s + h, d);
        ShowsCat(input, p, s, h);
        ShowsInside(input, p, s);
        StartRead(input, p, final, false, true);
        CodesRead(input, p + 3, c);
        CodesAreCodes(c);
        RunRead(c.lit, c.dist, input, p + 3 + |h|, ss);
    }
  }

  lemma CodesAreCodes(c: F.Codes)
    requires F.IsCodes(c)
    ensures F.IsCode(c.lit) && F.IsCode(c.dist)
  {
  }

  lemma FixedBlock(input: seq<u8>, p: nat)
    requires p + 3 <= 8 * |input| && Val(input, p + 1, 2) == 1
    ensures SafeBlockAt(input, p)
         == CompressedBlock(RunFrom(FixedLit(), FixedDist(), input, p + 3), Val(input, p, 1) != 0)
  {
    hide Val, RunFrom, FixedLit, FixedDist;
  }

  /** And a block that is read was there. */
  lemma ReadBlock(input: seq<u8>, p: nat) returns (b: F.Block)
    requires SafeBlockAt(input, p).Block?
    ensures var r := SafeBlockAt(input, p);
      && F.IsBlock(b, p) && Shows(input, p, F.BlockBits(b, r.final, p))
      && r.tokens == F.Tokens(b, p) && r.end == p + |F.BlockBits(b, r.final, p)|
  {
    hide Shows, Val, SafeHeaderAt, RunFrom, F.CodesBits, F.SymbolsBits, F.IsCodes, F.CanWriteAll, F.IsCode,
      FixedLit, FixedDist, F.FixedLiterals, F.FixedDistances, F.BytesBits, F.Num, StoredFrom, F.Meanings, Aligned,
      HeaderAt;
    var final := Val(input, p, 1) != 0;
    var btype := Val(input, p + 1, 2);
    if btype == 0 {
      b := ReadStored(input, p);
    } else if btype == 1 {
      FixedAre();
      FixedBlock(input, p);
      StartRead(input, p, final, true, false);
      var ss := ReadRun(FixedLit(), FixedDist(), input, p + 3);
      b := F.Fixed(ss);
      ShowsCat(input, p, [final, true, false], F.SymbolsBits(FixedLit(), FixedDist(), ss));
    } else {
      StartRead(input, p, final, false, true);
      var c := ReadCodes(input, p + 3);
      CodesAreCodes(c);
      var h := F.CodesBits(c);
      var ss := ReadRun(c.lit, c.dist, input, p + 3 + |h|);
      b := F.Dynamic(c, ss);
      ShowsCat(input, p, [final, false, true], h);
      ShowsCat(input, p, [final, false, true] + h, F.SymbolsBits(c.lit, c.dist, ss));
    }
  }

  /** Any bits can fill up the byte. */
  lemma FillThere(input: seq<u8>, p: nat, n: nat) returns (fill: F.Bits)
    requires p + n <= 8 * |input|
    ensures |fill| == n && Shows(input, p, fill)
  {
    hide StreamBit;
    fill := seq(n, i requires 0 <= i < n => StreamBit(input, p + i));
  }

  lemma ReadStored(input: seq<u8>, p: nat) returns (b: F.Block)
    requires BlockAt(input, p).Block? && Val(input, p + 1, 2) == 0
    ensures var r := BlockAt(input, p);
      && F.IsBlock(b, p) && Shows(input, p, F.BlockBits(b, r.final, p))
      && r.tokens == F.Tokens(b, p) && r.end == p + |F.BlockBits(b, r.final, p)|
  {
    hide Shows, Val, F.Num, F.BytesBits, StoredFrom;
    PowersToSixteen();
    var final := Val(input, p, 1) != 0;
    var a := Aligned(p + 3);
    var n := Val(input, a, 16);
    var fill := FillThere(input, p + 3, a - (p + 3));
    assert a == p + 3 + F.ToByte(p + 3);
    NumThere(input, a, 16);
    NumThere(input, a + 16, 16);
    var bytes := StoredBytes(input, a + 32, n);
    BytesRead(input, a + 32, bytes);
    b := F.Stored(fill, bytes);
    var s, l, m, d := [final, false, false], F.Num(n, 16), F.Num(0xFFFF - n, 16), F.BytesBits(bytes);
    StartRead(input, p, final, false, false);
    ShowsCat(input, p, s, fill);
    ShowsCat(input, p, s + fill, l);
    ShowsCat(input, p, s + fill + l, m);
    ShowsCat(input, p, s + fill + l + m, d);
  }

  lemma {:induction false} StoredBytes(input: seq<u8>, p: nat, n: nat) returns (bytes: seq<u8>)
    ensures |bytes| == n
    ensures StoredFrom(input, p, n) == seq(n, i requires 0 <= i < n => Lit(bytes[i]))
    decreases n
  {
    hide Val;
    if n == 0 {
      bytes := [];
    } else {
      var rest := StoredBytes(input, p + 8, n - 1);
      bytes := [ByteAt(input, p)] + rest;
    }
  }

  /** What the decoder takes for a block is exactly what the format can write: any bits, any position. */
  lemma BlocksAreWritten(input: seq<u8>, p: nat, ts: seq<Token>, final: bool, end: nat)
    ensures SafeBlockAt(input, p) == Block(ts, final, end) <==>
      exists b ::
        && F.IsBlock(b, p) && Shows(input, p, F.BlockBits(b, final, p))
        && ts == F.Tokens(b, p) && end == p + |F.BlockBits(b, final, p)|
  {
    hide SafeBlockAt, F.IsBlock, Shows, F.BlockBits, F.Tokens;
    if SafeBlockAt(input, p) == Block(ts, final, end) {
      var b := ReadBlock(input, p);
    }
    if exists b :: F.IsBlock(b, p) && Shows(input, p, F.BlockBits(b, final, p))
                   && ts == F.Tokens(b, p) && end == p + |F.BlockBits(b, final, p)| {
      var b :| F.IsBlock(b, p) && Shows(input, p, F.BlockBits(b, final, p))
               && ts == F.Tokens(b, p) && end == p + |F.BlockBits(b, final, p)|;
      BlockRead(input, p, b, final);
    }
  }
}
