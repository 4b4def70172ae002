/** The canonical Huffman code of section 3.2.2 of RFC 1951: what both table builders must decode. */
module Canonical {
  import opened Words

  const MAX_CODE_LEN: nat := 15

  ghost predicate ShortLengths(lengths: seq<nat>) {
    forall i | 0 <= i < |lengths| :: lengths[i] <= MAX_CODE_LEN
  }

  /** How many of the first n symbols have code length l. */
  function CountTo(lengths: seq<nat>, l: nat, n: nat): (c: nat)
    requires n <= |lengths|
    ensures c <= n
  {
    if n == 0 then 0 else CountTo(lengths, l, n - 1) + (if lengths[n - 1] == l then 1 else 0)
  }

  /** How many symbols have code length l; symbols of length 0 have no code and do not count. */
  function Count(lengths: seq<nat>, l: nat): nat {
    if l == 0 then 0 else CountTo(lengths, l, |lengths|)
  }

  /** The smallest code of length l. */
  function First(lengths: seq<nat>, l: nat): nat {
    if l == 0 then 0 else 2 * (First(lengths, l - 1) + Count(lengths, l - 1))
  }

  /** Symbols with a code shorter than l. */
  function Offset(lengths: seq<nat>, l: nat): nat {
    if l == 0 then 0 else Offset(lengths, l - 1) + Count(lengths, l - 1)
  }

  /** The code of a symbol: codes of one length are consecutive, in symbol order. */
  function Code(lengths: seq<nat>, sym: nat): nat
    requires sym < |lengths|
  {
    First(lengths, lengths[sym]) + CountTo(lengths, lengths[sym], sym)
  }

  /** The first l bits of a window read as a code, most significant bit first. */
  function Msb(w: nat, l: nat): nat {
    if l == 0 then 0 else 2 * Msb(w, l - 1) + BitVal(Bit(w, l - 1))
  }

  /** The window starts with the code of `sym`. */
  predicate Matches(lengths: seq<nat>, sym: nat, w: nat)
    requires sym < |lengths|
  {
    lengths[sym] > 0 && Msb(w, lengths[sym]) == Code(lengths, sym)
  }

  /** The symbol (from k on) whose code starts the window, or -1 when there is none. */
  function SymFrom(lengths: seq<nat>, w: nat, k: nat): (s: int)
    requires k <= |lengths|
    ensures s == -1 || (k <= s < |lengths| && Matches(lengths, s, w))
    ensures s == -1 ==> forall i | k <= i < |lengths| :: !Matches(lengths, i, w)
    decreases |lengths| - k
  {
    if k == |lengths| then -1
    else if Matches(lengths, k, w) then k
    else SymFrom(lengths, w, k + 1)
  }

  function Sym(lengths: seq<nat>, w: nat): int {
    SymFrom(lengths, w, 0)
  }

  /** Not over-subscribed: at every length the codes used so far leave room. */
  ghost predicate Fits(lengths: seq<nat>) {
    forall l: nat | l <= MAX_CODE_LEN :: First(lengths, l) + Count(lengths, l) <= Pow2(l)
  }

  // Counting

  lemma {:induction false} CountMono(lengths: seq<nat>, l: nat, m: nat, n: nat)
    requires m <= n <= |lengths|
    ensures CountTo(lengths, l, m) <= CountTo(lengths, l, n)
  {
    if m < n { CountMono(lengths, l, m, n - 1); }
  }

  /** A symbol's rank among those of its length is below their number. */
  lemma RankBelow(lengths: seq<nat>, sym: nat)
    requires sym < |lengths| && lengths[sym] > 0
    ensures CountTo(lengths, lengths[sym], sym) < Count(lengths, lengths[sym])
  {
    CountMono(lengths, lengths[sym], sym + 1, |lengths|);
  }

  /** Symbols of one length have different ranks. */
  lemma RankInjective(lengths: seq<nat>, a: nat, b: nat)
    requires a < b < |lengths| && lengths[a] == lengths[b]
    ensures CountTo(lengths, lengths[a], a) < CountTo(lengths, lengths[a], b)
  {
    CountMono(lengths, lengths[a], a + 1, b);
  }

  /** Every rank below the count belongs to a symbol. */
  lemma {:induction false} RankSurjective(lengths: seq<nat>, l: nat, r: nat, n: nat) returns (sym: nat)
    requires n <= |lengths| && r < CountTo(lengths, l, n)
    ensures sym < n && lengths[sym] == l && CountTo(lengths, l, sym) == r
  {
    if lengths[n - 1] == l && CountTo(lengths, l, n - 1) == r {
      sym := n - 1;
    } else {
      sym := RankSurjective(lengths, l, r, n - 1);
    }
  }

  // Bit order

  /** The l low bits of c in the opposite order. */
  function Reverse(c: nat, l: nat): nat {
    if l == 0 then 0 else Reverse(c / 2, l - 1) + Shl(c % 2, l - 1)
  }

  lemma {:induction false} ReverseBound(c: nat, l: nat)
    ensures Reverse(c, l) < Pow2(l)
  {
    if l > 0 {
      ReverseBound(c / 2, l - 1);
      ShlOne(l - 1);
    }
  }

  lemma {:induction false} MsbBound(w: nat, l: nat)
    ensures Msb(w, l) < Pow2(l)
  {
    if l > 0 { MsbBound(w, l - 1); }
  }

  /** Reading l bits least significant first gives the reversed code. */
  lemma {:induction false} LowIsReversedMsb(w: nat, l: nat)
    ensures Low(w, l) == Reverse(Msb(w, l), l)
  {
    if l > 0 {
      LowIsReversedMsb(w, l - 1);
      LowTop(w, l - 1);
    }
  }

  lemma {:induction false} ReverseInjective(a: nat, b: nat, l: nat)
    requires a < Pow2(l) && b < Pow2(l) && Reverse(a, l) == Reverse(b, l)
    ensures a == b
  {
    if l > 0 {
      ReverseBound(a / 2, l - 1);
      ReverseBound(b / 2, l - 1);
      ShlOne(l - 1);
      assert a % 2 == b % 2;
      ReverseInjective(a / 2, b / 2, l - 1);
    }
  }

  /** So a window starts with a code exactly when its low bits are the reversed code. */
  lemma MsbVersusLow(w: nat, c: nat, l: nat)
    requires c < Pow2(l)
    ensures Msb(w, l) == c <==> Low(w, l) == Reverse(c, l)
  {
    LowIsReversedMsb(w, l);
    MsbBound(w, l);
    if Low(w, l) == Reverse(c, l) { ReverseInjective(Msb(w, l), c, l); }
  }

  // Prefix-freeness

  lemma {:induction false} MsbPrefix(w: nat, l: nat, m: nat)
    requires l <= m
    ensures Shl(Msb(w, l), m - l) <= Msb(w, m) < Shl(Msb(w, l) + 1, m - l)
    decreases m
  {
    if l < m { MsbPrefix(w, l, m - 1); }
  }

  lemma {:induction false} FirstGrows(lengths: seq<nat>, l: nat, m: nat)
    requires l < m
    ensures First(lengths, m) >= Shl(First(lengths, l) + Count(lengths, l), m - l)
    decreases m
  {
    if l + 1 < m {
      FirstGrows(lengths, l, m - 1);
    } else {
      assert Shl(First(lengths, l) + Count(lengths, l), 1)
          == 2 * Shl(First(lengths, l) + Count(lengths, l), 0);
    }
  }

  /** At most one symbol's code starts a window. */
  lemma MatchUnique(lengths: seq<nat>, a: nat, b: nat, w: nat)
    requires a < |lengths| && b < |lengths|
    requires Matches(lengths, a, w) && Matches(lengths, b, w)
    ensures a == b
  {
    if lengths[a] == lengths[b] {
      if a < b { RankInjective(lengths, a, b); }
      if b < a { RankInjective(lengths, b, a); }
    } else if lengths[a] < lengths[b] {
      ShorterExcludes(lengths, a, b, w);
    } else {
      ShorterExcludes(lengths, b, a, w);
    }
  }

  lemma ShorterExcludes(lengths: seq<nat>, a: nat, b: nat, w: nat)
    requires a < |lengths| && b < |lengths|
    requires lengths[a] < lengths[b] && Matches(lengths, a, w)
    ensures !Matches(lengths, b, w)
  {
    var l, m := lengths[a], lengths[b];
    RankBelow(lengths, a);
    MsbPrefix(w, l, m);
    FirstGrows(lengths, l, m);
    ShlMono(Msb(w, l) + 1, First(lengths, l) + Count(lengths, l), m - l);
  }

  /** A symbol whose code starts the window is the one `Sym` finds. */
  lemma SymIs(lengths: seq<nat>, sym: nat, w: nat)
    requires sym < |lengths| && Matches(lengths, sym, w)
    ensures Sym(lengths, w) == sym
  {
    MatchUnique(lengths, sym, Sym(lengths, w), w);
  }

  /** Codes fit their length. */
  lemma CodeBound(lengths: seq<nat>, sym: nat)
    requires Fits(lengths) && ShortLengths(lengths)
    requires sym < |lengths| && lengths[sym] > 0
    ensures Code(lengths, sym) < Pow2(lengths[sym])
  {
    RankBelow(lengths, sym);
    assert First(lengths, lengths[sym]) + Count(lengths, lengths[sym]) <= Pow2(lengths[sym]);
  }

  /** Only the bits a code is long matter to whether it matches. */
  lemma {:induction false} MsbLocal(w: nat, v: nat, l: nat)
    requires Low(w, l) == Low(v, l)
    ensures Msb(w, l) == Msb(v, l)
  {
    LowIsReversedMsb(w, l);
    LowIsReversedMsb(v, l);
    MsbBound(w, l);
    MsbBound(v, l);
    ReverseInjective(Msb(w, l), Msb(v, l), l);
  }

  /** A window that starts as one with a symbol's code does starts with that symbol. */
  lemma SameStart(lengths: seq<nat>, s: nat, w: nat, v: nat)
    requires s < |lengths| && Sym(lengths, w) == s && Low(w, lengths[s]) == Low(v, lengths[s])
    ensures Sym(lengths, v) == s
  {
    MsbLocal(w, v, lengths[s]);
    SymIs(lengths, s, v);
  }

  /** Windows that agree on 15 bits decode alike. */
  lemma SymLocal(lengths: seq<nat>, w: nat, v: nat)
    requires ShortLengths(lengths)
    requires Low(w, MAX_CODE_LEN) == Low(v, MAX_CODE_LEN)
    ensures Sym(lengths, w) == Sym(lengths, v)
  {
    forall i | 0 <= i < |lengths| ensures Matches(lengths, i, w) == Matches(lengths, i, v) {
      LowLow(w, MAX_CODE_LEN, lengths[i]);
      LowLow(v, MAX_CODE_LEN, lengths[i]);
      MsbLocal(w, v, lengths[i]);
    }
    var s := Sym(lengths, w);
    if s >= 0 { SymIs(lengths, s, v); }
  }

  // Kraft's inequality, in the two forms the builders test

  /** The share of the code space used by lengths 1 to l, in units of 2^-n. */
  function Kraft(lengths: seq<nat>, l: nat, n: nat): nat
    requires l <= n
  {
    if l == 0 then 0 else Kraft(lengths, l - 1, n) + Shl(Count(lengths, l), n - l)
  }

  /** The Kraft sum is the first unused code, left-justified. */
  lemma {:induction false} KraftIsNextCode(lengths: seq<nat>, l: nat, n: nat)
    requires l <= n
    ensures Kraft(lengths, l, n) == Shl(First(lengths, l) + Count(lengths, l), n - l)
  {
    if l == 0 {
      ShlOne(n);
    } else {
      KraftIsNextCode(lengths, l - 1, n);
      var a := First(lengths, l - 1) + Count(lengths, l - 1);
      ShlAdd(a, a, n - l);
      ShlAdd(2 * a, Count(lengths, l), n - l);
      ShlDouble(a, n - l);
    }
  }

  lemma ShlDouble(x: nat, k: nat)
    ensures Shl(x, k + 1) == 2 * Shl(x, k)
  {
  }

  lemma {:induction false} KraftMono(lengths: seq<nat>, l: nat, m: nat, n: nat)
    requires l <= m <= n
    ensures Kraft(lengths, l, n) <= Kraft(lengths, m, n)
  {
    if l < m { KraftMono(lengths, l, m - 1, n); }
  }

  /** The sum test accepts exactly the length vectors whose codes fit. */
  lemma KraftDecides(lengths: seq<nat>, n: nat)
    requires n == MAX_CODE_LEN
    ensures Fits(lengths) <==> Kraft(lengths, n, n) <= Pow2(n)
  {
    KraftIsNextCode(lengths, n, n);
    if Kraft(lengths, n, n) <= Pow2(n) {
      forall l: nat | l <= MAX_CODE_LEN
        ensures First(lengths, l) + Count(lengths, l) <= Pow2(l)
      {
        KraftRoom(lengths, l, n);
      }
    }
  }

  lemma KraftRoom(lengths: seq<nat>, l: nat, n: nat)
    requires l <= n
    requires Kraft(lengths, n, n) <= Pow2(n)
    ensures First(lengths, l) + Count(lengths, l) <= Pow2(l)
  {
    var a, k := First(lengths, l) + Count(lengths, l), n - l;
    KraftIsNextCode(lengths, l, n);
    KraftMono(lengths, l, n, n);
    ShlOne(l);
    ShlOne(k);
    ShlOne(n);
    ShlShl(1, l, k);
    if a > Pow2(l) {
      ShlMono(Pow2(l) + 1, a, k);
      ShlAdd(Pow2(l), 1, k);
    }
  }

  /** One coded symbol never over-subscribes, so testing the sum only from two symbols on changes
      nothing. */
  lemma {:induction false} KraftSmall(lengths: seq<nat>, l: nat, n: nat)
    requires l <= n && Offset(lengths, l + 1) <= 1
    ensures Kraft(lengths, l, n) <= (if Offset(lengths, l + 1) == 0 then 0 else Pow2(n))
  {
    if l > 0 {
      KraftSmall(lengths, l - 1, n);
      ShlOne(n - l);
      Pow2Mono(n - l, n);
    }
  }

  lemma {:induction false} Pow2Mono(a: nat, b: nat)
    requires a <= b
    ensures Pow2(a) <= Pow2(b)
  {
    if a < b { Pow2Mono(a, b - 1); }
  }

  /** The running test `left = (left << 1) - count[l]` of the second builder, which gives up at the
      first negative value, accepts exactly the same length vectors. */
  function Left(lengths: seq<nat>, l: nat): int {
    if l == 0 then 1 else 2 * Left(lengths, l - 1) - Count(lengths, l)
  }

  lemma {:induction false} LeftIsRoom(lengths: seq<nat>, l: nat)
    ensures Left(lengths, l) == Pow2(l) - (First(lengths, l) + Count(lengths, l))
  {
    if l > 0 { LeftIsRoom(lengths, l - 1); }
  }

  lemma LeftDecides(lengths: seq<nat>)
    ensures Fits(lengths) <==> forall l: nat | l <= MAX_CODE_LEN :: Left(lengths, l) >= 0
  {
    if Fits(lengths) {
      forall l: nat | l <= MAX_CODE_LEN ensures Left(lengths, l) >= 0 {
        assert First(lengths, l) + Count(lengths, l) <= Pow2(l);
        LeftIsRoom(lengths, l);
      }
    } else {
      var l: nat :| l <= MAX_CODE_LEN && First(lengths, l) + Count(lengths, l) > Pow2(l);
      LeftIsRoom(lengths, l);
    }
  }
}
