/** What a block's symbols do to the output: with the window known (bytes), and decoded blind into
    cells that may refer to the unknown bytes before the chunk. */
module Lz77 {
  import opened Words
  import opened Tables

  datatype Option<+T> = None | Some(value: T)

  datatype Token = Lit(b: u8) | Copy(len: nat, dist: nat)

  /** A cell of the speculative window: a byte, or the prefix byte `off` places before the chunk's
      first byte (0 is the one immediately before it). */
  datatype Cell = Byte(b: u8) | Mark(off: nat)

  /** A back-reference as the format can express it. */
  predicate ValidToken(t: Token) {
    t.Copy? ==> 3 <= t.len <= MAX_LENGTH && 1 <= t.dist <= MAX_DISTANCE
  }

  ghost predicate ValidTokens(ts: seq<Token>) {
    forall i | 0 <= i < |ts| :: ValidToken(ts[i])
  }

  /** n elements appended, each a copy of the one d places before it. */
  function CopyBack<T>(s: seq<T>, d: nat, n: nat): seq<T>
    requires 0 < d <= |s|
    decreases n
  {
    if n == 0 then s else CopyBack(s + [s[|s| - d]], d, n - 1)
  }

  lemma {:induction false} CopyBackAt<T>(s: seq<T>, d: nat, n: nat)
    requires 0 < d <= |s|
    ensures |CopyBack(s, d, n)| == |s| + n
    ensures CopyBack(s, d, n)[..|s|] == s
    ensures forall i | |s| <= i < |s| + n :: CopyBack(s, d, n)[i] == CopyBack(s, d, n)[i - d]
    decreases n
  {
    if n > 0 {
      var s' := s + [s[|s| - d]];
      CopyBackAt(s', d, n - 1);
      var r := CopyBack(s, d, n);
      assert r[..|s|] == r[..|s'|][..|s|];
      assert r[|s|] == r[..|s'|][|s|] && r[|s| - d] == r[..|s'|][|s| - d];
    }
  }

  /** A sequence with the copy equation is the copy. */
  lemma CopyBackUnique<T>(s: seq<T>, d: nat, n: nat, r: seq<T>)
    requires 0 < d <= |s|
    requires |r| == |s| + n && r[..|s|] == s
    requires forall i | |s| <= i < |s| + n :: r[i] == r[i - d]
    ensures r == CopyBack(s, d, n)
  {
    CopyBackAt(s, d, n);
    var c := CopyBack(s, d, n);
    var k := |s|;
    while k < |r|
      invariant |s| <= k <= |r|
      invariant forall i | 0 <= i < k :: r[i] == c[i]
    {
      assert r[k] == r[k - d] && c[k] == c[k - d];
      k := k + 1;
    }
    forall i | 0 <= i < |s| ensures r[i] == c[i] {
      assert r[..|s|][i] == c[..|s|][i];
    }
  }

  /** A copy does not look further back than its distance. */
  lemma {:induction false} CopyBackPrefix<T>(a: seq<T>, s: seq<T>, d: nat, n: nat)
    requires 0 < d <= |s|
    ensures CopyBack(a + s, d, n) == a + CopyBack(s, d, n)
    decreases n
  {
    if n > 0 {
      assert a + s + [(a + s)[|a + s| - d]] == a + (s + [s[|s| - d]]);
      CopyBackPrefix(a, s + [s[|s| - d]], d, n - 1);
    }
  }

  // Window known

  /** One token after `out`; a distance reaching before its start is an error. */
  function ApplyOne(out: seq<u8>, t: Token): Option<seq<u8>> {
    match t
    case Lit(b) => Some(out + [b])
    case Copy(len, dist) =>
      if dist == 0 || dist > |out| then None else Some(CopyBack(out, dist, len))
  }

  function Apply(out: seq<u8>, ts: seq<Token>): Option<seq<u8>>
    decreases |ts|
  {
    if ts == [] then Some(out)
    else match ApplyOne(out, ts[0])
      case None => None
      case Some(next) => Apply(next, ts[1..])
  }

  // Window unknown

  function BlindSource(cells: seq<Cell>, d: nat): Cell
    requires d > 0
  {
    if d <= |cells| then cells[|cells| - d] else Mark(d - |cells| - 1)
  }

  function BlindCopy(cells: seq<Cell>, d: nat, n: nat): seq<Cell>
    requires d > 0
    decreases n
  {
    if n == 0 then cells else BlindCopy(cells + [BlindSource(cells, d)], d, n - 1)
  }

  function BlindOne(cells: seq<Cell>, t: Token): seq<Cell> {
    match t
    case Lit(b) => cells + [Byte(b)]
    case Copy(len, dist) => if dist == 0 then cells else BlindCopy(cells, dist, len)
  }

  function Blind(cells: seq<Cell>, ts: seq<Token>): seq<Cell>
    decreases |ts|
  {
    if ts == [] then cells else Blind(BlindOne(cells, ts[0]), ts[1..])
  }

  // Resolution

  predicate CellReaches(c: Cell, n: nat) {
    c.Mark? ==> c.off < n
  }

  /** Every mark lies inside the `n` prefix bytes available. */
  ghost predicate Resolvable(cells: seq<Cell>, n: nat) {
    forall i | 0 <= i < |cells| :: CellReaches(cells[i], n)
  }

  function Patch(c: Cell, h: seq<u8>): u8
    requires CellReaches(c, |h|)
  {
    match c
    case Byte(b) => b
    case Mark(off) => h[|h| - 1 - off]
  }

  /** The cells' bytes, given the bytes `h` before them. */
  function Resolved(cells: seq<Cell>, h: seq<u8>): (r: seq<u8>)
    requires Resolvable(cells, |h|)
    ensures |r| == |cells|
    ensures forall i | 0 <= i < |cells| :: r[i] == Patch(cells[i], h)
  {
    seq(|cells|, i requires 0 <= i < |cells| => Patch(cells[i], h))
  }

  /** Marks written by valid tokens never reach further back than the window. */
  ghost predicate InWindow(cells: seq<Cell>) {
    Resolvable(cells, MAX_DISTANCE)
  }

  lemma {:induction false} BlindCopyGrows(cells: seq<Cell>, d: nat, n: nat)
    requires d > 0
    ensures |BlindCopy(cells, d, n)| == |cells| + n
    ensures BlindCopy(cells, d, n)[..|cells|] == cells
    decreases n
  {
    if n > 0 {
      var next := cells + [BlindSource(cells, d)];
      BlindCopyGrows(next, d, n - 1);
      assert BlindCopy(cells, d, n)[..|cells|] == BlindCopy(cells, d, n)[..|next|][..|cells|];
    }
  }

  /** Inside known cells a blind copy is a copy. */
  lemma {:induction false} BlindInside(cells: seq<Cell>, d: nat, n: nat)
    requires 0 < d <= |cells|
    ensures BlindCopy(cells, d, n) == CopyBack(cells, d, n)
    decreases n
  {
    if n > 0 { BlindInside(cells + [BlindSource(cells, d)], d, n - 1); }
  }

  lemma {:induction false} BlindSplit(cells: seq<Cell>, d: nat, m: nat, n: nat)
    requires d > 0
    ensures BlindCopy(cells, d, m + n) == BlindCopy(BlindCopy(cells, d, m), d, n)
    decreases m
  {
    if m > 0 { BlindSplit(cells + [BlindSource(cells, d)], d, m - 1, n); }
  }

  lemma {:induction false} BlindGrows(cells: seq<Cell>, ts: seq<Token>)
    ensures |Blind(cells, ts)| >= |cells|
    ensures Blind(cells, ts)[..|cells|] == cells
    decreases |ts|
  {
    if ts != [] {
      var next := BlindOne(cells, ts[0]);
      if ts[0].Copy? && ts[0].dist > 0 { BlindCopyGrows(cells, ts[0].dist, ts[0].len); }
      BlindGrows(next, ts[1..]);
      assert Blind(cells, ts)[..|cells|] == Blind(cells, ts)[..|next|][..|cells|];
    }
  }

  lemma ResolvableSplit(a: seq<Cell>, b: seq<Cell>, n: nat)
    ensures Resolvable(a + b, n) <==> Resolvable(a, n) && Resolvable(b, n)
  {
    if Resolvable(a + b, n) {
      forall i | 0 <= i < |a| ensures CellReaches(a[i], n) { assert (a + b)[i] == a[i]; }
      forall i | 0 <= i < |b| ensures CellReaches(b[i], n) { assert (a + b)[|a| + i] == b[i]; }
    }
  }

  lemma ResolvablePrefix(cells: seq<Cell>, k: nat, n: nat)
    requires k <= |cells| && Resolvable(cells, n)
    ensures Resolvable(cells[..k], n)
  {
  }

  lemma ResolvedAppend(cells: seq<Cell>, c: Cell, h: seq<u8>)
    requires Resolvable(cells, |h|) && CellReaches(c, |h|)
    ensures Resolvable(cells + [c], |h|)
    ensures Resolved(cells + [c], h) == Resolved(cells, h) + [Patch(c, h)]
  {
  }

  /** A copy decoded blind resolves to the copy made with the window known. */
  lemma {:induction false} BlindCopyResolves(cells: seq<Cell>, d: nat, n: nat, h: seq<u8>)
    requires 0 < d <= |h| + |cells| && Resolvable(cells, |h|)
    ensures Resolvable(BlindCopy(cells, d, n), |h|)
    ensures h + Resolved(BlindCopy(cells, d, n), h) == CopyBack(h + Resolved(cells, h), d, n)
    decreases n
  {
    if n > 0 {
      var c := BlindSource(cells, d);
      var out := h + Resolved(cells, h);
      ResolvedAppend(cells, c, h);
      assert out[|out| - d] == Patch(c, h);
      assert out + [out[|out| - d]] == h + Resolved(cells + [c], h);
      BlindCopyResolves(cells + [c], d, n - 1, h);
    }
  }

  /** A copy reaching before everything known leaves a mark that cannot be resolved. */
  lemma BlindCopyUnresolvable(cells: seq<Cell>, d: nat, n: nat, h: seq<u8>)
    requires d > |h| + |cells| && n > 0
    ensures !Resolvable(BlindCopy(cells, d, n), |h|)
  {
    var next := cells + [BlindSource(cells, d)];
    BlindCopyGrows(next, d, n - 1);
    var r := BlindCopy(cells, d, n);
    assert r[|cells|] == r[..|next|][|cells|] == Mark(d - |cells| - 1);
    assert !CellReaches(r[|cells|], |h|);
  }

  /** Decoding blind and resolving later is decoding with the window known: the same bytes, and
      resolution fails exactly when some back-reference reaches before the first known byte. */
  lemma {:induction false} BlindResolves(cells: seq<Cell>, ts: seq<Token>, h: seq<u8>)
    requires ValidTokens(ts) && Resolvable(cells, |h|)
    ensures Apply(h + Resolved(cells, h), ts) ==
      if Resolvable(Blind(cells, ts), |h|) then Some(h + Resolved(Blind(cells, ts), h)) else None
    decreases |ts|
  {
    if ts != [] {
      var out := h + Resolved(cells, h);
      assert ValidToken(ts[0]);
      var next := BlindOne(cells, ts[0]);
      match ts[0] {
        case Lit(b) =>
          ResolvedAppend(cells, Byte(b), h);
          assert out + [b] == h + Resolved(next, h);
          BlindResolves(next, ts[1..], h);
        case Copy(len, dist) =>
          if dist <= |out| {
            BlindCopyResolves(cells, dist, len, h);
            BlindResolves(next, ts[1..], h);
          } else {
            BlindCopyUnresolvable(cells, dist, len, h);
            BlindGrows(next, ts[1..]);
            if Resolvable(Blind(cells, ts), |h|) {
              ResolvablePrefix(Blind(cells, ts), |next|, |h|);
            }
          }
      }
    }
  }

  /** Valid tokens only ever write marks inside the window. */
  lemma {:induction false} BlindInWindow(cells: seq<Cell>, ts: seq<Token>)
    requires ValidTokens(ts) && InWindow(cells)
    ensures InWindow(Blind(cells, ts))
    decreases |ts|
  {
    if ts != [] {
      assert ValidToken(ts[0]);
      if ts[0].Copy? { BlindCopyInWindow(cells, ts[0].dist, ts[0].len); }
      BlindInWindow(BlindOne(cells, ts[0]), ts[1..]);
    }
  }

  lemma {:induction false} BlindCopyInWindow(cells: seq<Cell>, d: nat, n: nat)
    requires 0 < d <= MAX_DISTANCE && InWindow(cells)
    ensures InWindow(BlindCopy(cells, d, n))
    decreases n
  {
    if n > 0 { BlindCopyInWindow(cells + [BlindSource(cells, d)], d, n - 1); }
  }

  /** The last 32 KiB, or all of it when there is less. */
  function Tail(h: seq<u8>): (t: seq<u8>)
    ensures |t| <= MAX_DISTANCE
  {
    if |h| <= MAX_DISTANCE then h else h[|h| - MAX_DISTANCE..]
  }

  /** The trailing window is all that resolution needs. */
  lemma TailResolves(cells: seq<Cell>, h: seq<u8>)
    requires InWindow(cells)
    ensures Resolvable(cells, |h|) <==> Resolvable(cells, |Tail(h)|)
    ensures Resolvable(cells, |h|) ==> Resolved(cells, h) == Resolved(cells, Tail(h))
  {
    if |h| > MAX_DISTANCE {
      forall i | 0 <= i < |cells| ensures CellReaches(cells[i], |h|) {
        assert CellReaches(cells[i], MAX_DISTANCE);
      }
      forall i | 0 <= i < |cells| ensures Patch(cells[i], h) == Patch(cells[i], Tail(h)) {
      }
    }
  }

  /** Decoding blind, then resolving against the last min(32768, |h|) bytes of `h`, appends to `h`
      exactly what the window-known decoder appends. */
  lemma SpeculationIsSound(ts: seq<Token>, h: seq<u8>)
    requires ValidTokens(ts)
    ensures Apply(h, ts) ==
      if Resolvable(Blind([], ts), |Tail(h)|) then Some(h + Resolved(Blind([], ts), Tail(h))) else None
  {
    assert h + Resolved([], h) == h;
    BlindResolves([], ts, h);
    BlindInWindow([], ts);
    TailResolves(Blind([], ts), h);
  }

  lemma {:induction false} BlindAppend(cells: seq<Cell>, a: seq<Token>, b: seq<Token>)
    ensures Blind(cells, a + b) == Blind(Blind(cells, a), b)
    decreases |a|
  {
    if a == [] {
      assert a + b == b;
    } else {
      assert (a + b)[1..] == a[1..] + b;
      BlindAppend(BlindOne(cells, a[0]), a[1..], b);
    }
  }

  lemma {:induction false} ApplyAppend(out: seq<u8>, a: seq<Token>, b: seq<Token>)
    ensures Apply(out, a + b) ==
      match Apply(out, a) { case None => None case Some(next) => Apply(next, b) }
    decreases |a|
  {
    if a == [] {
      assert a + b == b;
    } else {
      assert (a + b)[1..] == a[1..] + b;
      match ApplyOne(out, a[0]) {
        case None =>
        case Some(next) => ApplyAppend(next, a[1..], b);
      }
    }
  }
}
