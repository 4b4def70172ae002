/** The member header of RFC 1952, section 2.3 (gzip.rs). */
module GzipHeader {
  import opened Words
  import opened Lz77

  const CM_DEFLATE: nat := 8

  datatype HeaderResult = Parsed(len: nat) | Short | Bad

  /** Past the next zero byte, if there is one. */
  function SkipZString(input: seq<u8>, pos: nat): (r: Option<nat>)
    ensures r.Some? ==> pos < r.value <= |input| && input[r.value - 1] == 0
    ensures r.Some? ==> forall i | pos <= i < r.value - 1 :: input[i] != 0
    ensures r.None? ==> forall i | pos <= i < |input| :: input[i] != 0
    decreases |input| - pos
  {
    if pos >= |input| then None
    else if input[pos] == 0 then Some(pos + 1)
    else SkipZString(input, pos + 1)
  }

  /** The optional extra field. */
  function SkipExtra(input: seq<u8>, present: bool, pos: nat): (r: Option<nat>)
    ensures r.Some? && pos <= |input| ==> pos <= r.value <= |input|
  {
    if !present then Some(pos)
    else if pos + 2 > |input| then None
    else
      var low: int, high: int := input[pos], input[pos + 1];
      var end := pos + 2 + low + 0x100 * high;
      if end > |input| then None else Some(end)
  }

  function SkipString(input: seq<u8>, present: bool, pos: nat): (r: Option<nat>)
    ensures r.Some? && pos <= |input| ==> pos <= r.value <= |input|
  {
    if present then SkipZString(input, pos) else Some(pos)
  }

  /** The checksum of the header, which is not checked. */
  function SkipCheck(input: seq<u8>, present: bool, pos: nat): (r: Option<nat>)
    ensures r.Some? && pos <= |input| ==> pos <= r.value <= |input|
  {
    if !present then Some(pos) else if pos + 2 > |input| then None else Some(pos + 2)
  }

  /** The length of the header at the start of the bytes; `Short` when more bytes are needed to tell. */
  function ParseHeader(input: seq<u8>): (r: HeaderResult)
    ensures r.Parsed? ==> 10 <= r.len <= |input|
  {
    if |input| < 10 then Short
    else if input[0] != 0x1f || input[1] != 0x8b then Bad
    else if input[2] != CM_DEFLATE then Bad
    else
      var flags := input[3];
      if Bit(flags, 5) || Bit(flags, 6) || Bit(flags, 7) then Bad
      else match SkipExtra(input, Bit(flags, 2), 10)
        case None => Short
        case Some(afterExtra) =>
          match SkipString(input, Bit(flags, 3), afterExtra)
          case None => Short
          case Some(afterName) =>
            match SkipString(input, Bit(flags, 4), afterName)
            case None => Short
            case Some(afterComment) =>
              match SkipCheck(input, Bit(flags, 1), afterComment)
              case None => Short
              case Some(end) => Parsed(end)
  }

  /** The same for those who have all the bytes: a header that is cut off is none. */
  function HeaderLength(input: seq<u8>): Option<nat> {
    match ParseHeader(input)
    case Parsed(n) => Some(n)
    case _ => None
  }

  lemma {:induction false} ZStringStays(input: seq<u8>, more: seq<u8>, pos: nat)
    ensures SkipZString(input, pos).Some? ==> SkipZString(input + more, pos) == SkipZString(input, pos)
    decreases |input| - pos
  {
    if pos < |input| && input[pos] != 0 { ZStringStays(input, more, pos + 1); }
  }

  lemma StringStays(input: seq<u8>, more: seq<u8>, present: bool, pos: nat)
    ensures SkipString(input, present, pos).Some? ==>
      SkipString(input + more, present, pos) == SkipString(input, present, pos)
  {
    ZStringStays(input, more, pos);
  }

  /** Once the header is parsed or refused, more bytes change nothing. */
  lemma HeaderStays(input: seq<u8>, more: seq<u8>)
    ensures ParseHeader(input) != Short ==> ParseHeader(input + more) == ParseHeader(input)
  {
    hide Bit, SkipString;
    if |input| >= 10 {
      var all := input + more;
      assert all[0] == input[0] && all[1] == input[1] && all[2] == input[2] && all[3] == input[3];
      var flags := input[3];
      var a := SkipExtra(input, Bit(flags, 2), 10);
      if a.Some? {
        assert SkipExtra(all, Bit(flags, 2), 10) == a;
        StringStays(input, more, Bit(flags, 3), a.value);
        var b := SkipString(input, Bit(flags, 3), a.value);
        if b.Some? { StringStays(input, more, Bit(flags, 4), b.value); }
      }
    }
  }

  // More bytes

  function Zeros(n: nat): (z: seq<u8>)
    ensures |z| == n && forall i | 0 <= i < n :: z[i] == 0
  {
    seq(n, _ => 0)
  }

  /** A string ends at the first zero that is appended, if not before. */
  lemma {:induction false} ZStringEnds(input: seq<u8>, n: nat, pos: nat)
    requires pos < |input| + n && n > 0
    ensures var r := SkipZString(input + Zeros(n), pos);
      r.Some? && r.value <= (if pos < |input| then |input| else pos) + 1
    decreases |input| + n - pos
  {
    if pos < |input| && input[pos] != 0 { ZStringEnds(input, n, pos + 1); }
  }

  /** A header of ten bytes or more that is called short can go on to be a header. */
  lemma ShortCanGoOn(input: seq<u8>)
    requires |input| >= 10 && ParseHeader(input) == Short
    ensures ParseHeader(input + Zeros(0x2_0000)).Parsed?
  {
    hide Bit, SkipZString;
    var n := 0x2_0000;
    var all := input + Zeros(n);
    assert all[0] == input[0] && all[1] == input[1] && all[2] == input[2] && all[3] == input[3];
    var flags := input[3];
    ExtraEnds(all, |input|, Bit(flags, 2));
    var a := SkipExtra(all, Bit(flags, 2), 10).value;
    ZStringEnds(input, n, a);
    var b := SkipString(all, Bit(flags, 3), a).value;
    ZStringEnds(input, n, b);
  }

  lemma ExtraEnds(all: seq<u8>, m: nat, present: bool)
    requires m >= 10 && |all| >= m + 0x2_0000
    ensures var r := SkipExtra(all, present, 10); r.Some? && 10 <= r.value <= 12 + 0xFFFF
  {
  }

  // The layout

  /** A header's fields: the text flag, the six bytes of time, extra flags and system, and what the other
      flags announce. */
  datatype Fields = Fields(text: bool, fixed: seq<u8>, extra: Option<seq<u8>>, name: Option<seq<u8>>,
                           comment: Option<seq<u8>>, check: Option<seq<u8>>)

  ghost predicate Proper(f: Fields) {
    && |f.fixed| == 6
    && (f.extra.Some? ==> |f.extra.value| < 0x1_0000)
    && (f.name.Some? ==> 0 !in f.name.value) && (f.comment.Some? ==> 0 !in f.comment.value)
    && (f.check.Some? ==> |f.check.value| == 2)
  }

  function FlagByte(f: Fields): u8 {
    var high: nat := BitVal(f.name.Some?) + 2 * BitVal(f.comment.Some?);
    BitVal(f.text) + 2 * (BitVal(f.check.Some?) + 2 * (BitVal(f.extra.Some?) + 2 * high))
  }

  function ExtraBytes(extra: Option<seq<u8>>): seq<u8>
    requires extra.Some? ==> |extra.value| < 0x1_0000
  {
    match extra
    case None => []
    case Some(x) => [|x| % 0x100, |x| / 0x100] + x
  }

  function StringBytes(s: Option<seq<u8>>): seq<u8> {
    match s
    case None => []
    case Some(x) => x + [0]
  }

  function CheckBytes(c: Option<seq<u8>>): seq<u8> {
    match c
    case None => []
    case Some(x) => x
  }

  ghost function Layout(f: Fields): seq<u8>
    requires Proper(f)
  {
    [0x1f, 0x8b, 8, FlagByte(f)] + f.fixed + ExtraBytes(f.extra) + StringBytes(f.name)
    + StringBytes(f.comment) + CheckBytes(f.check)
  }

  lemma FlagBits(f: Fields)
    ensures var b := FlagByte(f);
      && (Bit(b, 1) <==> f.check.Some?) && (Bit(b, 2) <==> f.extra.Some?) && (Bit(b, 3) <==> f.name.Some?)
      && (Bit(b, 4) <==> f.comment.Some?) && !Bit(b, 5) && !Bit(b, 6) && !Bit(b, 7)
  {
    hide Bit;
    var m := BitVal(f.comment.Some?);
    var n := BitVal(f.name.Some?) + 2 * m;
    var x := BitVal(f.extra.Some?) + 2 * n;
    var c := BitVal(f.check.Some?) + 2 * x;
    forall i: nat | i > 0
      ensures Bit(FlagByte(f), i) == Bit(c, i - 1)
    {
      BitCons(f.text, c, i);
    }
    BitCons(f.check.Some?, x, 0);
    forall i: nat | i > 0 ensures Bit(c, i) == Bit(x, i - 1) { BitCons(f.check.Some?, x, i); }
    BitCons(f.extra.Some?, n, 0);
    forall i: nat | i > 0 ensures Bit(x, i) == Bit(n, i - 1) { BitCons(f.extra.Some?, n, i); }
    BitCons(f.name.Some?, m, 0);
    forall i: nat | i > 0 ensures Bit(n, i) == Bit(m, i - 1) { BitCons(f.name.Some?, m, i); }
    BitCons(f.comment.Some?, 0, 0);
    forall i: nat | i > 0 ensures !Bit(m, i) {
      BitCons(f.comment.Some?, 0, i);
      BitZero(i - 1);
    }
  }

  lemma BitCons(low: bool, high: nat, i: nat)
    ensures Bit(BitVal(low) + 2 * high, i) == if i == 0 then low else Bit(high, i - 1)
  {
    assert (BitVal(low) + 2 * high) / 2 == high;
  }

  lemma {:induction false} StringSkips(input: seq<u8>, pos: nat, s: seq<u8>)
    requires pos + |s| < |input| && input[pos..pos + |s|] == s && 0 !in s && input[pos + |s|] == 0
    ensures SkipZString(input, pos) == Some(pos + |s| + 1)
    decreases |s|
  {
    if s != [] {
      assert input[pos] == input[pos..pos + |s|][0] == s[0];
      assert input[pos + 1..pos + 1 + |s[1..]|] == input[pos..pos + |s|][1..] == s[1..];
      StringSkips(input, pos + 1, s[1..]);
    }
  }

  lemma PartSkips(input: seq<u8>, pos: nat, s: Option<seq<u8>>)
    requires pos + |StringBytes(s)| <= |input| && input[pos..pos + |StringBytes(s)|] == StringBytes(s)
    requires s.Some? ==> 0 !in s.value
    ensures SkipString(input, s.Some?, pos) == Some(pos + |StringBytes(s)|)
  {
    if s.Some? {
      var all, n := StringBytes(s), |s.value|;
      assert input[pos..pos + n] == input[pos..pos + |all|][..n] == s.value;
      assert input[pos + n] == input[pos..pos + |all|][n];
      StringSkips(input, pos, s.value);
    }
  }

  lemma ExtraSkips(input: seq<u8>, pos: nat, extra: Option<seq<u8>>)
    requires extra.Some? ==> |extra.value| < 0x1_0000
    requires pos + |ExtraBytes(extra)| <= |input| && input[pos..pos + |ExtraBytes(extra)|] == ExtraBytes(extra)
    ensures SkipExtra(input, extra.Some?, pos) == Some(pos + |ExtraBytes(extra)|)
  {
    if extra.Some? {
      var all := ExtraBytes(extra);
      assert input[pos] == input[pos..pos + |all|][0] && input[pos + 1] == input[pos..pos + |all|][1];
    }
  }

  /** A header laid out from its fields is parsed to its very end, whatever follows. */
  lemma LayoutParses(f: Fields, more: seq<u8>)
    requires Proper(f)
    ensures ParseHeader(Layout(f) + more) == Parsed(|Layout(f)|)
  {
    hide Bit, SkipString, SkipExtra, SkipCheck, StringBytes, ExtraBytes, CheckBytes, FlagByte;
    var a, b, c, d := ExtraBytes(f.extra), StringBytes(f.name), StringBytes(f.comment), CheckBytes(f.check);
    var input := Layout(f) + more;
    FlagBits(f);
    PartsApart([0x1f, 0x8b, 8, FlagByte(f)], f.fixed, a, b, c, d, more);
    ExtraSkips(input, 10, f.extra);
    PartSkips(input, 10 + |a|, f.name);
    PartSkips(input, 10 + |a| + |b|, f.comment);
    CheckSkips(input, 10 + |a| + |b| + |c|, f.check);
  }

  /** Where the parts of a header lie in the bytes. */
  lemma PartsApart(first: seq<u8>, fixed: seq<u8>, a: seq<u8>, b: seq<u8>, c: seq<u8>, d: seq<u8>, more: seq<u8>)
    requires |first| == 4 && |fixed| == 6
    ensures var input := first + fixed + a + b + c + d + more;
      && |input| == 10 + |a| + |b| + |c| + |d| + |more|
      && input[0] == first[0] && input[1] == first[1] && input[2] == first[2] && input[3] == first[3]
      && input[10..10 + |a|] == a
      && input[10 + |a|..10 + |a| + |b|] == b
      && input[10 + |a| + |b|..10 + |a| + |b| + |c|] == c
  {
  }

  lemma CheckSkips(input: seq<u8>, pos: nat, check: Option<seq<u8>>)
    requires check.Some? ==> |check.value| == 2
    requires pos + |CheckBytes(check)| <= |input|
    ensures SkipCheck(input, check.Some?, pos) == Some(pos + |CheckBytes(check)|)
  {
  }

  /** A byte without its upper three bits is the sum of the others. */
  lemma LowFlags(b: u8)
    requires !Bit(b, 5) && !Bit(b, 6) && !Bit(b, 7)
    ensures b == BitVal(Bit(b, 0)) + 2 * BitVal(Bit(b, 1)) + 4 * BitVal(Bit(b, 2)) + 8 * BitVal(Bit(b, 3))
                 + 16 * BitVal(Bit(b, 4))
  {
    hide Bit, Low, Shl;
    FlagTop(b, 0);
    FlagTop(b, 1);
    FlagTop(b, 2);
    FlagTop(b, 3);
    FlagTop(b, 4);
    FlagTop(b, 5);
    FlagTop(b, 6);
    FlagTop(b, 7);
    assert Pow2(2) == 4 && Pow2(3) == 8 && Pow2(4) == 16 && Pow2(6) == 64 && Pow2(8) == 256;
    LowSmall(b, 8);
    LowNone(b);
  }

  lemma LowNone(b: nat)
    ensures Low(b, 0) == 0
  {
  }

  lemma FlagTop(b: nat, n: nat)
    ensures Low(b, n + 1) == Low(b, n) + (if Bit(b, n) then Pow2(n) else 0)
  {
    LowTop(b, n);
    ShlOne(n);
  }

  lemma SkippedString(input: seq<u8>, present: bool, pos: nat) returns (s: Option<seq<u8>>)
    requires pos <= |input| && SkipString(input, present, pos).Some?
    ensures s.Some? == present && (present ==> 0 !in s.value)
    ensures input[pos..SkipString(input, present, pos).value] == StringBytes(s)
  {
    s := None;
    if present {
      var end := SkipZString(input, pos).value;
      s := Some(input[pos..end - 1]);
      assert input[pos..end] == input[pos..end - 1] + [input[end - 1]];
    }
  }

  lemma SkippedExtra(input: seq<u8>, present: bool, pos: nat) returns (x: Option<seq<u8>>)
    requires pos <= |input| && SkipExtra(input, present, pos).Some?
    ensures x.Some? == present && (present ==> |x.value| < 0x1_0000)
    ensures input[pos..SkipExtra(input, present, pos).value] == ExtraBytes(x)
  {
    x := None;
    if present {
      var end := SkipExtra(input, true, pos).value;
      var low: int, high: int := input[pos], input[pos + 1];
      x := Some(input[pos + 2..end]);
      assert |x.value| == low + 0x100 * high;
      assert input[pos..end] == [input[pos], input[pos + 1]] + input[pos + 2..end];
    }
  }

  lemma SkippedCheck(input: seq<u8>, present: bool, pos: nat) returns (c: Option<seq<u8>>)
    requires pos <= |input| && SkipCheck(input, present, pos).Some?
    ensures c.Some? == present && (present ==> |c.value| == 2)
    ensures input[pos..SkipCheck(input, present, pos).value] == CheckBytes(c)
  {
    c := if present then Some(input[pos..pos + 2]) else None;
  }

  /** And what is parsed is the layout of some fields. */
  lemma ParsedIsLayout(input: seq<u8>) returns (f: Fields)
    requires ParseHeader(input).Parsed?
    ensures Proper(f) && Layout(f) == input[..ParseHeader(input).len]
  {
    hide Bit, SkipString, SkipExtra, SkipCheck, StringBytes, ExtraBytes, CheckBytes;
    var flags := input[3];
    var a := SkipExtra(input, Bit(flags, 2), 10).value;
    var b := SkipString(input, Bit(flags, 3), a).value;
    var c := SkipString(input, Bit(flags, 4), b).value;
    var d := SkipCheck(input, Bit(flags, 1), c).value;
    var extra := SkippedExtra(input, Bit(flags, 2), 10);
    var name := SkippedString(input, Bit(flags, 3), a);
    var comment := SkippedString(input, Bit(flags, 4), b);
    var check := SkippedCheck(input, Bit(flags, 1), c);
    f := Fields(Bit(flags, 0), input[4..10], extra, name, comment, check);
    LowFlags(flags);
    assert input[..10] == [input[0], input[1], input[2], input[3]] + input[4..10];
    Joined(input, 10, a);
    Joined(input, a, b);
    Joined(input, b, c);
    Joined(input, c, d);
  }

  lemma Joined(input: seq<u8>, a: nat, b: nat)
    requires a <= b <= |input|
    ensures input[..a] + input[a..b] == input[..b]
  {
  }
}
