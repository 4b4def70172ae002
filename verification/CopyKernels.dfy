/** The back-copy kernels over a buffer with a write cursor: wide chunks that may overshoot, a
    broadcast, an overlapping tail store, and element by element. All of them append the same copy. */
module CopyKernels {
  import opened Lz77

  /** The copy equation, read off the buffer. */
  lemma FromEquation<T>(before: seq<T>, after: seq<T>, cur: nat, distance: nat, length: nat)
    requires 0 < distance <= cur <= |before| && cur + length <= |after|
    requires forall j | 0 <= j < cur :: after[j] == before[j]
    requires forall j | cur <= j < cur + length :: after[j] == after[j - distance]
    ensures after[..cur + length] == CopyBack(before[..cur], distance, length)
  {
    var r := after[..cur + length];
    assert r[..cur] == before[..cur];
    CopyBackUnique(before[..cur], distance, length, r);
  }

  /** Disjoint source and target: chunks of `width` elements, each read whole before it is written. The
      last one may overshoot by `width - 1`. */
  method CopyChunked<T>(a: array<T>, cur: nat, distance: nat, length: nat, width: nat)
    requires 0 < length <= distance <= cur && width > 0
    requires cur + length + width - 1 <= a.Length
    modifies a
    ensures a[..cur + length] == CopyBack(old(a[..cur]), distance, length)
    ensures forall j | cur + length + width - 1 <= j < a.Length :: a[j] == old(a[j])
  {
    var d := cur;
    while d < cur + length
      invariant cur <= d < cur + length + width
      invariant forall j | 0 <= j < cur :: a[j] == old(a[j])
      invariant forall j | cur <= j < d && j < cur + length :: a[j] == old(a[j - distance])
      invariant forall j | cur + length + width - 1 <= j < a.Length :: a[j] == old(a[j])
    {
      WriteRun(a, d, a[d - distance..d - distance + width]);
      d := d + width;
    }
    FromEquation(old(a[..]), a[..], cur, distance, length);
  }

  /** One wide store. */
  method WriteRun<T>(a: array<T>, d: nat, chunk: seq<T>)
    requires d + |chunk| <= a.Length
    modifies a
    ensures forall j | 0 <= j < a.Length :: a[j] == if d <= j < d + |chunk| then chunk[j - d] else old(a[j])
  {
    forall j | d <= j < d + |chunk| {
      a[j] := chunk[j - d];
    }
  }

  /** Distance one: broadcast the element, eight at a time while they fit. */
  method Broadcast<T>(a: array<T>, cur: nat, length: nat)
    requires 0 < cur && cur + length <= a.Length
    modifies a
    ensures a[..cur + length] == CopyBack(old(a[..cur]), 1, length)
    ensures forall j | cur + length <= j < a.Length :: a[j] == old(a[j])
  {
    var b := a[cur - 1];
    var d, n := cur, length;
    while n >= 8
      invariant cur <= d && 0 <= n && d + n == cur + length
      invariant forall j | 0 <= j < cur || cur + length <= j < a.Length :: a[j] == old(a[j])
      invariant forall j | cur <= j < d :: a[j] == b
    {
      WriteRun(a, d, seq(8, _ => b));
      d, n := d + 8, n - 8;
    }
    while n > 0
      invariant cur <= d && 0 <= n && d + n == cur + length
      invariant forall j | 0 <= j < cur || cur + length <= j < a.Length :: a[j] == old(a[j])
      invariant forall j | cur <= j < d :: a[j] == b
    {
      a[d] := b;
      d, n := d + 1, n - 1;
    }
    FromEquation(old(a[..]), a[..], cur, 1, length);
  }

  /** Element by element, for every overlap. */
  method CopyElements<T>(a: array<T>, cur: nat, distance: nat, length: nat)
    requires 0 < distance <= cur && cur + length <= a.Length
    modifies a
    ensures a[..cur + length] == CopyBack(old(a[..cur]), distance, length)
    ensures forall j | cur + length <= j < a.Length :: a[j] == old(a[j])
  {
    var i := 0;
    while i < length
      invariant 0 <= i <= length
      invariant forall j | 0 <= j < cur || cur + length <= j < a.Length :: a[j] == old(a[j])
      invariant forall j | cur <= j < cur + i :: a[j] == a[j - distance]
    {
      a[cur + i] := a[cur - distance + i];
      i := i + 1;
    }
    FromEquation(old(a[..]), a[..], cur, distance, length);
  }

  /** `copy_back_raw` and `copy_back_u16`: the branch by distance. */
  method CopyBackRaw<T>(a: array<T>, cur: nat, distance: nat, length: nat, width: nat)
    requires 0 < length && 0 < distance <= cur && width > 0
    requires cur + length + width - 1 <= a.Length
    modifies a
    ensures a[..cur + length] == CopyBack(old(a[..cur]), distance, length)
    ensures forall j | cur + length + width - 1 <= j < a.Length :: a[j] == old(a[j])
  {
    if distance >= length {
      CopyChunked(a, cur, distance, length, width);
    } else if distance == 1 {
      Broadcast(a, cur, length);
    } else {
      CopyElements(a, cur, distance, length);
    }
  }

  /** `copy_back` of deflate/inflate.rs: whole words of eight, then one store of the last eight that
      overlaps what is already there. Nothing beyond the copy is touched. */
  method CopyWithTailStore<T>(a: array<T>, cur: nat, distance: nat, length: nat)
    requires 0 < distance <= cur && cur + length <= a.Length
    modifies a
    ensures a[..cur + length] == CopyBack(old(a[..cur]), distance, length)
    ensures forall j | cur + length <= j < a.Length :: a[j] == old(a[j])
  {
    if distance < length && distance == 1 {
      Broadcast(a, cur, length);
    } else if distance < length || length < 8 {
      CopyElements(a, cur, distance, length);
    } else {
      var d, n := cur, length;
      while n >= 8
        invariant cur <= d && 0 <= n && d + n == cur + length
        invariant forall j | 0 <= j < cur || cur + length <= j < a.Length :: a[j] == old(a[j])
        invariant forall j | cur <= j < d :: a[j] == old(a[j - distance])
      {
        WriteRun(a, d, a[d - distance..d - distance + 8]);
        d, n := d + 8, n - 8;
      }
      if n > 0 {
        var last := cur + length - 8;
        WriteRun(a, last, a[last - distance..last - distance + 8]);
      }
      FromEquation(old(a[..]), a[..], cur, distance, length);
    }
  }

  /** `copy_back` of deflate/safe_inflate.rs on a growing vector. */
  method CopyBackSafe<T>(out0: seq<T>, distance: nat, length: nat) returns (out: seq<T>)
    requires 0 < distance <= |out0|
    ensures out == CopyBack(out0, distance, length)
  {
    var cur := |out0|;
    var start := cur - distance;
    out := out0;
    if distance >= length {
      out := out + out0[start..start + length];
    } else if distance == 1 {
      out := out + seq(length, _ => out0[start]);
    } else {
      var i := 0;
      while i < length
        invariant 0 <= i <= length && |out| == cur + i
        invariant forall j | 0 <= j < cur :: out[j] == out0[j]
        invariant forall j | cur <= j < cur + i :: out[j] == out[j - distance]
      {
        out := out + [out[start + i]];
        i := i + 1;
      }
    }
    FromEquation(out0, out, cur, distance, length);
    assert out[..cur + length] == out && out0[..cur] == out0;
  }
}
