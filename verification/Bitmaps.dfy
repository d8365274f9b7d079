/** lib/kernel/bitmap.c: a bit array packed in bytes, with first-fit search.
    `Bitmap` is the packed object; `FirstRun` is what its search means on plain
    sequences of bits, which is how the other modules see their bitmaps. */
module Bitmaps {

  /** `cnt` consecutive clear bits start at `start`, all inside `b`. */
  predicate ClearRun(b: seq<bool>, start: nat, cnt: nat) {
    && start + cnt <= |b|
    && forall k :: start <= k < start + cnt ==> !b[k]
  }

  /** The least start, from `from` on, of `cnt` consecutive clear bits; -1 when there is none. */
  function FirstRun(b: seq<bool>, cnt: nat, from: nat := 0): (r: int)
    requires 1 <= cnt
    ensures r == -1 || from <= r
    ensures 0 <= r ==> ClearRun(b, r, cnt)
    ensures forall j: nat :: from <= j && ClearRun(b, j, cnt) ==> 0 <= r <= j
    decreases |b| - from
  {
    if from + cnt > |b| then -1
    else if ClearRun(b, from, cnt) then from
    else FirstRun(b, cnt, from + 1)
  }

  /** A run found first-fit is characterised by being clear and least. */
  lemma FirstRunIs(b: seq<bool>, cnt: nat, r: nat)
    requires 1 <= cnt
    requires ClearRun(b, r, cnt)
    requires forall j: nat :: j < r ==> !ClearRun(b, j, cnt)
    ensures FirstRun(b, cnt) == r
  {
  }

  /** Bits [start, start + cnt) of `b` overwritten with `v`. */
  function SetRange(b: seq<bool>, start: nat, cnt: nat, v: bool): (r: seq<bool>)
    requires start + cnt <= |b|
    ensures |r| == |b|
    ensures forall k :: 0 <= k < |b| ==> r[k] == if start <= k < start + cnt then v else b[k]
  {
    seq(|b|, k requires 0 <= k < |b| => if start <= k < start + cnt then v else b[k])
  }

  /** How many bits are clear. */
  function Free(b: seq<bool>): nat {
    if b == [] then 0 else Free(b[..|b| - 1]) + if b[|b| - 1] then 0 else 1
  }

  lemma {:induction false} FreeTaken(b: seq<bool>, k: nat, value: bool)
    requires k < |b| && b[k] != value
    ensures Free(b[k := value]) == Free(b) + if value then -1 else 1
  {
    var w, n := b[k := value], |b| - 1;
    if k == n {
      assert w[..n] == b[..n];
    } else {
      assert w[..n] == b[..n][k := value];
      FreeTaken(b[..n], k, value);
    }
  }

  lemma {:induction false} FreeZero(b: seq<bool>)
    ensures Free(b) == 0 <==> forall k :: 0 <= k < |b| ==> b[k]
  {
    if b != [] {
      var n := |b| - 1;
      FreeZero(b[..n]);
      assert forall k :: 0 <= k < n ==> b[..n][k] == b[k];
    }
  }

  /** BITMAP_MASK << odd, for odd < 8. */
  function Mask(odd: nat): bv8
    requires odd < 8
  {
    match odd
    case 0 => 1
    case 1 => 2
    case 2 => 4
    case 3 => 8
    case 4 => 16
    case 5 => 32
    case 6 => 64
    case _ => 128
  }

  predicate TestBit(byte: bv8, odd: nat)
    requires odd < 8
  {
    byte & Mask(odd) != 0
  }

  /** `byte` with bit `odd` forced to `value`, as the two masking statements do it. */
  function WithBit(byte: bv8, odd: nat, value: bool): bv8
    requires odd < 8
  {
    if value then byte | Mask(odd) else byte & !Mask(odd)
  }

  lemma WithBitTest(byte: bv8, odd: nat, value: bool, other: nat)
    requires odd < 8 && other < 8
    ensures TestBit(WithBit(byte, odd, value), other) == if other == odd then value else TestBit(byte, other)
  {
    var m, n := Mask(odd), Mask(other);
    MasksDiffer(odd, other);
    if odd == other {
      OrSelf(byte, m);
      AndSelf(byte, m);
    } else {
      OrOther(byte, m, n);
      AndOther(byte, m, n);
    }
  }

  lemma MasksDiffer(odd: nat, other: nat)
    requires odd < 8 && other < 8
    ensures Mask(odd) != 0
    ensures odd != other ==> Mask(odd) & Mask(other) == 0
  {
  }

  lemma OrSelf(x: bv8, m: bv8)
    requires m != 0
    ensures (x | m) & m != 0
  {
    assert (x | m) & m == m;
  }

  lemma AndSelf(x: bv8, m: bv8)
    ensures (x & !m) & m == 0
  {
  }

  lemma OrOther(x: bv8, m: bv8, n: bv8)
    requires m & n == 0
    ensures (x | m) & n == x & n
  {
  }

  lemma AndOther(x: bv8, m: bv8, n: bv8)
    requires m & n == 0
    ensures (x & !m) & n == x & n
  {
  }

  class Bitmap {
    const len: nat            // btmp_bytes_len
    const bits: array<bv8>

    /** The search tests a bit before it compares the index with the length, so
        one byte after the map has to be readable; what it holds is arbitrary. */
    ghost predicate Valid() {
      len < bits.Length
    }

    ghost function View(): (s: seq<bool>)
      requires Valid()
      reads bits
      ensures |s| == 8 * len
    {
      seq(8 * len, i requires 0 <= i < 8 * len reads bits => TestBit(bits[i / 8], i % 8))
    }

    constructor (length: nat, memory: array<bv8>)
      requires length < memory.Length
      ensures Valid() && len == length && bits == memory
    {
      len, bits := length, memory;
    }

    method Init()
      requires Valid()
      modifies bits
      ensures forall i :: 0 <= i < 8 * len ==> !View()[i]
      ensures forall k :: len <= k < bits.Length ==> bits[k] == old(bits[k])
    {
      for k := 0 to len
        invariant forall j :: 0 <= j < k ==> bits[j] == 0
        invariant forall j :: len <= j < bits.Length ==> bits[j] == old(bits[j])
      {
        bits[k] := 0;
      }
      assert forall odd | 0 <= odd < 8 :: !TestBit(0, odd);
    }

    predicate ScanTest(bitIdx: nat)
      requires bitIdx < 8 * bits.Length
      reads bits
    {
      TestBit(bits[bitIdx / 8], bitIdx % 8)
    }

    /** First fit. The search skips past the bit that blocks a run instead of
        retrying from the next start; a request for 0 bits never succeeds. */
    method Scan(cnt: nat) returns (r: int)
      requires Valid()
      ensures cnt >= 1 ==> r == FirstRun(View(), cnt)
      ensures cnt == 0 ==> r == -1
    {
      var areaStart := 0;
      while true
        invariant areaStart <= 8 * len + 1
        invariant cnt >= 1 ==> areaStart <= 8 * len
        invariant cnt >= 1 ==> forall j: nat :: j < areaStart ==> !ClearRun(View(), j, cnt)
        decreases 8 * len + 2 - areaStart
      {
        while ScanTest(areaStart) && areaStart / 8 < len
          invariant areaStart <= 8 * len + 1
          invariant cnt >= 1 ==> areaStart <= 8 * len
          invariant cnt >= 1 ==> forall j: nat :: j < areaStart ==> !ClearRun(View(), j, cnt)
          decreases 8 * len + 2 - areaStart
        {
          assert View()[areaStart];
          areaStart := areaStart + 1;
        }
        if areaStart / 8 >= len {
          return -1;
        }
        assert !View()[areaStart];
        var areaSize := 1;
        while areaSize < cnt
          invariant 1 <= areaSize
          invariant cnt >= 1 ==> areaSize <= cnt && ClearRun(View(), areaStart, areaSize)
          invariant cnt == 0 ==> areaSize == 1
        {
          if (areaStart + areaSize) / 8 < len {
            if !ScanTest(areaStart + areaSize) {
              assert !View()[areaStart + areaSize];
              areaSize := areaSize + 1;
            } else {
              assert View()[areaStart + areaSize];
              break;
            }
          } else {
            return -1;
          }
        }
        if areaSize == cnt {
          FirstRunIs(View(), cnt, areaStart);
          return areaStart;
        }
        areaStart := areaStart + areaSize + 1;
      }
    }

    method Set(bitIdx: nat, value: bool)
      requires Valid() && bitIdx < 8 * len
      modifies bits
      ensures View() == old(View())[bitIdx := value]
      ensures forall k :: len <= k < bits.Length ==> bits[k] == old(bits[k])
    {
      var byteIdx, bitOdd := bitIdx / 8, bitIdx % 8;
      ghost var was := bits[..];
      bits[byteIdx] := WithBit(bits[byteIdx], bitOdd, value);
      forall i | 0 <= i < 8 * len
        ensures TestBit(bits[i / 8], i % 8) == if i == bitIdx then value else TestBit(was[i / 8], i % 8)
      {
        if i / 8 == byteIdx {
          WithBitTest(was[byteIdx], bitOdd, value, i % 8);
        }
      }
    }
  }
}
