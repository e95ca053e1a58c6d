/** Bytes, fixed-width integers and the big-endian codec every other module builds on.

    Integer overflow follows the release build of the original: additions and casts wrap. */
module Bytes {
  type byte = b: int | 0 <= b < 256
  type bytes = seq<byte>

  const TWO32: nat := 0x1_0000_0000
  const TWO64: nat := 0x1_0000_0000_0000_0000

  type u32 = n: int | 0 <= n < 0x1_0000_0000
  type u64 = n: int | 0 <= n < 0x1_0000_0000_0000_0000
  type i32 = n: int | -0x8000_0000 <= n < 0x8000_0000

  /** `n as u32`, and the result of wrapping 32-bit arithmetic. */
  function Wrap32(n: int): u32 { n % 0x1_0000_0000 }

  function Wrap64(n: int): u64 { n % 0x1_0000_0000_0000_0000 }

  lemma {:induction false} NoWrap64(n: nat)
    requires n < TWO64
    ensures Wrap64(n) == n
  {
  }

  lemma {:induction false} NoWrap32(n: nat)
    requires n < TWO32
    ensures Wrap32(n) == n
  {
  }

  /** Wrapping early or late makes no difference to a sum. */
  lemma {:induction false} WrapAdd64(a: int, b: int)
    ensures Wrap64(Wrap64(a) + b) == Wrap64(a + b)
  {
    var q := a / 0x1_0000_0000_0000_0000;
    assert a + b == q * 0x1_0000_0000_0000_0000 + (Wrap64(a) + b);
  }

  /** A difference wraps once below zero, a sum of two words once above. */
  lemma {:induction false} WrapBack64(a: u64, b: u64)
    ensures Wrap64(a - b) == if a >= b then a - b else a - b + TWO64
  {
  }

  lemma {:induction false} WrapOnce64(a: u64, b: u64)
    ensures Wrap64(a + b) == if a + b < TWO64 then a + b else a + b - TWO64
  {
  }

  lemma {:induction false} WrapAdd32(a: int, b: int)
    ensures Wrap32(Wrap32(a) + b) == Wrap32(a + b)
  {
    var q := a / 0x1_0000_0000;
    assert a + b == q * 0x1_0000_0000 + (Wrap32(a) + b);
  }

  /** The same for `n` items of `k` bytes behind `c` others. */
  lemma {:induction false} WrapItems32(c: nat, n: nat, k: nat)
    ensures Wrap32(c + Wrap32(n) * k) == Wrap32(c + n * k)
  {
    var q, r := n / 0x1_0000_0000, Wrap32(n);
    assert n == q * 0x1_0000_0000 + r;
    assert n * k == (q * k) * 0x1_0000_0000 + r * k by {
      assert (q * 0x1_0000_0000 + r) * k == (q * 0x1_0000_0000) * k + r * k;
      assert (q * 0x1_0000_0000) * k == (q * k) * 0x1_0000_0000;
    }
    AddsWords(c + r * k, q * k);
  }

  lemma {:induction false} AddsWords(a: int, q: int)
    ensures Wrap32(a + q * 0x1_0000_0000) == Wrap32(a)
  {
    var d := a / 0x1_0000_0000;
    assert a + q * 0x1_0000_0000 == (d + q) * 0x1_0000_0000 + Wrap32(a);
  }

  /** The bit pattern of a signed 32-bit number, and back. */
  function Unsigned(n: i32): u32 { if n < 0 then n + 0x1_0000_0000 else n }

  function Signed(n: u32): i32 { if n < 0x8000_0000 then n else n - 0x1_0000_0000 }

  /** The low `width` bytes of `n`, most significant first. */
  function BE(n: nat, width: nat): (s: bytes)
    ensures |s| == width
  {
    if width == 0 then [] else BE(n / 256, width - 1) + [n % 256]
  }

  function Value(s: bytes): nat {
    if s == [] then 0 else
      var last: int := s[|s| - 1];
      Value(s[..|s| - 1]) * 256 + last
  }

  function Pow256(width: nat): (p: nat)
    ensures p > 0
  {
    if width == 0 then 1 else 256 * Pow256(width - 1)
  }

  lemma {:induction false} ZeroValue(z: bytes)
    requires forall i :: 0 <= i < |z| ==> z[i] == 0
    ensures Value(z) == 0
  {
    if z != [] {
      ZeroValue(z[..|z| - 1]);
    }
  }

  lemma {:induction false} ValueBound(s: bytes)
    ensures Value(s) < Pow256(|s|)
  {
    if s != [] {
      ValueBound(s[..|s| - 1]);
    }
  }

  lemma {:induction false} Widths()
    ensures Pow256(4) == TWO32 && Pow256(8) == TWO64
  {
    assert Pow256(3) == 256 * Pow256(2);
    assert Pow256(5) == 256 * Pow256(4) && Pow256(7) == 256 * Pow256(6);
  }

  /** Reading what was printed gives the number modulo the width. */
  lemma {:induction false} ValuePrinted(n: nat, width: nat)
    requires n < Pow256(width)
    ensures Value(BE(n, width)) == n
  {
    if width != 0 {
      ValuePrinted(n / 256, width - 1);
      assert BE(n, width)[..width - 1] == BE(n / 256, width - 1);
    }
  }

  /** Printing what was read gives the bytes back. */
  lemma {:induction false} PrintedValue(s: bytes)
    ensures BE(Value(s), |s|) == s
  {
    if s != [] {
      PrintedValue(s[..|s| - 1]);
      assert s[..|s| - 1] + [s[|s| - 1]] == s;
    }
  }

  /** `(n as u32).to_be_bytes()` and `(n as u64).to_be_bytes()` */
  function BE32(n: int): (s: bytes)
    ensures |s| == 4
  {
    BE(Wrap32(n), 4)
  }

  function BE64(n: int): (s: bytes)
    ensures |s| == 8
  {
    BE(Wrap64(n), 8)
  }

  /** `u32::from_be_bytes` and `u64::from_be_bytes` of the bytes at `at`. */
  function Read32(s: bytes, at: nat): u32
    requires at + 4 <= |s|
  {
    ValueBound(s[at..at + 4]);
    Widths();
    Value(s[at..at + 4])
  }

  function Read64(s: bytes, at: nat): u64
    requires at + 8 <= |s|
  {
    ValueBound(s[at..at + 8]);
    Widths();
    Value(s[at..at + 8])
  }

  lemma {:induction false} Read32Printed(s: bytes, at: nat, n: int)
    requires at + 4 <= |s| && s[at..at + 4] == BE32(n)
    ensures Read32(s, at) == Wrap32(n)
  {
    Widths();
    ValuePrinted(Wrap32(n), 4);
  }

  lemma {:induction false} Read64Printed(s: bytes, at: nat, n: int)
    requires at + 8 <= |s| && s[at..at + 8] == BE64(n)
    ensures Read64(s, at) == Wrap64(n)
  {
    Widths();
    ValuePrinted(Wrap64(n), 8);
  }

  lemma {:induction false} PrintedRead32(s: bytes, at: nat)
    requires at + 4 <= |s|
    ensures BE32(Read32(s, at)) == s[at..at + 4]
  {
    hide BE, Value, Wrap32;
    PrintedValue(s[at..at + 4]);
    NoWrap32(Read32(s, at));
  }

  lemma {:induction false} Reassociate<T>(a: seq<T>, b: seq<T>, c: seq<T>)
    ensures a + (b + c) == (a + b) + c
  {
  }

  /** Taking a window of a window. */
  lemma {:induction false} SubWindow<T>(s: seq<T>, lo: nat, hi: nat, i: nat, j: nat)
    requires lo <= hi <= |s| && i <= j <= hi - lo
    ensures s[lo..hi][i..j] == s[lo + i..lo + j]
  {
    var a, b := s[lo..hi][i..j], s[lo + i..lo + j];
    assert forall k :: 0 <= k < |a| ==> a[k] == b[k];
  }

  lemma {:induction false} JoinWindow<T>(s: seq<T>, lo: nat, mid: nat, hi: nat)
    requires lo <= mid <= hi <= |s|
    ensures s[lo..hi] == s[lo..mid] + s[mid..hi]
  {
  }

  /** A window that holds a concatenation holds both parts. */
  lemma {:induction false} SplitWindow<T>(s: seq<T>, at: nat, a: seq<T>, b: seq<T>)
    requires at + |a| + |b| <= |s| && s[at..at + |a| + |b|] == a + b
    ensures s[at..at + |a|] == a && s[at + |a|..at + |a| + |b|] == b
  {
    SubWindow(s, at, at + |a| + |b|, 0, |a|);
    SubWindow(s, at, at + |a| + |b|, |a|, |a| + |b|);
    assert (a + b)[0..|a|] == a && (a + b)[|a|..|a| + |b|] == b;
  }

  lemma {:induction false} SameWindow<T>(s: seq<T>, i: nat, t: seq<T>, j: nat, n: nat, lo: nat, hi: nat)
    requires i + n <= |s| && j + n <= |t| && s[i..i + n] == t[j..j + n]
    requires lo <= hi <= n
    ensures s[i + lo..i + hi] == t[j + lo..j + hi]
  {
    SubWindow(s, i, i + n, lo, hi);
    SubWindow(t, j, j + n, lo, hi);
  }
}

/** How a call of the original can end: with a value, with an `Err`, or with a panic. */
module Outcomes {
  datatype Option<+T> = None | Some(value: T)

  datatype Outcome<+T> = Done(value: T) | Failed | Panicked
}
