/** `String::from_utf8_lossy`, which every parser applies to the four bytes of a box type. A string is its UTF-8
    encoding; ill-formed parts become the replacement character (section 3.9 of the Unicode Standard, substitution of
    maximal subparts). */
module Utf8 {
  import opened Bytes

  const REPLACEMENT: bytes := [0xEF, 0xBF, 0xBD]

  predicate Within(s: bytes, i: nat, lo: nat, hi: nat) {
    i < |s| && lo <= s[i] <= hi
  }

  /** Table 3-7 of the Unicode Standard: what may follow the first byte of a character. */
  predicate SecondOk(s: bytes)
    requires s != []
  {
    var b := s[0];
    if 0xC2 <= b <= 0xDF then Within(s, 1, 0x80, 0xBF)
    else if b == 0xE0 then Within(s, 1, 0xA0, 0xBF)
    else if b == 0xED then Within(s, 1, 0x80, 0x9F)
    else if 0xE1 <= b <= 0xEF then Within(s, 1, 0x80, 0xBF)
    else if b == 0xF0 then Within(s, 1, 0x90, 0xBF)
    else if 0xF1 <= b <= 0xF3 then Within(s, 1, 0x80, 0xBF)
    else b == 0xF4 && Within(s, 1, 0x80, 0x8F)
  }

  /** The width a first byte announces, or 0. */
  function Width(b: byte): nat {
    if b < 0x80 then 1
    else if 0xC2 <= b <= 0xDF then 2
    else if 0xE0 <= b <= 0xEF then 3
    else if 0xF0 <= b <= 0xF4 then 4
    else 0
  }

  /** How many bytes of a character stand at the front, at least the first. */
  function Subpart(s: bytes): (n: nat)
    requires s != []
    ensures 1 <= n <= |s|
  {
    var w := Width(s[0]);
    if w < 2 || !SecondOk(s) then 1
    else if w < 3 || !Within(s, 2, 0x80, 0xBF) then 2
    else if w < 4 || !Within(s, 3, 0x80, 0xBF) then 3
    else 4
  }

  /** A whole character stands at the front. */
  predicate Whole(s: bytes) {
    s != [] && Subpart(s) == Width(s[0])
  }

  predicate ValidUtf8(s: bytes) {
    s == [] || (Whole(s) && ValidUtf8(s[Subpart(s)..]))
  }

  function Lossy(s: bytes): bytes {
    if s == [] then [] else
      (if Whole(s) then s[..Subpart(s)] else REPLACEMENT) + Lossy(s[Subpart(s)..])
  }

  lemma {:induction false} ReplacementIsWhole(s: bytes)
    ensures |s| >= 3 && s[0] == 0xEF && s[1] == 0xBF && s[2] == 0xBD ==> Whole(s)
  {
  }

  /** A string that was well formed stays, and no other does. */
  lemma {:induction false} LossyKeepsIff(s: bytes)
    ensures Lossy(s) == s <==> ValidUtf8(s)
  {
    if s != [] {
      var n := Subpart(s);
      var head, tail := if Whole(s) then s[..n] else REPLACEMENT, Lossy(s[n..]);
      LossyKeepsIff(s[n..]);
      assert s == s[..n] + s[n..];
      if Whole(s) {
        if Lossy(s) == s {
          assert Lossy(s)[n..] == tail && s[n..] == tail;
        }
      } else {
        var r := Lossy(s);
        assert r[0] == 0xEF && r[1] == 0xBF && r[2] == 0xBD;
        ReplacementIsWhole(s);
      }
    }
  }

  lemma {:induction false} LossyGrows(s: bytes)
    ensures |Lossy(s)| >= |s|
  {
    if s != [] {
      LossyGrows(s[Subpart(s)..]);
    }
  }

  predicate Ascii(s: bytes) {
    forall i :: 0 <= i < |s| ==> s[i] < 0x80
  }

  /** Comparing the decoded type with an ASCII name is comparing the bytes. */
  lemma {:induction false} AsciiTest(s: bytes, name: bytes)
    requires Ascii(name)
    ensures Lossy(s) == name <==> s == name
    decreases |s|
  {
    if s != [] {
      var n := Subpart(s);
      assert s == s[..n] + s[n..];
      if name == [] {
        LossyGrows(s);
      } else if s[0] < 0x80 {
        assert n == 1 && Whole(s) && s[..1] == [s[0]];
        AsciiTest(s[1..], name[1..]);
        assert name == [name[0]] + name[1..];
        assert Lossy(s) == [s[0]] + Lossy(s[1..]);
        assert Lossy(s)[1..] == Lossy(s[1..]);
      } else {
        assert Lossy(s)[0] >= 0x80;
      }
    }
  }
}
