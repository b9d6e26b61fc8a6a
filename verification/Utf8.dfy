/** How a byte string is recognised as UTF-8, byte by byte. */
module Utf8 {
  type Byte = bv8

  // ----- The recogniser, by bit patterns -----

  predicate IsLead(c: Byte) {
    0xC0 <= c && c < 0xF8
  }

  /** How many bytes the sequence with this lead byte has, the lead byte included. */
  function EncodedLength(c: Byte): (r: nat)
    requires IsLead(c)
    ensures 2 <= r <= 4
  {
    if c & 0xE0 == 0xC0 then 2 else if c & 0xF0 == 0xE0 then 3 else assert c & 0xF8 == 0xF0; 4
  }

  function HeaderValue(c: Byte): bv32
    requires IsLead(c)
  {
    if c & 0xE0 == 0xC0 then (c & 0x1F) as bv32
    else if c & 0xF0 == 0xE0 then (c & 0x0F) as bv32
    else (c & 0x07) as bv32
  }

  predicate IsContinuation(c: Byte) {
    c & 0xC0 == 0x80
  }

  /** One more byte for a value. */
  function Shifted(value: bv32, c: Byte): bv32 {
    (value << 6) | ((c & 0x3F) as bv32)
  }

  /** The value after n bytes of the sequence. */
  function ValueOf(s: seq<Byte>, n: nat): bv32
    requires 1 <= n <= |s| && IsLead(s[0])
  {
    if n == 1 then HeaderValue(s[0]) else Shifted(ValueOf(s, n - 1), s[n - 1])
  }

  predicate AllContinue(s: seq<Byte>, n: nat)
    requires 1 <= n <= |s|
  {
    forall k :: 1 <= k < n ==> IsContinuation(s[k])
  }

  /** Overlong forms and values out of range. */
  predicate BadValue(value: bv32, length: nat) {
    value < 0x80 ||
    (0x80 <= value && value < 0x800 && length > 2) ||
    (0x800 < value && value < 0x10000 && length > 3) ||
    value >= 0x110000
  }

  /** The string begins with a sequence the recogniser lets through. */
  predicate Accepted(s: seq<Byte>) {
    |s| > 0 && IsLead(s[0]) &&
    var n := EncodedLength(s[0]);
    n <= |s| && AllContinue(s, n) && !BadValue(ValueOf(s, n), n)
  }

  // ----- The same by the ranges of each byte -----

  predicate Tail(c: Byte) {
    0x80 <= c && c <= 0xBF
  }

  /** The multi-byte sequences of section 4 of RFC 3629, with the surrogates it leaves out let in. */
  predicate InTable(s: seq<Byte>) {
    (|s| >= 2 && 0xC2 <= s[0] && s[0] <= 0xDF && Tail(s[1])) ||
    (|s| >= 3 && s[0] == 0xE0 && 0xA0 <= s[1] && s[1] <= 0xBF && Tail(s[2])) ||
    (|s| >= 3 && 0xE1 <= s[0] && s[0] <= 0xEF && Tail(s[1]) && Tail(s[2])) ||
    (|s| >= 4 && s[0] == 0xF0 && 0x90 <= s[1] && s[1] <= 0xBF && Tail(s[2]) && Tail(s[3])) ||
    (|s| >= 4 && 0xF1 <= s[0] && s[0] <= 0xF3 && Tail(s[1]) && Tail(s[2]) && Tail(s[3])) ||
    (|s| >= 4 && s[0] == 0xF4 && 0x80 <= s[1] && s[1] <= 0x8F && Tail(s[2]) && Tail(s[3]))
  }

  const LONG_0800: seq<Byte> := [0xF0, 0x80, 0xA0, 0x80]

  lemma LeadRanges(c: Byte)
    requires IsLead(c)
    ensures EncodedLength(c) == if c <= 0xDF then 2 else if c <= 0xEF then 3 else 4
  {
  }

  lemma ContinuationIsTail(c: Byte)
    ensures IsContinuation(c) <==> Tail(c)
  {
  }

  lemma BadOfTwo(h: Byte, a: Byte)
    requires 0xC0 <= h && h <= 0xDF && Tail(a)
    ensures BadValue(Shifted(HeaderValue(h), a), 2) <==> h < 0xC2
  {
  }

  lemma BadOfThree(h: Byte, a: Byte, b: Byte)
    requires 0xE0 <= h && h <= 0xEF && Tail(a) && Tail(b)
    ensures BadValue(Shifted(Shifted(HeaderValue(h), a), b), 3) <==> h == 0xE0 && a < 0xA0
  {
  }

  lemma BadOfFour(h: Byte, a: Byte, b: Byte, c: Byte)
    requires 0xF0 <= h && h <= 0xF7 && Tail(a) && Tail(b) && Tail(c)
    ensures BadValue(Shifted(Shifted(Shifted(HeaderValue(h), a), b), c), 4) <==>
            (h == 0xF0 && a < 0x90 && [h, a, b, c] != LONG_0800) || (h == 0xF4 && a > 0x8F) || h > 0xF4
  {
    var s := [h, a, b, c];
    assert s == LONG_0800 <==> h == 0xF0 && a == 0x80 && b == 0xA0 && c == 0x80 by {
      assert s == LONG_0800 ==> s[0] == LONG_0800[0] && s[1] == LONG_0800[1] && s[2] == LONG_0800[2] && s[3] == LONG_0800[3];
    }
    BadOfFourBytes(h, a, b, c);
  }

  lemma BadOfFourBytes(h: Byte, a: Byte, b: Byte, c: Byte)
    requires 0xF0 <= h && h <= 0xF7 && Tail(a) && Tail(b) && Tail(c)
    ensures BadValue(Shifted(Shifted(Shifted(HeaderValue(h), a), b), c), 4) <==>
            (h == 0xF0 && a < 0x90 && !(a == 0x80 && b == 0xA0 && c == 0x80)) || (h == 0xF4 && a > 0x8F) || h > 0xF4
  {
  }

  lemma Unfolded(s: seq<Byte>)
    requires |s| > 0 && IsLead(s[0])
    ensures ValueOf(s, 1) == HeaderValue(s[0])
    ensures |s| >= 2 ==> ValueOf(s, 2) == Shifted(HeaderValue(s[0]), s[1])
    ensures |s| >= 3 ==> ValueOf(s, 3) == Shifted(Shifted(HeaderValue(s[0]), s[1]), s[2])
    ensures |s| >= 4 ==> ValueOf(s, 4) == Shifted(Shifted(Shifted(HeaderValue(s[0]), s[1]), s[2]), s[3])
  {
    hide HeaderValue, IsLead, Shifted;
    assert |s| >= 3 ==> ValueOf(s, 3) == Shifted(ValueOf(s, 2), s[2]);
  }

  /** The recogniser lets through exactly the sequences of the table, surrogates, and one overlong form. */
  lemma AcceptedIsTable(s: seq<Byte>)
    ensures Accepted(s) <==> InTable(s) || (|s| >= 4 && s[..4] == LONG_0800)
  {
    hide HeaderValue, IsContinuation, EncodedLength, BadValue, ValueOf, Shifted;
    if |s| > 0 && IsLead(s[0]) {
      Unfolded(s);
      LeadRanges(s[0]);
      var n := EncodedLength(s[0]);
      if n <= |s| {
        forall k | 1 <= k < n ensures IsContinuation(s[k]) <==> Tail(s[k]) { ContinuationIsTail(s[k]); }
        assert AllContinue(s, n) <==> Tail(s[1]) && (n >= 3 ==> Tail(s[2])) && (n >= 4 ==> Tail(s[3]));
        if AllContinue(s, n) {
          if n == 2 { BadOfTwo(s[0], s[1]); }
          else if n == 3 { BadOfThree(s[0], s[1], s[2]); }
          else { BadOfFour(s[0], s[1], s[2], s[3]); assert s[..4] == [s[0], s[1], s[2], s[3]]; }
        }
      }
    }
  }

  /** The overlong form of the character 0x0800 is let through, which the table does not hold. */
  lemma OverlongIsAccepted()
    ensures Accepted(LONG_0800) && !InTable(LONG_0800)
  {
    AcceptedIsTable(LONG_0800);
    assert LONG_0800[..4] == LONG_0800;
    hide Accepted;
  }
}
