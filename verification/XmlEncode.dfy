/** Writing arbitrary bytes as XML text or attribute values. */
module XmlEncode {
  import opened Utf8

  datatype ForWhat = ForTextNodes | ForAttributes

  const LESS: Byte := 0x3C
  const AMPERSAND: Byte := 0x26
  const GREATER: Byte := 0x3E
  const QUOTE: Byte := 0x22
  const BRACKET: Byte := 0x5D
  const LT: seq<Byte> := [0x26, 0x6C, 0x74, 0x3B]
  const AMP: seq<Byte> := [0x26, 0x61, 0x6D, 0x70, 0x3B]
  const GT: seq<Byte> := [0x26, 0x67, 0x74, 0x3B]
  const QUOT: seq<Byte> := [0x26, 0x71, 0x75, 0x6F, 0x74, 0x3B]

  function Digit(n: Byte): Byte {
    if n < 10 then n + 0x30 else n + 0x37
  }

  function Hex(c: Byte): (r: seq<Byte>)
    ensures |r| == 4 && r[0] == 0x5C
  {
    [0x5C, 0x78, Digit(c >> 4), Digit(c & 0x0F)]
  }

  /** What a hexadecimal digit stands for; capital letters only. */
  function DigitValue(d: Byte): Byte {
    if 0x30 <= d && d <= 0x39 then d - 0x30 else if 0x41 <= d && d <= 0x46 then d - 0x41 + 10 else 0xFF
  }

  /** A byte is spelled out as a backslash, an x, and two digits that stand for it. */
  lemma HexReadsBack(c: Byte)
    ensures var high, low := DigitValue(Hex(c)[2]), DigitValue(Hex(c)[3]);
            Hex(c) == [0x5C, 0x78, Hex(c)[2], Hex(c)[3]] && high < 16 && low < 16 && 16 * high + low == c
  {
    DigitReadsBack(c >> 4);
    DigitReadsBack(c & 0x0F);
    assert 16 * (c >> 4) + (c & 0x0F) == c;
  }

  lemma DigitReadsBack(n: Byte)
    requires n < 16
    ensures DigitValue(Digit(n)) == n
  {
  }

  predicate IsControl(c: Byte) {
    c < 0x09 || (c > 0x0D && c < 0x20) || c == 0x7F
  }

  /** What is done with the input from one position on: n bytes pass, or one byte is replaced. */
  datatype Token = Pass(n: nat) | Replace(bytes: seq<Byte>)

  function TokenAt(s: seq<Byte>, i: nat, what: ForWhat): (t: Token)
    requires i < |s|
    ensures t.Pass? ==> 1 <= t.n <= |s| - i
  {
    var c := s[i];
    if c == LESS then Replace(LT)
    else if c == AMPERSAND then Replace(AMP)
    else if c == GREATER then (if i > 2 && s[i - 1] == BRACKET && s[i - 2] == BRACKET then Replace(GT) else Pass(1))
    else if c == QUOTE then (if what == ForAttributes then Replace(QUOT) else Pass(1))
    else if IsControl(c) then Replace(Hex(c))
    else if c < 0x7F then Pass(1)
    else if Accepted(s[i..]) then Pass(EncodedLength(c))
    else Replace(Hex(c))
  }

  function Taken(t: Token): nat {
    if t.Pass? then t.n else 1
  }

  function Written(s: seq<Byte>, i: nat, t: Token): seq<Byte>
    requires i < |s| && (t.Pass? ==> t.n <= |s| - i)
  {
    if t.Pass? then s[i..i + t.n] else t.bytes
  }

  function Encoded(s: seq<Byte>, i: nat, what: ForWhat): seq<Byte>
    requires i <= |s|
    decreases |s| - i
  {
    if i == |s| then []
    else
      var t := TokenAt(s, i, what);
      Written(s, i, t) + Encoded(s, i + Taken(t), what)
  }

  // ----- The encoder: it copies the runs between the replaced bytes -----

  method WriteTo(s: seq<Byte>, os: seq<Byte>, lastStart: nat, idx: nat) returns (r: seq<Byte>, start: nat)
    requires idx <= |s|
    ensures start == idx + 1 && r == os + if lastStart < idx then s[lastStart..idx] else []
  {
    r := os;
    if lastStart < idx { r := r + s[lastStart..idx]; }
    start := idx + 1;
  }

  /** Reads the bytes after the lead byte, all of them even if one is wrong. */
  method CheckSequence(s: seq<Byte>, idx: nat, encBytes: nat) returns (valid: bool, value: bv32)
    requires idx + encBytes <= |s| && encBytes >= 2 && IsLead(s[idx])
    ensures valid <==> AllContinue(s[idx..], encBytes)
    ensures value == ValueOf(s[idx..], encBytes)
  {
    hide IsContinuation, Shifted, HeaderValue, IsLead;
    valid, value := true, HeaderValue(s[idx]);
    var n := 1;
    while n < encBytes
      invariant 1 <= n <= encBytes
      invariant valid <==> AllContinue(s[idx..], n)
      invariant value == ValueOf(s[idx..], n)
    {
      var nc := s[idx + n];
      assert s[idx..][n] == nc;
      valid := IsContinuation(nc) && valid;
      value := Shifted(value, nc);
      n := n + 1;
    }
  }

  /** The default case of the encoder: what becomes of a byte that has no entity. */
  method Classify(s: seq<Byte>, idx: nat, what: ForWhat) returns (t: Token)
    requires idx < |s| && s[idx] != LESS && s[idx] != AMPERSAND && s[idx] != GREATER && s[idx] != QUOTE
    ensures t == TokenAt(s, idx, what)
  {
    hide Hex, AllContinue, ValueOf, BadValue;
    var c := s[idx];
    if IsControl(c) { return Replace(Hex(c)); }
    if c < 0x7F { return Pass(1); }
    if c < 0xC0 || c >= 0xF8 { return Replace(Hex(c)); }
    var encBytes := EncodedLength(c);
    if idx + encBytes - 1 >= |s| { return Replace(Hex(c)); }
    var valid, value := CheckSequence(s, idx, encBytes);
    if !valid || BadValue(value, encBytes) { return Replace(Hex(c)); }
    t := Pass(encBytes);
  }

  /** The copying is behind: what is written, what waits to be copied, and what the rest encodes to. */
  ghost predicate Copying(s: seq<Byte>, what: ForWhat, os: seq<Byte>, lastStart: nat, idx: nat) {
    lastStart <= idx <= |s| && Encoded(s, 0, what) == os + s[lastStart..idx] + Encoded(s, idx, what)
  }

  lemma CopyOn(s: seq<Byte>, what: ForWhat, os: seq<Byte>, lastStart: nat, idx: nat)
    requires idx < |s| && Copying(s, what, os, lastStart, idx)
    ensures var t := TokenAt(s, idx, what);
            if t.Pass? then Copying(s, what, os, lastStart, idx + t.n)
            else Copying(s, what, os + s[lastStart..idx] + t.bytes, idx + 1, idx + 1)
  {
    hide TokenAt, Encoded;
    var t := TokenAt(s, idx, what);
    EncodedSplits(s, idx, what);
    var rest := Encoded(s, idx + Taken(t), what);
    if t.Pass? {
      CopyMore(os, s, lastStart, idx, idx + t.n, rest);
    } else {
      ReplaceOne(os, s[lastStart..idx], t.bytes, s[idx + 1..idx + 1], rest);
    }
  }

  lemma EncodedSplits(s: seq<Byte>, i: nat, what: ForWhat)
    requires i < |s|
    ensures var t := TokenAt(s, i, what); Encoded(s, i, what) == Written(s, i, t) + Encoded(s, i + Taken(t), what)
  {
  }

  lemma CopyMore(os: seq<Byte>, s: seq<Byte>, from: nat, i: nat, j: nat, rest: seq<Byte>)
    requires from <= i <= j <= |s|
    ensures os + s[from..i] + (s[i..j] + rest) == os + s[from..j] + rest
  {
    assert s[from..i] + s[i..j] == s[from..j];
    assert os + s[from..i] + (s[i..j] + rest) == os + (s[from..i] + s[i..j]) + rest;
  }

  lemma ReplaceOne(os: seq<Byte>, copied: seq<Byte>, bytes: seq<Byte>, none: seq<Byte>, rest: seq<Byte>)
    requires none == []
    ensures os + copied + (bytes + rest) == os + copied + bytes + none + rest
  {
  }

  method EncodeTo(s: seq<Byte>, what: ForWhat) returns (os: seq<Byte>)
    ensures os == Encoded(s, 0, what)
  {
    hide TokenAt, Encoded, Hex, Copying;
    os := [];
    var lastStart, idx := 0, 0;
    StartCopying(s, what);
    while idx < |s|
      invariant Copying(s, what, os, lastStart, idx) && lastStart <= idx <= |s|
      decreases |s| - idx
    {
      CopyOn(s, what, os, lastStart, idx);
      var t := NextToken(s, idx, what);
      if t.Pass? {
        idx := idx + t.n;
      } else {
        os, lastStart := WriteTo(s, os, lastStart, idx);
        os := os + t.bytes;
        idx := idx + 1;
      }
      assert lastStart <= idx <= |s| by { CopiedSoFar(s, what, os, lastStart, idx); }
    }
    StopCopying(s, what, os, lastStart);
    os, lastStart := WriteTo(s, os, lastStart, |s|);
  }

  lemma StartCopying(s: seq<Byte>, what: ForWhat)
    ensures Copying(s, what, [], 0, 0)
  {
    assert [] + s[0..0] + Encoded(s, 0, what) == Encoded(s, 0, what);
  }

  lemma CopiedSoFar(s: seq<Byte>, what: ForWhat, os: seq<Byte>, lastStart: nat, idx: nat)
    requires Copying(s, what, os, lastStart, idx)
    ensures lastStart <= idx <= |s|
  {
  }

  lemma StopCopying(s: seq<Byte>, what: ForWhat, os: seq<Byte>, lastStart: nat)
    requires Copying(s, what, os, lastStart, |s|)
    ensures Encoded(s, 0, what) == os + if lastStart < |s| then s[lastStart..|s|] else []
  {
  }

  method NextToken(s: seq<Byte>, idx: nat, what: ForWhat) returns (t: Token)
    requires idx < |s|
    ensures t == TokenAt(s, idx, what)
  {
    var c := s[idx];
    match c
    case 0x3C => t := Replace(LT);
    case 0x26 => t := Replace(AMP);
    case 0x3E =>
      t := if idx > 2 && s[idx - 1] == BRACKET && s[idx - 2] == BRACKET then Replace(GT) else Pass(1);
    case 0x22 => t := if what == ForAttributes then Replace(QUOT) else Pass(1);
    case _ => t := Classify(s, idx, what);
  }
}
