/** What a reader of the encoded bytes gets back, and what cannot occur in them. */
module XmlDecode {
  import opened Utf8
  import opened Sequences
  import opened XmlEncode

  predicate BeginsWith(o: seq<Byte>, e: seq<Byte>) {
    |e| <= |o| && o[..|e|] == e
  }

  predicate BeginsEntity(o: seq<Byte>) {
    BeginsWith(o, [0x26, 0x6C, 0x74, 0x3B]) || BeginsWith(o, [0x26, 0x61, 0x6D, 0x70, 0x3B]) ||
    BeginsWith(o, [0x26, 0x67, 0x74, 0x3B]) || BeginsWith(o, [0x26, 0x71, 0x75, 0x6F, 0x74, 0x3B])
  }

  /** A reader that resolves the four entities "&lt;", "&amp;", "&gt;" and "&quot;". */
  function Decode(o: seq<Byte>): (r: seq<Byte>) {
    if o == [] then []
    else if BeginsWith(o, [0x26, 0x6C, 0x74, 0x3B]) then [0x3C] + Decode(o[4..])
    else if BeginsWith(o, [0x26, 0x61, 0x6D, 0x70, 0x3B]) then [0x26] + Decode(o[5..])
    else if BeginsWith(o, [0x26, 0x67, 0x74, 0x3B]) then [0x3E] + Decode(o[4..])
    else if BeginsWith(o, [0x26, 0x71, 0x75, 0x6F, 0x74, 0x3B]) then [0x22] + Decode(o[6..])
    else [o[0]] + Decode(o[1..])
  }

  /** The length of the unit the bytes begin with: a byte of ASCII that is no control character, or a
      multi-byte sequence; 0 if they begin with neither. */
  function Unit(o: seq<Byte>): (n: nat)
    ensures n <= |o|
  {
    if o == [] || IsControl(o[0]) then 0 else if o[0] < 0x7F then 1 else if Accepted(o) then EncodedLength(o[0]) else 0
  }

  /** The bytes are units, one after the other. */
  predicate WellFormed(o: seq<Byte>)
    decreases |o|
  {
    o == [] || (Unit(o) > 0 && WellFormed(o[Unit(o)..]))
  }

  /** The input with every byte that belongs to no unit spelled out in hexadecimal. */
  function Sanitized(s: seq<Byte>): (r: seq<Byte>)
    decreases |s|
  {
    if s == [] then []
    else if Unit(s) > 0 then s[..Unit(s)] + Sanitized(s[Unit(s)..])
    else Hex(s[0]) + Sanitized(s[1..])
  }

  // ----- Units and tokens -----

  lemma HexDigits(c: Byte)
    ensures forall k :: 0 <= k < 4 ==> 0x30 <= Hex(c)[k] && Hex(c)[k] < 0x7B && Hex(c)[k] != LESS && Hex(c)[k] != GREATER && Hex(c)[k] != BRACKET
  {
    assert (c >> 4) <= 15 && (c & 0x0F) <= 15;
    DigitRange(c >> 4);
    DigitRange(c & 0x0F);
  }

  lemma DigitRange(n: Byte)
    requires n <= 15
    ensures 0x30 <= Digit(n) && Digit(n) <= 0x46 && Digit(n) != LESS && Digit(n) != GREATER
  {
  }

  /** The bytes of an accepted sequence are not ASCII. */
  lemma AcceptedIsHigh(o: seq<Byte>)
    requires Accepted(o)
    ensures EncodedLength(o[0]) <= |o| && forall k :: 0 <= k < EncodedLength(o[0]) ==> o[k] >= 0x80
  {
    hide BadValue, ValueOf, HeaderValue;
    forall k | 1 <= k < EncodedLength(o[0]) ensures o[k] >= 0x80 { ContinuationIsTail(o[k]); }
  }

  /** Whether a sequence is accepted depends on its own bytes only. */
  lemma AcceptedByItself(a: seq<Byte>, b: seq<Byte>)
    requires Accepted(a)
    ensures Accepted(a + b)
  {
    hide Accepted;
    AcceptedIsTable(a);
    AcceptedIsTable(a + b);
    assert |a| >= 4 ==> (a + b)[..4] == a[..4];
  }

  lemma AcceptedAlone(o: seq<Byte>)
    requires Accepted(o)
    ensures EncodedLength(o[0]) <= |o| && Accepted(o[..EncodedLength(o[0])])
  {
    hide HeaderValue, BadValue, Shifted;
    var n := EncodedLength(o[0]);
    var a := o[..n];
    assert forall k :: 0 <= k < n ==> a[k] == o[k];
    SameValue(a, o, n);
  }

  lemma {:induction false} SameValue(a: seq<Byte>, o: seq<Byte>, n: nat)
    requires 1 <= n <= |a| <= |o| && IsLead(a[0]) && forall k :: 0 <= k < |a| ==> a[k] == o[k]
    ensures ValueOf(a, n) == ValueOf(o, n)
  {
    hide HeaderValue, IsLead, Shifted;
    if n > 1 { SameValue(a, o, n - 1); }
  }

  /** What a byte string begins with, as the encoder sees it and as the grammar does. */
  lemma TokenIsUnit(s: seq<Byte>, i: nat, what: ForWhat)
    requires i < |s|
    ensures var t, u := TokenAt(s, i, what), Unit(s[i..]);
            (t.Pass? ==> t.n == u > 0) &&
            (t.Replace? ==> (u == 0 && t.bytes == Hex(s[i])) ||
                            (u == 1 && ((s[i] == LESS && t.bytes == LT) || (s[i] == AMPERSAND && t.bytes == AMP) ||
                                        (s[i] == GREATER && t.bytes == GT) || (s[i] == QUOTE && t.bytes == QUOT))))
  {
    hide Accepted, Hex, EncodedLength;
  }

  // ----- Decoding -----

  lemma EntityHead(o: seq<Byte>)
    ensures BeginsEntity(o) ==> o[0] == AMPERSAND
  {
    if BeginsWith(o, LT) { assert o[..|LT|][0] == o[0]; }
    if BeginsWith(o, AMP) { assert o[..|AMP|][0] == o[0]; }
    if BeginsWith(o, GT) { assert o[..|GT|][0] == o[0]; }
    if BeginsWith(o, QUOT) { assert o[..|QUOT|][0] == o[0]; }
  }

  lemma {:induction false} DecodePlain(a: seq<Byte>, b: seq<Byte>)
    requires AMPERSAND !in a
    ensures Decode(a + b) == a + Decode(b)
    decreases |a|
  {
    hide Decode;
    if a == [] {
      assert a + b == b && a + Decode(b) == Decode(b);
    } else {
      var c, rest := a[0], a[1..];
      assert a == [c] + rest;
      DecodePlain(rest, b);
      DecodeOne([c] + (rest + b));
      assert ([c] + (rest + b))[1..] == rest + b;
      Regrouped([c], rest, b);
      Regrouped([c], rest, Decode(b));
    }
  }

  lemma DecodeOne(o: seq<Byte>)
    requires o != [] && o[0] != AMPERSAND
    ensures Decode(o) == [o[0]] + Decode(o[1..])
  {
    EntityHead(o);
    hide BeginsWith;
  }

  lemma DecodeEntity(c: Byte, e: seq<Byte>, b: seq<Byte>)
    requires (c == LESS && e == LT) || (c == AMPERSAND && e == AMP) || (c == GREATER && e == GT) || (c == QUOTE && e == QUOT)
    ensures Decode(e + b) == [c] + Decode(b)
  {
    var o := e + b;
    assert o[..|e|] == e && o[|e|..] == b;
    assert o[1] == e[1] && o[2] == e[2];
    assert BeginsWith(o, LT) ==> o[..|LT|][1] == LT[1];
    assert BeginsWith(o, AMP) ==> o[..|AMP|][1] == AMP[1];
    assert BeginsWith(o, GT) ==> o[..|GT|][1] == GT[1];
    assert BeginsWith(o, QUOT) ==> o[..|QUOT|][1] == QUOT[1];
  }

  /** Decoding the encoder's output gives back the input, with the bytes that could not be written spelled out. */
  lemma {:induction false} DecodeEncoded(s: seq<Byte>, i: nat, what: ForWhat)
    requires i <= |s|
    ensures Decode(Encoded(s, i, what)) == Sanitized(s[i..])
    decreases |s| - i
  {
    hide TokenAt, Written, Taken, Hex, Unit, Decode, Sanitized;
    if i == |s| {
      DecodeNothing();
    } else {
      var t := TokenAt(s, i, what);
      TakenFits(s, i, what);
      DecodeToken(s, i, what, Encoded(s, i + Taken(t), what));
      DecodeEncoded(s, i + Taken(t), what);
      DropTwice(s, i, Taken(t));
      SanitizedStep(s[i..]);
    }
  }

  lemma TakenFits(s: seq<Byte>, i: nat, what: ForWhat)
    requires i < |s|
    ensures i < i + Taken(TokenAt(s, i, what)) <= |s|
  {
    hide Accepted, Hex;
  }

  /** The token at a position is decoded to what the input begins with there. */
  lemma DecodeToken(s: seq<Byte>, i: nat, what: ForWhat, rest: seq<Byte>)
    requires i < |s|
    ensures var t, u := TokenAt(s, i, what), Unit(s[i..]);
            Taken(t) == (if u > 0 then u else 1) &&
            Decode(Written(s, i, t) + rest) == (if u > 0 then s[i..][..u] else Hex(s[i])) + Decode(rest)
  {
    hide TokenAt, Accepted, Hex, Unit, Decode, BeginsWith;
    var t, u := TokenAt(s, i, what), Unit(s[i..]);
    TokenIsUnit(s, i, what);
    if t.Pass? {
      PassedIsPlain(s, i, what);
      assert s[i..i + u] == s[i..][..u];
      DecodePlain(s[i..i + u], rest);
    } else if u == 0 {
      HexDigits(s[i]);
      DecodePlain(Hex(s[i]), rest);
    } else {
      DecodeEntity(s[i], t.bytes, rest);
      assert s[i..][..1] == [s[i]];
    }
  }

  lemma SanitizedStep(s: seq<Byte>)
    requires s != []
    ensures var u := Unit(s);
            Sanitized(s) == if u > 0 then s[..u] + Sanitized(s[u..]) else Hex(s[0]) + Sanitized(s[1..])
  {
  }

  lemma DecodeNothing()
    ensures Decode([]) == [] == Sanitized([])
  {
  }

  lemma PassedIsPlain(s: seq<Byte>, i: nat, what: ForWhat)
    requires i < |s| && TokenAt(s, i, what).Pass?
    ensures var n := TokenAt(s, i, what).n;
            AMPERSAND !in s[i..i + n] && LESS !in s[i..i + n] && (what == ForAttributes ==> QUOTE !in s[i..i + n])
    ensures var n := TokenAt(s, i, what).n; n > 1 ==> forall k :: i <= k < i + n ==> s[k] >= 0x80
  {
    hide Accepted, EncodedLength;
    var n := TokenAt(s, i, what).n;
    if n > 1 {
      AcceptedIsHigh(s[i..]);
      assert forall k :: i <= k < i + n ==> s[k] == s[i..][k - i];
    } else {
      assert s[i..i + 1] == [s[i]];
    }
  }

  lemma {:induction false} SanitizedLength(s: seq<Byte>)
    ensures |Sanitized(s)| >= |s|
    ensures Sanitized(s) == s <==> WellFormed(s)
    ensures !WellFormed(s) ==> |Sanitized(s)| > |s|
    decreases |s|
  {
    hide Unit, Hex;
    if s != [] {
      var u := Unit(s);
      if u > 0 {
        SanitizedLength(s[u..]);
        assert s == s[..u] + s[u..];
        var r := Sanitized(s);
        assert r[..u] == s[..u] && r[u..] == Sanitized(s[u..]);
      } else {
        SanitizedLength(s[1..]);
      }
    }
  }

  /** Encoding loses nothing exactly if the input is well formed to begin with. */
  lemma RoundTripExactlyIfWellFormed(s: seq<Byte>, what: ForWhat)
    ensures Decode(Encoded(s, 0, what)) == s <==> WellFormed(s)
  {
    hide Decode, Encoded, Sanitized, WellFormed;
    DecodeEncoded(s, 0, what);
    SanitizedLength(s);
    assert s[0..] == s;
  }

  // ----- The output is well formed, whatever the input -----

  lemma {:induction false} AsciiThenWellFormed(a: seq<Byte>, b: seq<Byte>)
    requires WellFormed(b) && forall c :: c in a ==> !IsControl(c) && c < 0x7F
    ensures WellFormed(a + b)
    decreases |a|
  {
    hide Accepted;
    if a == [] {
      assert a + b == b;
    } else {
      assert (a + b)[0] == a[0] && (a + b)[1..] == a[1..] + b;
      AsciiThenWellFormed(a[1..], b);
    }
  }

  lemma UnitThenWellFormed(o: seq<Byte>, b: seq<Byte>)
    requires Unit(o) > 0 && WellFormed(b)
    ensures WellFormed(o[..Unit(o)] + b)
  {
    hide Accepted;
    var u := Unit(o);
    var a := o[..u];
    assert (a + b)[0] == o[0] && (a + b)[u..] == b;
    if o[0] >= 0x7F {
      AcceptedAlone(o);
      AcceptedByItself(a, b);
    }
  }

  lemma {:induction false} EncodedIsWellFormed(s: seq<Byte>, i: nat, what: ForWhat)
    requires i <= |s|
    ensures WellFormed(Encoded(s, i, what))
    decreases |s| - i
  {
    hide TokenAt, Accepted, Hex, Unit, WellFormed;
    if i == |s| {
      NothingIsWellFormed();
    } else {
      var t, u := TokenAt(s, i, what), Unit(s[i..]);
      var rest := Encoded(s, i + Taken(t), what);
      TokenIsUnit(s, i, what);
      EncodedIsWellFormed(s, i + Taken(t), what);
      if t.Pass? {
        assert s[i..i + u] == s[i..][..u];
        UnitThenWellFormed(s[i..], rest);
      } else {
        BytesAreAscii(s, i, what);
        AsciiThenWellFormed(t.bytes, rest);
      }
    }
  }

  lemma BytesAreAscii(s: seq<Byte>, i: nat, what: ForWhat)
    requires i < |s| && TokenAt(s, i, what).Replace?
    ensures forall c :: c in TokenAt(s, i, what).bytes ==> !IsControl(c) && c < 0x7F
  {
    hide TokenAt, Accepted, Hex, Unit;
    TokenIsUnit(s, i, what);
    HexDigits(s[i]);
  }

  lemma NothingIsWellFormed()
    ensures WellFormed([])
  {
  }

  // ----- No markup by accident -----

  /** No raw '<', no quote in an attribute, and every '&' begins an entity. */
  ghost predicate Inert(o: seq<Byte>, what: ForWhat) {
    forall p :: 0 <= p < |o| ==>
      o[p] != 0x3C && (what == ForAttributes ==> o[p] != 0x22) && (o[p] == 0x26 ==> BeginsEntity(o[p..]))
  }

  lemma PlainThenInert(a: seq<Byte>, b: seq<Byte>, what: ForWhat)
    requires Inert(b, what) && AMPERSAND !in a && LESS !in a && (what == ForAttributes ==> QUOTE !in a)
    ensures Inert(a + b, what)
  {
    hide BeginsEntity;
    var o := a + b;
    forall p | 0 <= p < |o|
      ensures o[p] != 0x3C && (what == ForAttributes ==> o[p] != 0x22) && (o[p] == 0x26 ==> BeginsEntity(o[p..]))
    {
      if p < |a| { assert o[p] in a; } else { assert o[p..] == b[p - |a|..]; }
    }
  }

  lemma EntityThenInert(e: seq<Byte>, b: seq<Byte>, what: ForWhat)
    requires Inert(b, what) && (e == LT || e == AMP || e == GT || e == QUOT)
    ensures Inert(e + b, what)
  {
    hide BeginsEntity;
    var o := e + b;
    assert e == [AMPERSAND] + e[1..];
    assert o == [AMPERSAND] + (e[1..] + b);
    PlainThenInert(e[1..], b, what);
    EntityBegins(e, b);
    forall p | 0 <= p < |o|
      ensures o[p] != 0x3C && (what == ForAttributes ==> o[p] != 0x22) && (o[p] == 0x26 ==> BeginsEntity(o[p..]))
    {
      if p == 0 { assert o[0..] == o; } else { assert o[p..] == (e[1..] + b)[p - 1..]; }
    }
  }

  lemma EntityBegins(e: seq<Byte>, b: seq<Byte>)
    requires e == LT || e == AMP || e == GT || e == QUOT
    ensures BeginsEntity(e + b)
  {
    assert (e + b)[..|e|] == e;
  }

  lemma {:induction false} EncodedIsInert(s: seq<Byte>, i: nat, what: ForWhat)
    requires i <= |s|
    ensures Inert(Encoded(s, i, what), what)
    decreases |s| - i
  {
    hide TokenAt, Accepted, Hex, Unit, BeginsEntity;
    if i < |s| {
      var t := TokenAt(s, i, what);
      var rest := Encoded(s, i + Taken(t), what);
      TokenIsUnit(s, i, what);
      EncodedIsInert(s, i + Taken(t), what);
      if t.Pass? {
        PassedIsPlain(s, i, what);
        PlainThenInert(s[i..i + t.n], rest, what);
      } else if Unit(s[i..]) == 0 {
        HexDigits(s[i]);
        PlainThenInert(t.bytes, rest, what);
      } else {
        EntityThenInert(t.bytes, rest, what);
      }
    }
  }

  // ----- Control characters -----

  /** Of the control characters only those from tab to carriage return are passed on.  The vertical tab and the form feed
      are among them, which section 2.2 of XML 1.0 does not admit. */
  lemma {:induction false} ControlsPassedOn(s: seq<Byte>, i: nat, what: ForWhat, c: Byte)
    requires i <= |s| && (c < 0x20 || c == 0x7F)
    ensures c in Encoded(s, i, what) <==> c in s[i..] && c in [0x09, 0x0A, 0x0B, 0x0C, 0x0D]
    decreases |s| - i
  {
    hide TokenAt, Encoded, Written;
    if i == |s| {
      NothingEncoded(s, what);
    } else {
      var t := TokenAt(s, i, what);
      ControlsPassedOn(s, i + Taken(t), what, c);
      TokenControls(s, i, what, c);
      EncodedSplits(s, i, what);
      assert s[i..] == s[i..i + Taken(t)] + s[i + Taken(t)..];
    }
  }

  lemma NothingEncoded(s: seq<Byte>, what: ForWhat)
    ensures Encoded(s, |s|, what) == []
  {
  }

  lemma TokenControls(s: seq<Byte>, i: nat, what: ForWhat, c: Byte)
    requires i < |s| && (c < 0x20 || c == 0x7F)
    ensures var t := TokenAt(s, i, what);
            c in Written(s, i, t) <==> c in s[i..i + Taken(t)] && c in [0x09, 0x0A, 0x0B, 0x0C, 0x0D]
  {
    hide TokenAt, Accepted, Hex, Unit, IsControl;
    var t := TokenAt(s, i, what);
    if t.Pass? {
      PassedControls(s, i, what, c);
    } else {
      ReplacedControls(s, i, what, c);
    }
  }

  lemma PassedControls(s: seq<Byte>, i: nat, what: ForWhat, c: Byte)
    requires i < |s| && (c < 0x20 || c == 0x7F) && TokenAt(s, i, what).Pass?
    ensures c in s[i..i + TokenAt(s, i, what).n] ==> c in [0x09, 0x0A, 0x0B, 0x0C, 0x0D]
  {
    hide TokenAt, Accepted, Hex, EncodedLength;
    TokenIsUnit(s, i, what);
    var n := TokenAt(s, i, what).n;
    if s[i] >= 0x7F { AcceptedIsHigh(s[i..]); }
    if c in s[i..i + n] {
      var k :| 0 <= k < n && s[i..i + n][k] == c;
      assert s[i..][k] == c;
    }
  }

  lemma ReplacedControls(s: seq<Byte>, i: nat, what: ForWhat, c: Byte)
    requires i < |s| && (c < 0x20 || c == 0x7F) && TokenAt(s, i, what).Replace?
    ensures c !in TokenAt(s, i, what).bytes && s[i..i + 1] == [s[i]]
    ensures s[i] == c ==> c !in [0x09, 0x0A, 0x0B, 0x0C, 0x0D]
  {
    hide Accepted, Hex, EncodedLength;
    TokenIsUnit(s, i, what);
    HexDigits(s[i]);
  }

  // ----- The end of a CDATA section -----

  const CDATA_END: seq<Byte> := [0x5D, 0x5D, 0x3E]

  ghost predicate Contains(o: seq<Byte>, e: seq<Byte>) {
    exists p :: 0 <= p < |o| && BeginsWith(o[p..], e)
  }

  /** What the first byte written tells of the input. */
  lemma FirstWritten(s: seq<Byte>, i: nat, what: ForWhat)
    requires i < |s|
    ensures var t := TokenAt(s, i, what); var w := Written(s, i, t);
            |w| > 0 && (forall k :: 0 < k < |w| ==> w[k] != BRACKET) &&
            (w[0] == BRACKET <==> s[i] == BRACKET) && (s[i] == BRACKET ==> w == [BRACKET]) &&
            (w[0] == GREATER <==> s[i] == GREATER && !(i > 2 && s[i - 1] == BRACKET && s[i - 2] == BRACKET))
  {
    hide Accepted, Hex, EncodedLength, Unit;
    var t := TokenAt(s, i, what);
    TokenIsUnit(s, i, what);
    if t.Pass? { PassedIsPlain(s, i, what); } else if t.bytes == Hex(s[i]) { HexDigits(s[i]); }
  }

  /** The output begins with the end of a CDATA section only if the input does, and from its very start. */
  lemma CdataEndHere(s: seq<Byte>, i: nat, what: ForWhat)
    requires i <= |s|
    ensures BeginsWith(Encoded(s, i, what), CDATA_END) <==> i == 0 && BeginsWith(s, CDATA_END)
  {
    hide TokenAt, Written, Encoded, BeginsWith;
    var o := Encoded(s, i, what);
    EncodedEnds(s, what);
    ThreeBytes(o);
    ThreeBytes(s);
    if i < |s| {
      FirstWritten(s, i, what);
      EncodedSplits(s, i, what);
      if s[i] == BRACKET && i + 1 < |s| {
        TakenIsOne(s, i, what);
        FirstWritten(s, i + 1, what);
        EncodedSplits(s, i + 1, what);
        if s[i + 1] == BRACKET && i + 2 < |s| {
          TakenIsOne(s, i + 1, what);
          FirstWritten(s, i + 2, what);
          EncodedSplits(s, i + 2, what);
        }
      }
    }
  }

  lemma EncodedEnds(s: seq<Byte>, what: ForWhat)
    ensures Encoded(s, |s|, what) == []
  {
  }

  lemma ThreeBytes(o: seq<Byte>)
    ensures BeginsWith(o, CDATA_END) <==> |o| >= 3 && o[0] == BRACKET && o[1] == BRACKET && o[2] == GREATER
  {
    if |o| >= 3 { assert o[..3] == [o[0], o[1], o[2]]; }
  }

  lemma TakenIsOne(s: seq<Byte>, i: nat, what: ForWhat)
    requires i < |s| && s[i] == BRACKET
    ensures Taken(TokenAt(s, i, what)) == 1
  {
  }

  /** The end of a CDATA section gets into the output exactly if the input begins with one. */
  lemma {:induction false} CdataEndExactlyAtStart(s: seq<Byte>, i: nat, what: ForWhat)
    requires i <= |s|
    ensures Contains(Encoded(s, i, what), CDATA_END) <==> i == 0 && BeginsWith(s, CDATA_END)
    decreases |s| - i
  {
    hide TokenAt, Written, Encoded, BeginsWith;
    CdataEndHere(s, i, what);
    EncodedEnds(s, what);
    var o := Encoded(s, i, what);
    ThreeBytes(o);
    ThreeBytes(s);
    assert o[0..] == o;
    if i < |s| {
      var t := TokenAt(s, i, what);
      var w, rest := Written(s, i, t), Encoded(s, i + Taken(t), what);
      EncodedSplits(s, i, what);
      FirstWritten(s, i, what);
      TakenIsPositive(s, i, what);
      CdataEndExactlyAtStart(s, i + Taken(t), what);
      ContainsAcross(w, rest);
    }
  }

  /** The shortest input for which it does. */
  lemma CdataEndGetsThrough(what: ForWhat)
    ensures Contains(Encoded(CDATA_END, 0, what), CDATA_END)
  {
    CdataEndExactlyAtStart(CDATA_END, 0, what);
    ThreeBytes(CDATA_END);
    hide Encoded;
  }

  lemma ContainsAcross(w: seq<Byte>, rest: seq<Byte>)
    requires |w| > 0 && forall k :: 0 < k < |w| ==> w[k] != BRACKET
    ensures Contains(w + rest, CDATA_END) <==> BeginsWith(w + rest, CDATA_END) || Contains(rest, CDATA_END)
  {
    hide BeginsWith;
    var o := w + rest;
    assert o[0..] == o;
    forall p | 0 <= p < |o| && BeginsWith(o[p..], CDATA_END)
      ensures p == 0 || (p >= |w| && BeginsWith(rest[p - |w|..], CDATA_END))
    {
      ThreeBytes(o[p..]);
      assert o[p..][0] == o[p];
      if p >= |w| { assert o[p..] == rest[p - |w|..]; }
    }
    forall p | 0 <= p < |rest| && BeginsWith(rest[p..], CDATA_END) ensures BeginsWith(o[p + |w|..], CDATA_END) {
      assert o[p + |w|..] == rest[p..];
    }
  }

  lemma TakenIsPositive(s: seq<Byte>, i: nat, what: ForWhat)
    requires i < |s|
    ensures 0 < Taken(TokenAt(s, i, what)) <= |s| - i
  {
  }
}
