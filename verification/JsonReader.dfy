/** A reader of JSON text after RFC 8259, and of rendered documents. */
module JsonReader {
  import opened Json
  import opened Options

  predicate IsSpace(c: char) {
    c == ' ' || c == '\t' || c == '\n' || c == '\r'
  }

  function SkipSpace(s: string): (r: string)
    ensures |r| <= |s| && (r != "" ==> !IsSpace(r[0]))
  {
    if s != "" && IsSpace(s[0]) then SkipSpace(s[1..]) else s
  }

  /** The character an escape stands for (section 7, without the hexadecimal form). */
  function Unescaped(c: char): Option<char> {
    if c == '"' || c == '\\' || c == '/' then Some(c)
    else if c == 'b' then Some('\U{08}')
    else if c == 'f' then Some('\U{0C}')
    else if c == 'n' then Some('\n')
    else if c == 'r' then Some('\r')
    else if c == 't' then Some('\t')
    else None
  }

  /** The rest of a string, after its opening quote: control characters are not allowed in it. */
  function ReadChars(s: string): (r: Option<(string, string)>)
    ensures r.Some? ==> |r.value.1| < |s|
  {
    if s == "" then None
    else if s[0] == '"' then Some(("", s[1..]))
    else if s[0] == '\\' then
      if |s| < 2 || Unescaped(s[1]).None? then None
      else
        var r := ReadChars(s[2..]);
        if r.None? then None else Some(([Unescaped(s[1]).value] + r.value.0, r.value.1))
    else if s[0] < ' ' then None
    else
      var r := ReadChars(s[1..]);
      if r.None? then None else Some(([s[0]] + r.value.0, r.value.1))
  }

  predicate IsDelimiter(c: char) {
    IsSpace(c) || c == ',' || c == ':' || c == ']' || c == '}' || c == '[' || c == '{' || c == '"'
  }

  function Word(s: string): (n: nat)
    ensures n <= |s| && (n < |s| ==> IsDelimiter(s[n])) && forall i :: 0 <= i < n ==> !IsDelimiter(s[i])
  {
    if s == "" || IsDelimiter(s[0]) then 0 else 1 + Word(s[1..])
  }

  /** The three literals, and the integers (sections 3 and 6). */
  predicate LegalScalar(text: string) {
    text == "true" || text == "false" || text == "null" ||
    (text != "" && (forall c :: c in text ==> '0' <= c <= '9') && (text[0] == '0' ==> |text| == 1))
  }

  function ReadValue(s: string): (r: Option<(Value, string)>)
    ensures r.Some? ==> |r.value.1| < |s|
    decreases |s|, 0
  {
    var t := SkipSpace(s);
    if t == "" then None
    else if t[0] == '{' then ReadMembers(Object, t[1..], [])
    else if t[0] == '[' then ReadMembers(Array, t[1..], [])
    else if t[0] == '"' then
      var r := ReadChars(t[1..]);
      if r.None? then None else Some((Text(r.value.0), r.value.1))
    else
      var n := Word(t);
      if LegalScalar(t[..n]) then Some((Scalar(t[..n]), t[n..])) else None
  }

  /** The rest of an object or array of which some members have been read. */
  function ReadMembers(kind: Kind, s: string, read: seq<Member>): (r: Option<(Value, string)>)
    ensures r.Some? ==> |r.value.1| < |s|
    decreases |s|, 1
  {
    var t := SkipSpace(s);
    if t == "" then None
    else if t[..1] == Closing(kind) then Some((Node(kind, read), t[1..]))
    else if read != [] && t[0] != ',' then None
    else
      var u := if read == [] then t else t[1..];
      var k := if kind == Object then ReadKey(u) else Some(("", u));
      if k.None? then None
      else
        var v := ReadValue(k.value.1);
        if v.None? then None else ReadMembers(kind, v.value.1, read + [Member(k.value.0, v.value.0)])
  }

  function ReadKey(s: string): (r: Option<(string, string)>)
    ensures r.Some? ==> |r.value.1| < |s|
  {
    var t := SkipSpace(s);
    if t == "" || t[0] != '"' then None
    else
      var k := ReadChars(t[1..]);
      if k.None? then None
      else
        var u := SkipSpace(k.value.1);
        if u == "" || u[0] != ':' then None else Some((k.value.0, u[1..]))
  }

  // ----- Strings -----

  predicate IsPlain(c: char) {
    c >= ' ' && c != '"' && c != '\\'
  }

  /** No control character but the five with an escape of two characters (section 7). */
  predicate Printable(s: string) {
    forall i :: 0 <= i < |s| ==> s[i] >= ' ' || HasShortEscape(s[i])
  }

  predicate HasShortEscape(c: char) {
    c == '\U{08}' || c == '\U{0C}' || c == '\n' || c == '\r' || c == '\t'
  }

  function EscapedChar(c: char): string {
    if NeedsEscape(c) then EscapeOf(c) else [c]
  }

  lemma {:induction false} EscapedFront(s: string)
    requires s != ""
    ensures Escaped(s) == EscapedChar(s[0]) + Escaped(s[1..])
    decreases |s|
  {
    var n := |s| - 1;
    if n > 0 {
      EscapedFront(s[..n]);
      assert s[1..][..n - 1] == s[..n][1..] && s[1..][n - 1] == s[n];
      AssociateThree(EscapedChar(s[0]), Escaped(s[..n][1..]), EscapedChar(s[n]));
    } else {
      assert s[..0] == "" && s[1..] == "";
    }
  }

  lemma AssociateThree(a: string, b: string, c: string)
    ensures a + b + c == a + (b + c)
  {
  }

  lemma ReadOne(c: char, rest: string)
    ensures var r := ReadChars(rest);
            ReadChars(EscapedChar(c) + rest) ==
              if (c < ' ' && !NeedsEscape(c)) || r.None? then None else Some(([c] + r.value.0, r.value.1))
  {
    var s := EscapedChar(c) + rest;
    if NeedsEscape(c) {
      assert s[0] == '\\' && s[1] == EscapeOf(c)[1] && s[2..] == rest;
    } else {
      assert s[0] == c && s[1..] == rest;
    }
  }

  /** An escaped string is read back as it was, unless it holds a control character that was not escaped. */
  lemma {:induction false} ReadEscaped(v: string, rest: string)
    ensures ReadChars(Escaped(v) + "\"" + rest) == if Printable(v) then Some((v, rest)) else None
    decreases |v|
  {
    hide ReadChars, Escaped, EscapedChar, NeedsEscape;
    if v == "" {
      ReadEnd(rest);
    } else {
      EscapedFront(v);
      ReadEscaped(v[1..], rest);
      var t := Escaped(v[1..]) + "\"" + rest;
      assert Escaped(v) + "\"" + rest == EscapedChar(v[0]) + t;
      ReadOne(v[0], t);
      PrintableFront(v);
      assert [v[0]] + v[1..] == v;
    }
  }

  lemma PrintableFront(v: string)
    requires v != ""
    ensures Printable(v) <==> (v[0] >= ' ' || NeedsEscape(v[0])) && Printable(v[1..])
  {
    assert v[0] < ' ' ==> (NeedsEscape(v[0]) <==> HasShortEscape(v[0]));
    hide NeedsEscape, HasShortEscape;
    assert forall i :: 0 < i < |v| ==> v[i] == v[1..][i - 1];
  }

  lemma ReadEnd(rest: string)
    ensures ReadChars(Escaped("") + "\"" + rest) == Some(("", rest))
  {
    var s := Escaped("") + "\"" + rest;
    assert s[0] == '"' && s[1..] == rest;
  }

  lemma {:induction false} ReadPlain(k: string, rest: string)
    requires forall i :: 0 <= i < |k| ==> IsPlain(k[i])
    ensures ReadChars(k + "\"" + rest) == Some((k, rest))
    decreases |k|
  {
    var s := k + "\"" + rest;
    if k == "" {
      assert s[0] == '"' && s[1..] == rest;
    } else {
      assert s[0] == k[0] && s[1..] == k[1..] + "\"" + rest;
      ReadPlain(k[1..], rest);
      assert [k[0]] + k[1..] == k;
    }
  }

  // ----- Layout -----

  lemma {:induction false} SkipIndent(level: nat, rest: string)
    ensures SkipSpace(Indent(level) + rest) == SkipSpace(rest)
  {
    var s := Indent(level) + rest;
    if level == 0 {
      assert s == rest;
    } else {
      var t := Indent(level - 1) + rest;
      assert s == "  " + t;
      assert s[1..] == " " + t && s[1..][1..] == t;
      SkipIndent(level - 1, rest);
    }
  }

  lemma SkipNewline(level: nat, rest: string)
    ensures SkipSpace("\n" + Indent(level) + rest) == SkipSpace(rest)
  {
    var s := "\n" + Indent(level) + rest;
    assert s[1..] == Indent(level) + rest;
    SkipIndent(level, rest);
  }

  lemma {:induction false} ReadWord(w: string, rest: string)
    requires forall c :: c in w ==> !IsDelimiter(c)
    requires rest == "" || IsDelimiter(rest[0])
    ensures Word(w + rest) == |w|
    decreases |w|
  {
    var s := w + rest;
    if w == "" {
      assert s == rest;
    } else {
      assert s[0] == w[0] && s[1..] == w[1..] + rest;
      ReadWord(w[1..], rest);
    }
  }

  // ----- Documents -----

  /** Keys need no escaping, array members have none, and scalars are legal: true of all the reporter writes. */
  predicate Framed(v: Value)
    decreases v
  {
    match v
    case Scalar(text) => LegalScalar(text)
    case Text(_) => true
    case Node(kind, members) => AllFramed(kind, members)
  }

  predicate AllFramed(kind: Kind, members: seq<Member>)
    decreases members
  {
    forall m :: m in members ==> (kind == Array ==> m.key == "") && (forall i :: 0 <= i < |m.key| ==> IsPlain(m.key[i])) && Framed(m.value)
  }

  /** Every string in the document is printable. */
  predicate Sound(v: Value)
    decreases v
  {
    match v
    case Scalar(_) => true
    case Text(value) => Printable(value)
    case Node(_, members) => forall m :: m in members ==> Sound(m.value)
  }

  predicate Ends(rest: string) {
    rest == "" || IsDelimiter(rest[0])
  }

  /** The members from number i on, and everything behind them. */
  function Tail(kind: Kind, members: seq<Member>, i: nat, level: nat, rest: string): string
    requires i <= |members|
    decreases |members| - i
  {
    if i == |members| then "\n" + Indent(level) + Closing(kind) + rest
    else Lead(kind, i == 0, members[i].key, level + 1) + Render(members[i].value, level + 1) + Tail(kind, members, i + 1, level, rest)
  }

  lemma {:induction false} TailIsRendered(kind: Kind, members: seq<Member>, i: nat, level: nat, rest: string)
    requires i <= |members|
    ensures RenderMembers(kind, members[..i], level + 1) + Tail(kind, members, i, level, rest) ==
            RenderMembers(kind, members, level + 1) + ("\n" + Indent(level) + Closing(kind) + rest)
    decreases |members| - i
  {
    hide Lead, Render;
    if i == |members| {
      assert members[..i] == members;
    } else {
      TailIsRendered(kind, members, i + 1, level, rest);
      var m := members[..i + 1];
      assert m[..i] == members[..i] && m[i] == members[i];
      assert RenderMembers(kind, m, level + 1) ==
             RenderMembers(kind, members[..i], level + 1) + Lead(kind, i == 0, members[i].key, level + 1) + Render(members[i].value, level + 1);
      AssociateFour(RenderMembers(kind, members[..i], level + 1), Lead(kind, i == 0, members[i].key, level + 1),
                    Render(members[i].value, level + 1), Tail(kind, members, i + 1, level, rest));
    }
  }

  lemma AssociateFour(a: string, b: string, c: string, d: string)
    ensures a + b + c + d == a + (b + c + d)
  {
  }

  /** What a value begins with. */
  lemma RenderStarts(v: Value, level: nat)
    requires Framed(v)
    ensures var r := Render(v, level);
            r != "" && !IsSpace(r[0]) && r[0] != ',' && r[0] != ']' && r[0] != '}'
  {
    hide RenderMembers, Indent, Escaped, AllFramed;
    match v
    case Scalar(text) =>
      ScalarChars(text);
      assert text[0] in text;
    case Text(value) => assert Render(v, level)[0] == '"';
    case Node(kind, members) => assert Render(v, level)[0] == Opened(kind, members, level)[0] == Opening(kind)[0];
  }

  lemma ReadValueSkips(a: string, b: string)
    requires SkipSpace(a) == SkipSpace(b)
    ensures ReadValue(a) == ReadValue(b)
  {
  }

  lemma SkipNothing(s: string)
    requires s != "" && !IsSpace(s[0])
    ensures SkipSpace(s) == s
  {
  }

  lemma ReadScalar(text: string, rest: string)
    requires LegalScalar(text) && Ends(rest)
    ensures ReadValue(text + rest) == Some((Scalar(text), rest))
  {
    var s := text + rest;
    hide LegalScalar, Word, ReadMembers, ReadChars;
    ScalarChars(text);
    ReadWord(text, rest);
    SkipNothing(s);
    assert s[..|text|] == text && s[|text|..] == rest;
  }

  lemma ScalarChars(text: string)
    requires LegalScalar(text)
    ensures text != "" && forall c :: c in text ==> !IsDelimiter(c)
  {
  }

  lemma ReadText(value: string, rest: string)
    ensures ReadValue("\"" + Escaped(value) + "\"" + rest) == if Printable(value) then Some((Text(value), rest)) else None
  {
    hide Printable, ReadChars, Escaped, ReadMembers, Word;
    var s := "\"" + Escaped(value) + "\"" + rest;
    SkipNothing(s);
    assert s[1..] == Escaped(value) + "\"" + rest;
    ReadEscaped(value, rest);
  }

  function KeyPart(kind: Kind, key: string): string {
    if kind == Object then "\"" + key + "\": " else ""
  }

  /** A key, if there is one, and then whatever value follows. */
  lemma ReadKeyPart(kind: Kind, key: string, u: string, y: string)
    requires (kind == Array ==> key == "") && forall i :: 0 <= i < |key| ==> IsPlain(key[i])
    requires SkipSpace(u) == KeyPart(kind, key) + y
    ensures var k := if kind == Object then ReadKey(u) else Some(("", u));
            k.Some? && k.value.0 == key && ReadValue(k.value.1) == ReadValue(y)
  {
    hide ReadValue, ReadChars, IsPlain, SkipSpace, ReadKey;
    if kind == Object {
      ReadKeyOf(key, u, y);
      SkipBlank(y);
      ReadValueSkips(" " + y, y);
    } else {
      assert "" + y == y;
      SkipSkipped(u);
      ReadValueSkips(u, y);
    }
  }

  lemma SkipBlank(y: string)
    ensures SkipSpace(" " + y) == SkipSpace(y)
  {
    AfterFirst(" ", y);
  }

  lemma ReadKeyOf(key: string, u: string, y: string)
    requires forall i :: 0 <= i < |key| ==> IsPlain(key[i])
    requires SkipSpace(u) == "\"" + key + "\": " + y
    ensures ReadKey(u) == Some((key, " " + y))
  {
    hide ReadChars, IsPlain, SkipSpace;
    var t, r := SkipSpace(u), ":" + (" " + y);
    AfterFirst("\"", key + "\"" + r);
    assert "\"" + key + "\": " + y == "\"" + (key + "\"" + r);
    ReadPlain(key, r);
    AfterFirst(":", " " + y);
    SkipNothing(r);
  }

  lemma SkipSkipped(s: string)
    ensures SkipSpace(SkipSpace(s)) == SkipSpace(s)
  {
    var t := SkipSpace(s);
    if t != "" { SkipNothing(t); }
  }

  /** A member that is not the first comes after a comma; its layout is skipped. */
  lemma SkipLead(kind: Kind, first: bool, key: string, level: nat, y: string)
    requires y != "" && !IsSpace(y[0]) && y[0] != ']' && y[0] != '}'
    ensures var s, x := Lead(kind, first, key, level) + y, KeyPart(kind, key) + y;
            var t := SkipSpace(s);
            t != "" && t[..1] != Closing(kind) && SkipSpace(x) == x &&
            if first then t == x else t == s && s[0] == ',' && SkipSpace(s[1..]) == x
  {
    hide Indent, SkipSpace;
    var s, x := Lead(kind, first, key, level) + y, KeyPart(kind, key) + y;
    StartOfMember(kind, key, y);
    SkipNothing(x);
    SkipNewline(level, x);
    LeadParts(kind, first, key, level, y);
    if !first { SkipNothing(s); }
  }

  lemma StartOfMember(kind: Kind, key: string, y: string)
    requires y != "" && !IsSpace(y[0]) && y[0] != ']' && y[0] != '}'
    ensures var x := KeyPart(kind, key) + y;
            x != "" && !IsSpace(x[0]) && x[0] != ']' && x[0] != '}' && x[..1] != Closing(kind)
  {
    var x := KeyPart(kind, key) + y;
    assert x[0] == if kind == Object then '"' else y[0];
    assert x[..1] == [x[0]];
  }

  lemma LeadParts(kind: Kind, first: bool, key: string, level: nat, y: string)
    ensures var s, x := Lead(kind, first, key, level) + y, "\n" + Indent(level) + (KeyPart(kind, key) + y);
            if first then s == x else s != "" && s[0] == ',' && s[1..] == x && s[..1] != Closing(kind)
  {
    hide Indent;
    var c := if first then "" else ",";
    var x := "\n" + Indent(level) + (KeyPart(kind, key) + y);
    assert Lead(kind, first, key, level) == c + "\n" + Indent(level) + KeyPart(kind, key);
    AssociateFive(c, "\n", Indent(level), KeyPart(kind, key), y);
    AfterFirst(c, x);
  }

  lemma AfterFirst(c: string, x: string)
    ensures c == "" ==> c + x == x
    ensures |c| == 1 ==> (c + x)[0] == c[0] && (c + x)[1..] == x && (c + x)[..1] == c
  {
  }

  lemma AssociateFive(a: string, b: string, c: string, d: string, e: string)
    ensures a + b + c + d + e == a + (b + c + (d + e))
  {
  }

  lemma {:induction false} ReadTail(kind: Kind, members: seq<Member>, i: nat, level: nat, rest: string)
    requires i <= |members| && AllFramed(kind, members)
    ensures ReadMembers(kind, Tail(kind, members, i, level, rest), members[..i]) ==
            if forall j :: i <= j < |members| ==> Sound(members[j].value) then Some((Node(kind, members), rest)) else None
    decreases members, |members| - i
  {
    hide Render, ReadValue, ReadKey, Sound, Lead, ReadMembers, Framed, Tail, IsPlain;
    var s := Tail(kind, members, i, level, rest);
    TailStep(kind, members, i, level, rest);
    if i == |members| {
      ReadClosing(kind, level, rest, members);
      assert members[..i] == members;
    } else {
      var m, t := members[i], Tail(kind, members, i + 1, level, rest);
      TailEnds(kind, members, i + 1, level, rest);
      ReadRendered(m.value, level + 1, t);
      ReadTail(kind, members, i + 1, level, rest);
      assert members[..i + 1] == members[..i] + [m];
      RenderStarts(m.value, level + 1);
      var y := Render(m.value, level + 1) + t;
      AssociateThree(Lead(kind, i == 0, m.key, level + 1), Render(m.value, level + 1), t);
      ReadNext(kind, members[..i], m, level + 1, y);
    }
  }

  lemma TailStep(kind: Kind, members: seq<Member>, i: nat, level: nat, rest: string)
    requires i <= |members|
    ensures Tail(kind, members, i, level, rest) ==
            if i == |members| then "\n" + Indent(level) + Closing(kind) + rest
            else Lead(kind, i == 0, members[i].key, level + 1) + Render(members[i].value, level + 1) + Tail(kind, members, i + 1, level, rest)
  {
  }

  /** One step of reading members. */
  lemma ReadNext(kind: Kind, read: seq<Member>, m: Member, level: nat, y: string)
    requires (kind == Array ==> m.key == "") && forall i :: 0 <= i < |m.key| ==> IsPlain(m.key[i])
    requires y != "" && !IsSpace(y[0]) && y[0] != ']' && y[0] != '}'
    requires ReadValue(y).Some? ==> ReadValue(y).value.0 == m.value
    ensures ReadMembers(kind, Lead(kind, read == [], m.key, level) + y, read) ==
            if ReadValue(y).None? then None else ReadMembers(kind, ReadValue(y).value.1, read + [m])
  {
    hide ReadValue, ReadKey, Lead, KeyPart;
    var s := Lead(kind, read == [], m.key, level) + y;
    SkipLead(kind, read == [], m.key, level, y);
    var t := SkipSpace(s);
    var u := if read == [] then t else t[1..];
    ReadKeyPart(kind, m.key, u, y);
    var k := if kind == Object then ReadKey(u) else Some(("", u));
    assert ReadValue(y).Some? ==> Member(k.value.0, ReadValue(y).value.0) == m;
  }

  lemma ReadClosing(kind: Kind, level: nat, rest: string, members: seq<Member>)
    ensures ReadMembers(kind, "\n" + Indent(level) + Closing(kind) + rest, members) == Some((Node(kind, members), rest))
  {
    hide ReadValue, ReadKey;
    var t := Closing(kind) + rest;
    assert "\n" + Indent(level) + Closing(kind) + rest == "\n" + Indent(level) + t;
    SkipNewline(level, t);
    SkipNothing(t);
    assert t[..1] == Closing(kind) && t[1..] == rest;
  }

  lemma TailEnds(kind: Kind, members: seq<Member>, i: nat, level: nat, rest: string)
    requires 0 < i <= |members|
    ensures Ends(Tail(kind, members, i, level, rest))
  {
    var s := Tail(kind, members, i, level, rest);
    assert s[0] == if i == |members| then '\n' else ',';
  }

  /** Reading what was rendered gives the document back if all its strings are printable, and fails otherwise. */
  lemma {:induction false} ReadRendered(v: Value, level: nat, rest: string)
    requires Framed(v) && Ends(rest)
    ensures ReadValue(Render(v, level) + rest) == if Sound(v) then Some((v, rest)) else None
    decreases v
  {
    match v
    case Scalar(text) => ReadScalar(text, rest);
    case Text(value) => ReadText(value, rest);
    case Node(kind, members) =>
      hide Printable, LegalScalar, ReadMembers, Sound, AllFramed, RenderMembers, Lead;
      var s := Render(v, level) + rest;
      TailIsRendered(kind, members, 0, level, rest);
      ReadTail(kind, members, 0, level, rest);
      var t := Tail(kind, members, 0, level, rest);
      RenderedNode(kind, members, level, rest);
      SkipNothing(s);
      assert s[1..] == t;
      assert members[..0] == [];
      SoundNode(kind, members);
  }

  lemma SoundNode(kind: Kind, members: seq<Member>)
    ensures Sound(Node(kind, members)) <==> forall j :: 0 <= j < |members| ==> Sound(members[j].value)
  {
  }

  lemma RenderedNode(kind: Kind, members: seq<Member>, level: nat, rest: string)
    ensures Render(Node(kind, members), level) + rest == Opening(kind) + Tail(kind, members, 0, level, rest)
  {
    hide RenderMembers, Tail;
    TailIsRendered(kind, members, 0, level, rest);
    var r, e := RenderMembers(kind, members, level + 1), "\n" + Indent(level) + Closing(kind);
    RenderNothing(kind, members, level + 1);
    assert Opening(kind) + r + "\n" + Indent(level) + Closing(kind) + rest == Opening(kind) + (r + (e + rest));
  }

  lemma RenderNothing(kind: Kind, members: seq<Member>, level: nat)
    ensures RenderMembers(kind, members[..0], level) == ""
  {
  }
}
