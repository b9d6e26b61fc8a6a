/** Writing a document to a stream member by member. */
module JsonWriter {
  import opened Json

  datatype Writer = Writer(kind: Kind, indent: nat, shouldComma: bool)

  /** The writer has opened its node behind the text base and has written these members to it. */
  ghost predicate Building(text: string, base: string, members: seq<Member>, w: Writer) {
    text == base + Opened(w.kind, members, w.indent) && w.shouldComma == (members != [])
  }

  lemma OneMoreMember(kind: Kind, members: seq<Member>, m: Member, level: nat)
    ensures Opened(kind, members + [m], level) ==
            Opened(kind, members, level) + Lead(kind, members == [], m.key, level + 1) + Render(m.value, level + 1)
  {
    hide Lead, Render;
    var all := members + [m];
    assert all[..|all| - 1] == members;
    Associate(Opening(kind), RenderMembers(kind, members, level + 1), Lead(kind, members == [], m.key, level + 1), Render(m.value, level + 1));
  }

  lemma Associate(a: string, b: string, c: string, d: string)
    ensures a + (b + c + d) == a + b + c + d
  {
  }

  class Stream {
    var text: string

    constructor ()
      ensures text == ""
    {
      text := "";
    }

    method Put(s: string)
      modifies this
      ensures text == old(text) + s
    {
      text := text + s;
    }

    method PutIndent(level: nat)
      modifies this
      ensures text == old(text) + Indent(level)
    {
      var i := 0;
      while i < level
        invariant i <= level && text == old(text) + Indent(i)
      {
        text := text + "  ";
        IndentMore(i);
        i := i + 1;
      }
    }

    method AppendCommaNewline(shouldComma: bool, level: nat) returns (r: bool)
      modifies this
      ensures r && text == old(text) + ((if shouldComma then "," else "") + "\n" + Indent(level))
    {
      if shouldComma { Put(","); }
      r := true;
      Put("\n");
      PutIndent(level);
    }

    /** A string, or the text of a number: only a quoted value is a string, but both are escaped. */
    method WriteImpl(value: string, quote: bool)
      modifies this
      ensures text == old(text) + if quote then "\"" + Escaped(value) + "\"" else Escaped(value)
    {
      hide Escaped, EscapeOf, NeedsEscape;
      if quote { Put("\""); }
      ghost var base := text;
      EscapeNothing(base, value);
      var start, i := 0, 0;
      while i < |value|
        invariant start <= i <= |value| && text + value[start..i] == base + Escaped(value[..i])
      {
        EscapeOneMore(value, i);
        CopyOneMore(text, value, start, i, base, Escaped(value[..i]), if NeedsEscape(value[i]) then EscapeOf(value[i]) else "");
        if NeedsEscape(value[i]) {
          if start < i { Put(value[start..i]); }
          Put(EscapeOf(value[i]));
          start := i + 1;
        }
        i := i + 1;
      }
      assert value[..|value|] == value && value[start..|value|] == value[start..];
      if start < |value| { Put(value[start..]); }
      assert text == base + Escaped(value);
      if quote { Put("\""); }
    }

    /** Opens an object or an array. */
    method Open(kind: Kind, indent: nat) returns (w: Writer)
      modifies this
      ensures w == Writer(kind, indent, false) && Building(text, old(text), [], w)
    {
      Put(Opening(kind));
      w := Writer(kind, indent, false);
    }

    /** Closes it: what the destructor of a writer does. */
    method Close(w: Writer, ghost base: string, ghost members: seq<Member>)
      requires Building(text, base, members, w)
      modifies this
      ensures text == base + Render(Node(w.kind, members), w.indent)
    {
      Put("\n");
      PutIndent(w.indent);
      Put(Closing(w.kind));
    }

    /** Everything that comes before a value. */
    method WriteKey(w: Writer, key: string) returns (r: Writer)
      modifies this
      ensures r == w.(shouldComma := true)
      ensures text == old(text) + Lead(w.kind, !w.shouldComma, key, w.indent + 1)
    {
      var comma := AppendCommaNewline(w.shouldComma, w.indent + 1);
      r := w.(shouldComma := comma);
      if w.kind == Object { Put("\"" + key + "\": "); }
    }

    method WriteText(w: Writer, key: string, value: string, ghost base: string, ghost members: seq<Member>) returns (r: Writer)
      requires Building(text, base, members, w)
      modifies this
      ensures r == w.(shouldComma := true) && Building(text, base, members + [Member(key, Text(value))], r)
    {
      hide Opened, Lead, Escaped;
      OneMoreMember(w.kind, members, Member(key, Text(value)), w.indent);
      r := WriteKey(w, key);
      WriteImpl(value, true);
    }

    method WriteScalar(w: Writer, key: string, value: string, ghost base: string, ghost members: seq<Member>) returns (r: Writer)
      requires Building(text, base, members, w) && Escaped(value) == value
      modifies this
      ensures r == w.(shouldComma := true) && Building(text, base, members + [Member(key, Scalar(value))], r)
    {
      hide Opened, Lead, Escaped;
      OneMoreMember(w.kind, members, Member(key, Scalar(value)), w.indent);
      r := WriteKey(w, key);
      WriteImpl(value, false);
    }

    /** Opens a node as the next member of a writer. */
    method OpenMember(w: Writer, key: string, kind: Kind, ghost base: string, ghost members: seq<Member>)
      returns (r: Writer, inner: Writer, ghost innerBase: string)
      requires Building(text, base, members, w)
      modifies this
      ensures r == w.(shouldComma := true) && inner == Writer(kind, w.indent + 1, false)
      ensures Building(text, innerBase, [], inner)
      ensures innerBase == base + Opened(w.kind, members, w.indent) + Lead(w.kind, members == [], key, w.indent + 1)
    {
      hide Lead;
      r := WriteKey(w, key);
      innerBase := text;
      inner := Open(kind, w.indent + 1);
    }

    /** Closes a node that was opened as a member. */
    method CloseMember(w: Writer, key: string, inner: Writer, ghost base: string, ghost members: seq<Member>,
                       ghost innerBase: string, ghost innerMembers: seq<Member>)
      requires inner.indent == w.indent + 1 && w.shouldComma && Building(text, innerBase, innerMembers, inner)
      requires innerBase == base + Opened(w.kind, members, w.indent) + Lead(w.kind, members == [], key, w.indent + 1)
      modifies this
      ensures Building(text, base, members + [Member(key, Node(inner.kind, innerMembers))], w)
    {
      hide Opened, Lead;
      var m := Member(key, Node(inner.kind, innerMembers));
      OneMoreMember(w.kind, members, m, w.indent);
      Close(inner, innerBase, innerMembers);
      AssociateLast(base, Opened(w.kind, members, w.indent), Lead(w.kind, members == [], key, w.indent + 1), Render(m.value, w.indent + 1));
    }
  }

  lemma CopyOneMore(text: string, value: string, start: nat, i: nat, base: string, done: string, e: string)
    requires start <= i < |value| && text + value[start..i] == base + done
    ensures text + value[start..i + 1] == base + (done + [value[i]])
    ensures start == i ==> text == base + done
    ensures value[i + 1..i + 1] == "" && text + value[start..i] + e == base + (done + e)
  {
    assert value[start..i + 1] == value[start..i] + [value[i]];
    assert base + done + e == base + (done + e) && base + done + [value[i]] == base + (done + [value[i]]);
    assert text + (value[start..i] + [value[i]]) == text + value[start..i] + [value[i]];
  }

  lemma AssociateLast(a: string, b: string, c: string, d: string)
    ensures a + b + c + d == a + (b + c + d)
  {
  }

  lemma {:induction false} IndentMore(level: nat)
    ensures Indent(level) + "  " == Indent(level + 1)
  {
    if level > 0 { IndentMore(level - 1); }
  }

  lemma EscapeNothing(base: string, value: string)
    ensures base + value[0..0] == base + Escaped(value[..0])
  {
  }

  lemma EscapeOneMore(s: string, i: nat)
    requires i < |s|
    ensures Escaped(s[..i + 1]) == Escaped(s[..i]) + if NeedsEscape(s[i]) then EscapeOf(s[i]) else [s[i]]
  {
    assert s[..i + 1][..i] == s[..i];
  }
}
