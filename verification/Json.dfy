/** JSON documents, and how they are laid out as text. */
module Json {

  datatype Kind = Object | Array

  /** A value: raw text such as a number, a string, or an object or array of members (array members have no key). */
  datatype Value = Scalar(text: string) | Text(value: string) | Node(kind: Kind, members: seq<Member>)

  datatype Member = Member(key: string, value: Value)

  function Indent(level: nat): string {
    if level == 0 then "" else "  " + Indent(level - 1)
  }

  predicate NeedsEscape(c: char) {
    c == '"' || c == '\\' || c == '\U{08}' || c == '\U{0C}' || c == '\n' || c == '\r' || c == '\t'
  }

  function EscapeOf(c: char): string
    requires NeedsEscape(c)
  {
    if c == '"' then "\\\""
    else if c == '\\' then "\\\\"
    else if c == '\U{08}' then "\\b"
    else if c == '\U{0C}' then "\\f"
    else if c == '\n' then "\\n"
    else if c == '\r' then "\\r"
    else "\\t"
  }

  function Escaped(s: string): string {
    if s == "" then ""
    else Escaped(s[..|s| - 1]) + if NeedsEscape(s[|s| - 1]) then EscapeOf(s[|s| - 1]) else [s[|s| - 1]]
  }

  lemma {:induction false} PlainNeedsNoEscape(s: string)
    requires forall c :: c in s ==> !NeedsEscape(c)
    ensures Escaped(s) == s
  {
    hide NeedsEscape;
    if s != "" {
      var front, last := s[..|s| - 1], s[|s| - 1];
      assert forall c :: c in front ==> c in s;
      assert last in s && front + [last] == s;
      PlainNeedsNoEscape(front);
    }
  }

  function Opening(kind: Kind): string {
    if kind == Object then "{" else "["
  }

  function Closing(kind: Kind): string {
    if kind == Object then "}" else "]"
  }

  /** What comes before a member: a comma if it is not the first, a new line, and its key in an object. */
  function Lead(kind: Kind, first: bool, key: string, level: nat): string {
    (if first then "" else ",") + "\n" + Indent(level) + if kind == Object then "\"" + key + "\": " else ""
  }

  function Render(v: Value, level: nat): string
    decreases v
  {
    match v
    case Scalar(text) => text
    case Text(value) => "\"" + Escaped(value) + "\""
    case Node(kind, members) => Opened(kind, members, level) + "\n" + Indent(level) + Closing(kind)
  }

  /** A node that is not closed yet. */
  function Opened(kind: Kind, members: seq<Member>, level: nat): string
    decreases members, 1
  {
    Opening(kind) + RenderMembers(kind, members, level + 1)
  }

  function RenderMembers(kind: Kind, members: seq<Member>, level: nat): string
    decreases members, 0
  {
    if members == [] then ""
    else
      var n := |members| - 1;
      RenderMembers(kind, members[..n], level) + Lead(kind, n == 0, members[n].key, level) + Render(members[n].value, level)
  }
}
