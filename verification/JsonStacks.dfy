/** The open nodes of a document, and the stacks of writers that stand for them. */
module JsonStacks {
  import opened Json
  import opened JsonWriter

  /** An open node: the key it stands under in its parent, and the members it has so far. */
  datatype Frame = Frame(kind: Kind, key: string, members: seq<Member>)

  function Top(frames: seq<Frame>): Frame
    requires frames != []
  {
    frames[|frames| - 1]
  }

  function Below(frames: seq<Frame>): seq<Frame>
    requires frames != []
  {
    frames[..|frames| - 1]
  }

  /** Everything written before the top node. */
  ghost function BaseOf(frames: seq<Frame>): string
    requires frames != []
    decreases |frames|
  {
    var below := Below(frames);
    if below == [] then ""
    else
      var p := Top(below);
      BaseOf(below) + Opened(p.kind, p.members, |below| - 1) + Lead(p.kind, p.members == [], Top(frames).key, |below|)
  }

  ghost function TextOf(frames: seq<Frame>): string
    requires frames != []
  {
    BaseOf(frames) + Opened(Top(frames).kind, Top(frames).members, |frames| - 1)
  }

  /** The reporter's three stacks. */
  datatype Stacks = Stacks(writers: seq<Kind>, objects: seq<Writer>, arrays: seq<Writer>) {
    function Of(kind: Kind): seq<Writer> {
      if kind == Object then objects else arrays
    }

    /** Something has been pushed that tops the stack of its kind. */
    predicate Tops(kind: Kind) {
      writers != [] && writers[|writers| - 1] == kind && Of(kind) != []
    }

    function Peek(kind: Kind): Writer
      requires Tops(kind)
    {
      Of(kind)[|Of(kind)| - 1]
    }

    function Pop(kind: Kind): Stacks
      requires Tops(kind)
    {
      if kind == Object then Stacks(writers[..|writers| - 1], objects[..|objects| - 1], arrays)
      else Stacks(writers[..|writers| - 1], objects, arrays[..|arrays| - 1])
    }

    function Push(w: Writer): Stacks {
      if w.kind == Object then Stacks(writers + [w.kind], objects + [w], arrays)
      else Stacks(writers + [w.kind], objects, arrays + [w])
    }

    /** The top writer is replaced; what is on top of the stack of kinds stays. */
    function Poke(w: Writer): Stacks
      requires Of(w.kind) != []
    {
      if w.kind == Object then this.(objects := objects[..|objects| - 1] + [w])
      else this.(arrays := arrays[..|arrays| - 1] + [w])
    }
  }

  lemma PopPush(s: Stacks, w: Writer)
    ensures s.Push(w).Tops(w.kind) && s.Push(w).Peek(w.kind) == w && s.Push(w).Pop(w.kind) == s
  {
  }

  lemma PopPoke(s: Stacks, w: Writer)
    requires s.Tops(w.kind)
    ensures s.Poke(w).Tops(w.kind) && s.Poke(w).Peek(w.kind) == w && s.Poke(w).Pop(w.kind) == s.Pop(w.kind)
  {
  }

  /** The writer of the innermost of these open nodes, if there are so many nodes in all: one with an open
      node inside owes a comma. */
  ghost predicate IsWriterOf(w: Writer, frames: seq<Frame>, nodes: nat)
    requires frames != []
  {
    w.kind == Top(frames).kind && w.indent == |frames| - 1 && (w.shouldComma <==> Top(frames).members != [] || |frames| < nodes)
  }

  /** The stacks hold a writer for each open node, in order. */
  ghost predicate Stacked(frames: seq<Frame>, s: Stacks, nodes: nat)
    decreases |frames|
  {
    if frames == [] then s.writers == [] && s.objects == [] && s.arrays == []
    else
      var k := Top(frames).kind;
      s.Tops(k) && IsWriterOf(s.Peek(k), frames, nodes) && Stacked(Below(frames), s.Pop(k), nodes)
  }

  /** The stacks match the open nodes, and the text is what they render to so far. */
  ghost predicate Match(frames: seq<Frame>, s: Stacks, text: string) {
    frames != [] && text == TextOf(frames) && Stacked(frames, s, |frames|)
  }

  lemma {:induction false} StackedBelow(frames: seq<Frame>, s: Stacks, n: nat, m: nat)
    requires |frames| < n && |frames| < m && Stacked(frames, s, n)
    ensures Stacked(frames, s, m)
    decreases |frames|
  {
    hide IsWriterOf;
    if frames != [] {
      var k := Top(frames).kind;
      StackedBelow(Below(frames), s.Pop(k), n, m);
      WriterBelow(s.Peek(k), frames, n, m);
    }
  }

  lemma WriterBelow(w: Writer, frames: seq<Frame>, n: nat, m: nat)
    requires frames != [] && |frames| < n && |frames| < m && IsWriterOf(w, frames, n)
    ensures IsWriterOf(w, frames, m)
  {
  }

  ghost function Grown(frames: seq<Frame>, more: seq<Member>): seq<Frame>
    requires frames != []
  {
    Below(frames) + [Top(frames).(members := Top(frames).members + more)]
  }

  /** The writer on top of its stack is the one of the innermost open node. */
  lemma TopWriter(frames: seq<Frame>, s: Stacks, text: string)
    requires Match(frames, s, text)
    ensures var top := Top(frames);
            s.Tops(top.kind) && s.Peek(top.kind) == Writer(top.kind, |frames| - 1, top.members != []) &&
            Building(text, BaseOf(frames), top.members, s.Peek(top.kind))
  {
    hide BaseOf, Opened;
  }

  lemma BaseIgnoresMembers(frames: seq<Frame>, f: seq<Frame>)
    requires frames != [] && f != [] && Below(f) == Below(frames) && Top(f).key == Top(frames).key
    ensures BaseOf(f) == BaseOf(frames)
  {
  }

  lemma GrownIs(frames: seq<Frame>, more: seq<Member>)
    requires frames != []
    ensures var f := Grown(frames, more);
            |f| == |frames| && Below(f) == Below(frames) && Top(f) == Top(frames).(members := Top(frames).members + more)
  {
  }

  /** The top node has got more members. */
  lemma TopGrows(frames: seq<Frame>, s: Stacks, text: string, more: seq<Member>, w: Writer, now: string)
    requires Match(frames, s, text) && more != []
    requires w.kind == Top(frames).kind && w.indent == |frames| - 1 && w.shouldComma
    requires Building(now, BaseOf(frames), Top(frames).members + more, w)
    ensures s.Tops(w.kind) && Match(Grown(frames, more), s.Poke(w), now)
  {
    hide BaseOf, Opened, Grown;
    var f := Grown(frames, more);
    GrownIs(frames, more);
    BaseIgnoresMembers(frames, f);
    PopPoke(s, w);
    assert Top(f).members != [];
  }

  /** A node has been opened inside the top node. */
  lemma NodeOpened(frames: seq<Frame>, s: Stacks, text: string, key: string, w: Writer, inner: Writer, now: string)
    requires Match(frames, s, text)
    requires var p := Top(frames);
             w.kind == p.kind && w.indent == |frames| - 1 && w.shouldComma && inner.indent == |frames| && !inner.shouldComma &&
             now == BaseOf(frames) + Opened(p.kind, p.members, |frames| - 1) + Lead(p.kind, p.members == [], key, |frames|) +
                    Opened(inner.kind, [], |frames|)
    ensures s.Tops(w.kind) && Match(frames + [Frame(inner.kind, key, [])], s.Poke(w).Push(inner), now)
  {
    hide Opened, Lead, BaseOf;
    var f := frames + [Frame(inner.kind, key, [])];
    assert Below(f) == frames && Top(f) == Frame(inner.kind, key, []);
    BaseInside(frames, f);
    PopPoke(s, w);
    PopPush(s.Poke(w), inner);
    StackedBelow(Below(frames), s.Pop(w.kind), |frames|, |f|);
    assert Stacked(frames, s.Poke(w), |f|);
  }

  lemma BaseInside(frames: seq<Frame>, f: seq<Frame>)
    requires frames != [] && f != [] && Below(f) == frames
    ensures var p := Top(frames);
            BaseOf(f) == BaseOf(frames) + Opened(p.kind, p.members, |frames| - 1) + Lead(p.kind, p.members == [], Top(f).key, |frames|)
  {
  }

  /** The open nodes after the top one was closed: it has become a member of the one below. */
  ghost function Closed(frames: seq<Frame>): seq<Frame>
    requires |frames| >= 2
  {
    Grown(Below(frames), [Member(Top(frames).key, Node(Top(frames).kind, Top(frames).members))])
  }

  lemma NodeClosed(frames: seq<Frame>, s: Stacks, text: string, now: string)
    requires Match(frames, s, text) && |frames| >= 2
    requires now == BaseOf(frames) + Render(Node(Top(frames).kind, Top(frames).members), |frames| - 1)
    ensures s.Tops(Top(frames).kind) && Match(Closed(frames), s.Pop(Top(frames).kind), now)
  {
    hide Opened, Lead, Render, BaseOf, Grown;
    var below, top := Below(frames), Top(frames);
    var p, m := Top(below), Member(top.key, Node(top.kind, top.members));
    var f := Closed(frames);
    GrownIs(below, [m]);
    BaseInside(below, frames);
    BaseIgnoresMembers(below, f);
    OneMoreMember(p.kind, p.members, m, |below| - 1);
    AssociateLast(BaseOf(below), Opened(p.kind, p.members, |below| - 1), Lead(p.kind, p.members == [], m.key, |below|), Render(m.value, |below|));
    StacksAfterClose(frames, s);
  }

  lemma StacksAfterClose(frames: seq<Frame>, s: Stacks)
    requires |frames| >= 2 && Stacked(frames, s, |frames|)
    ensures Stacked(Closed(frames), s.Pop(Top(frames).kind), |frames| - 1)
  {
    hide Grown;
    var below := Below(frames);
    var m := Member(Top(frames).key, Node(Top(frames).kind, Top(frames).members));
    GrownIs(below, [m]);
    var r := s.Pop(Top(frames).kind);
    var k := Top(below).kind;
    assert Stacked(below, r, |frames|);
    StackedBelow(Below(below), r.Pop(k), |frames|, |frames| - 1);
    assert Top(Closed(frames)).members != [];
  }
}
