/**
  What the plain text of a document is made of: the texts of its paragraphs and
  headings in order, each ended by line breaks that are counted here from the
  blocks that end with it. internal/articles/compiler.go.
 */
module PlainText {
  import opened Outcomes
  import opened Documents
  import opened Texts
  import M = ArticleModel

  /** The text of a paragraph or heading, and the line breaks after it. */
  datatype Block = Block(text: string, breaks: nat)

  function Newlines(n: nat): (r: string)
    ensures |r| == n && forall i | 0 <= i < n :: r[i] == '\n'
  {
    seq(n, i => '\n')
  }

  function Spread(blocks: seq<Block>): string {
    if blocks == [] then "" else blocks[0].text + Newlines(blocks[0].breaks) + Spread(blocks[1..])
  }

  /** The text of the inline children. */
  function Inline(ns: seq<Node>): string {
    if ns == [] then "" else ns[0].text + Inline(ns[1..])
  }

  /** The last block ends with this many line breaks more. */
  function Ended(blocks: seq<Block>, more: nat): (r: seq<Block>)
    ensures |r| == |blocks|
    ensures forall i | 0 <= i < |r| :: r[i].text == blocks[i].text && r[i].breaks >= blocks[i].breaks
  {
    if blocks == [] then []
    else blocks[..|blocks| - 1] + [Block(blocks[|blocks| - 1].text, blocks[|blocks| - 1].breaks + more)]
  }

  /** The blocks of a node: a paragraph or heading ends with two breaks, a list or an item with one, a quotation with two. */
  function BlocksOf(n: Node): seq<Block> {
    match n.kind
    case "paragraph" => [Block(Inline(n.content), 2)]
    case "heading" => [Block(Inline(n.content), 2)]
    case "bulletList" => Ended(BlocksAll(n.content), 1)
    case "orderedList" => Ended(BlocksAll(n.content), 1)
    case "listItem" => Ended(BlocksAll(n.content), 1)
    case "blockquote" => Ended(BlocksAll(n.content), 2)
    case _ => BlocksAll(n.content)
  }

  function BlocksAll(ns: seq<Node>): seq<Block> {
    if ns == [] then [] else BlocksOf(ns[0]) + BlocksAll(ns[1..])
  }

  lemma {:induction false} SpreadAppend(a: seq<Block>, b: seq<Block>)
    ensures Spread(a + b) == Spread(a) + Spread(b)
  {
    if a == [] {
      assert a + b == b;
    } else {
      assert (a + b)[1..] == a[1..] + b;
      SpreadAppend(a[1..], b);
    }
  }

  lemma NewlinesAdd(n: nat, m: nat)
    ensures Newlines(n + m) == Newlines(n) + Newlines(m)
  {
  }

  lemma SpreadOne(b: Block)
    ensures Spread([b]) == b.text + Newlines(b.breaks)
  {
    assert [b][1..] == [];
  }

  lemma SpreadEnded(blocks: seq<Block>, more: nat)
    requires blocks != []
    ensures Spread(Ended(blocks, more)) == Spread(blocks) + Newlines(more)
  {
    var m := |blocks| - 1;
    var last := blocks[m];
    assert blocks == blocks[..m] + [last];
    SpreadAppend(blocks[..m], [last]);
    SpreadAppend(blocks[..m], [Block(last.text, last.breaks + more)]);
    SpreadOne(last);
    SpreadOne(Block(last.text, last.breaks + more));
    NewlinesAdd(last.breaks, more);
  }

  lemma OnlyText(safe: Href, n: Node)
    requires NodeOk(safe, n, "inline")
    ensures n.kind == "text" && n.content == [] && Plain(n) == n.text && TextOf(n) == n.text
  {
    assert |"inline"| == 6 && |"block"| == 5 && |"listItem"| == 8 && |"list"| == 4;
    assert n.text + "" == n.text;
  }

  lemma {:induction false} InlineParts(safe: Href, ns: seq<Node>)
    requires forall i | 0 <= i < |ns| :: WellFormed(safe, ns[i], "inline")
    ensures PlainAll(ns) == Inline(ns) == TextOfAll(ns)
  {
    if ns != [] {
      assert NodeOk(safe, ns[0], "inline") by {
        assert WellFormed(safe, ns[0], "inline");
      }
      OnlyText(safe, ns[0]);
      assert forall i | 0 <= i < |ns[1..]| :: ns[1..][i] == ns[i + 1];
      InlineParts(safe, ns[1..]);
    }
  }

  predicate BlockPosition(parent: string) { parent == "block" || parent == "listItem" || parent == "list" || parent == "" }

  lemma LeafParts(safe: Href, n: Node, parent: string)
    requires WellFormed(safe, n, parent) && (n.kind == "paragraph" || n.kind == "heading")
    ensures BlocksOf(n) == [Block(Inline(n.content), 2)]
    ensures Plain(n) == Spread(BlocksOf(n)) && TextOf(n) == TextsOf(BlocksOf(n))
  {
    InlineParts(safe, n.content);
    hide WellFormed;
    hide PlainAll;
    hide TextOfAll;
    hide Inline;
    SpreadOne(BlocksOf(n)[0]);
    TextsOne(BlocksOf(n)[0]);
    assert Newlines(2) == "\n\n";
  }

  /** How many breaks a block with blocks inside adds. */
  function More(kind: string): nat {
    match kind
    case "bulletList" => 1
    case "orderedList" => 1
    case "listItem" => 1
    case "blockquote" => 2
    case _ => 0
  }

  lemma PlainOf(n: Node)
    requires n.kind != "text"
    ensures Plain(n) == PlainAll(n.content) + Separator(n.kind) && TextOf(n) == TextOfAll(n.content)
  {
    assert "" + PlainAll(n.content) == PlainAll(n.content) && "" + TextOfAll(n.content) == TextOfAll(n.content);
    hide PlainAll;
    hide TextOfAll;
    hide Separator;
  }

  /** The blocks of a node with blocks inside, and what the compiler adds to its plain text. */
  lemma BlocksInside(safe: Href, n: Node, parent: string)
    requires NodeOk(safe, n, parent) && n.kind != "paragraph" && n.kind != "heading" && n.kind != "text"
    ensures BlocksOf(n) == Ended(BlocksAll(n.content), More(n.kind)) && Separator(n.kind) == Newlines(More(n.kind))
  {
    hide BlocksAll;
    hide MarksOk;
    var blocks := BlocksAll(n.content);
    assert Ended(blocks, 0) == blocks by {
      assert blocks != [] ==> blocks == blocks[..|blocks| - 1] + [blocks[|blocks| - 1]];
    }
    assert Newlines(0) == "" && Newlines(1) == "\n" && Newlines(2) == "\n\n";
    hide Ended;
  }

  lemma NestParts(safe: Href, n: Node, parent: string)
    requires NodeOk(safe, n, parent) && n.kind != "paragraph" && n.kind != "heading" && n.kind != "text" && BlocksAll(n.content) != []
    requires PlainAll(n.content) == Spread(BlocksAll(n.content)) && TextOfAll(n.content) == TextsOf(BlocksAll(n.content))
    ensures BlocksOf(n) == Ended(BlocksAll(n.content), More(n.kind))
    ensures Plain(n) == Spread(BlocksOf(n)) && TextOf(n) == TextsOf(BlocksOf(n))
  {
    hide NodeOk;
    hide Plain;
    hide TextOf;
    hide PlainAll;
    hide TextOfAll;
    hide BlocksOf;
    hide BlocksAll;
    hide Separator;
    hide More;
    hide Spread;
    hide TextsOf;
    hide Ended;
    PlainOf(n);
    BlocksInside(safe, n, parent);
    SpreadEnded(BlocksAll(n.content), More(n.kind));
    TextsEnded(BlocksAll(n.content), More(n.kind));
  }

  lemma BlockKind(safe: Href, n: Node, parent: string)
    requires NodeOk(safe, n, parent) && BlockPosition(parent)
    ensures n.kind != "text"
  {
  }

  /** In a position for blocks: the plain text is the blocks one after the other, and each has at least its two breaks. */
  lemma {:induction false} BlockParts(safe: Href, n: Node, parent: string)
    requires WellFormed(safe, n, parent) && BlockPosition(parent)
    ensures Plain(n) == Spread(BlocksOf(n)) && TextOf(n) == TextsOf(BlocksOf(n)) && BlocksOf(n) != []
    ensures forall i | 0 <= i < |BlocksOf(n)| :: BlocksOf(n)[i].breaks >= 2
    decreases n, 1
  {
    assert NodeOk(safe, n, parent);
    hide WellFormed;
    hide NodeOk;
    hide BlockPosition;
    hide Plain;
    hide TextOf;
    hide Spread;
    hide TextsOf;
    hide BlocksOf;
    hide BlocksAll;
    BlockKind(safe, n, parent);
    if n.kind == "paragraph" || n.kind == "heading" {
      LeafParts(safe, n, parent);
    } else {
      BlockChildren(safe, n, parent);
      NestParts(safe, n, parent);
    }
  }

  lemma {:induction false} BlockChildren(safe: Href, n: Node, parent: string)
    requires WellFormed(safe, n, parent) && BlockPosition(parent) && n.kind != "paragraph" && n.kind != "heading"
    ensures PlainAll(n.content) == Spread(BlocksAll(n.content)) && TextOfAll(n.content) == TextsOf(BlocksAll(n.content))
    ensures BlocksAll(n.content) != []
    ensures forall i | 0 <= i < |BlocksAll(n.content)| :: BlocksAll(n.content)[i].breaks >= 2
    decreases n, 0
  {
    assert NodeOk(safe, n, parent);
    assert n.content != [] && BlockPosition(Inside(n.kind));
    forall i | 0 <= i < |n.content|
      ensures Plain(n.content[i]) == Spread(BlocksOf(n.content[i])) && TextOf(n.content[i]) == TextsOf(BlocksOf(n.content[i]))
      ensures BlocksOf(n.content[i]) != [] && forall j | 0 <= j < |BlocksOf(n.content[i])| :: BlocksOf(n.content[i])[j].breaks >= 2
    {
      BlockParts(safe, n.content[i], Inside(n.kind));
    }
    AllParts(n.content);
  }

  lemma {:induction false} AllParts(ns: seq<Node>)
    requires forall i | 0 <= i < |ns| ::
               && Plain(ns[i]) == Spread(BlocksOf(ns[i])) && TextOf(ns[i]) == TextsOf(BlocksOf(ns[i])) && BlocksOf(ns[i]) != []
               && forall j | 0 <= j < |BlocksOf(ns[i])| :: BlocksOf(ns[i])[j].breaks >= 2
    ensures PlainAll(ns) == Spread(BlocksAll(ns)) && TextOfAll(ns) == TextsOf(BlocksAll(ns))
    ensures ns != [] ==> BlocksAll(ns) != []
    ensures forall i | 0 <= i < |BlocksAll(ns)| :: BlocksAll(ns)[i].breaks >= 2
  {
    hide BlocksOf;
    hide Plain;
    hide TextOf;
    if ns != [] {
      AllParts(ns[1..]);
      SpreadAppend(BlocksOf(ns[0]), BlocksAll(ns[1..]));
      TextsAppend(BlocksOf(ns[0]), BlocksAll(ns[1..]));
    }
  }

  // ----- Nothing but the document's text -----

  /** The texts without their line breaks. */
  function TextsOf(blocks: seq<Block>): string {
    if blocks == [] then "" else blocks[0].text + TextsOf(blocks[1..])
  }

  lemma {:induction false} TextsAppend(a: seq<Block>, b: seq<Block>)
    ensures TextsOf(a + b) == TextsOf(a) + TextsOf(b)
  {
    if a == [] {
      assert a + b == b;
    } else {
      assert (a + b)[1..] == a[1..] + b;
      TextsAppend(a[1..], b);
    }
  }

  lemma TextsOne(b: Block)
    ensures TextsOf([b]) == b.text
  {
    assert [b][1..] == [];
  }

  lemma TextsEnded(blocks: seq<Block>, more: nat)
    requires blocks != []
    ensures TextsOf(Ended(blocks, more)) == TextsOf(blocks)
  {
    var m := |blocks| - 1;
    assert blocks == blocks[..m] + [blocks[m]];
    TextsAppend(blocks[..m], [blocks[m]]);
    TextsAppend(blocks[..m], [Block(blocks[m].text, blocks[m].breaks + more)]);
    TextsOne(blocks[m]);
    TextsOne(Block(blocks[m].text, blocks[m].breaks + more));
  }

  // ----- The plain text of a document -----

  /**
    The plain text of a compiled document: the texts of its paragraphs and
    headings, in order and complete, each followed by at least two line breaks,
    without the white space around the whole.
   */
  lemma PlainTextIs(safe: Href, root: Node, text: string)
    requires WellFormed(safe, root, "") && root.kind == "doc"
    ensures text == M.TrimSpace(Plain(root)) <==> TrimmedOf(Spread(BlocksOf(root)), text)
    ensures TextsOf(BlocksOf(root)) == TextOf(root)
    ensures forall i | 0 <= i < |BlocksOf(root)| :: BlocksOf(root)[i].breaks >= 2
  {
    hide WellFormed;
    hide Plain;
    hide BlocksOf;
    hide M.TrimSpace;
    BlockParts(safe, root, "");
    TrimSpaceIs(Plain(root));
    if TrimmedOf(Spread(BlocksOf(root)), text) {
      TrimmedOnce(Plain(root), text, M.TrimSpace(Plain(root)));
    }
  }

  function Paragraph(text: string): Node { Node("paragraph", None, [Node("text", None, [], text, [])], "", []) }

  /** Two paragraphs are two lines with an empty one in between. */
  lemma TwoParagraphs(p: string, q: string)
    requires p != "" && q != "" && M.Trimmed(p) && M.Trimmed(q)
    ensures M.TrimSpace(Plain(Node("doc", None, [Paragraph(p), Paragraph(q)], "", []))) == p + "\n\n" + q
  {
    var doc := Node("doc", None, [Paragraph(p), Paragraph(q)], "", []);
    ParagraphPlain(p);
    ParagraphPlain(q);
    hide Paragraph;
    var whole := p + "\n\n" + q;
    assert doc.content == [Paragraph(p), Paragraph(q)] && doc.content[1..] == [Paragraph(q)] && doc.content[1..][1..] == [];
    assert PlainAll([Paragraph(q)]) == Plain(Paragraph(q)) + "";
    assert PlainAll(doc.content) == Plain(Paragraph(p)) + PlainAll([Paragraph(q)]);
    assert PlainAll(doc.content) == whole + "\n\n";
    assert Plain(doc) == "" + PlainAll(doc.content) + "";
    assert Plain(doc) == whole + "\n\n";
    assert whole[0] == p[0] && whole[|whole| - 1] == q[|q| - 1];
    assert "" + whole + "\n\n" == Plain(doc) && M.Blank("") && M.Blank("\n\n");
    TrimSpaceIs(Plain(doc));
    TrimmedOnce(Plain(doc), whole, M.TrimSpace(Plain(doc)));
  }

  lemma ParagraphPlain(p: string)
    ensures Plain(Paragraph(p)) == p + "\n\n"
  {
    var text := Node("text", None, [], p, []);
    assert Plain(text) == p;
    assert [text][1..] == [];
    assert p + "" == p && "" + p == p;
  }
}
