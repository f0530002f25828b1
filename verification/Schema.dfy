/**
  The grammar of article documents: which nodes may stand inside which, and what
  a node may carry. The compiler checks it on the way down, by the position that
  it hands to the children. internal/articles/compiler.go.
 */
module Schema {
  import opened Outcomes
  import opened Documents

  /** The kinds of the nodes that may stand inside a node of this kind. */
  function Children(kind: string): set<string> {
    if kind == "doc" || kind == "blockquote" then {"paragraph", "heading", "bulletList", "orderedList", "blockquote"}
    else if kind == "paragraph" || kind == "heading" then {"text"}
    else if kind == "bulletList" || kind == "orderedList" then {"listItem"}
    else if kind == "listItem" then {"paragraph", "bulletList", "orderedList"}
    else {}
  }

  /** Bold and italic carry nothing, a link carries an address that is safe. */
  predicate MarkFits(safe: Href, m: Mark) {
    || (m.kind in {"bold", "italic"} && m.attrs == None)
    || (m.kind == "link" && m.attrs.Some? && safe(m.attrs.value.href) != None)
  }

  /** Only a heading has a level, only a text has text and marks, and only a paragraph, a heading and a text may be empty. */
  predicate Carries(safe: Href, n: Node) {
    && (if n.kind == "heading" then n.level in {Some(2), Some(3)} else n.level == None)
    && (if n.kind == "text" then n.text != "" else n.text == "" && n.marks == [])
    && (forall m | m in n.marks :: MarkFits(safe, m))
    && (forall i, j | 0 <= i < |n.marks| && 0 <= j < |n.marks| && n.marks[i].kind == n.marks[j].kind :: i == j)
    && (n.content == [] ==> n.kind in {"paragraph", "heading", "text"})
  }

  predicate Fits(safe: Href, n: Node) {
    Carries(safe, n) && forall i | 0 <= i < |n.content| :: n.content[i].kind in Children(n.kind) && Fits(safe, n.content[i])
  }

  lemma MarksFit(safe: Href, marks: seq<Mark>)
    ensures MarksOk(safe, marks) <==>
            && (forall m | m in marks :: MarkFits(safe, m))
            && (forall i, j | 0 <= i < |marks| && 0 <= j < |marks| && marks[i].kind == marks[j].kind :: i == j)
  {
    forall m ensures MarkFits(safe, m) <==> MarkOk(safe, m) {
    }
    if forall m | m in marks :: MarkFits(safe, m) {
      forall i | 0 <= i < |marks| ensures MarkOk(safe, marks[i]) {
        assert marks[i] in marks;
      }
    }
    hide MarkFits;
    hide MarkOk;
  }

  /** The positions are four different ones. */
  lemma Positions(kind: string)
    ensures Inside(kind) in {"block", "inline", "list", "listItem", ""}
    ensures |"block"| == 5 && |"inline"| == 6 && |"list"| == 4 && |"listItem"| == 8
  {
  }

  /** The node's own fields, inside a node of this kind. */
  lemma NodeFits(safe: Href, n: Node, outer: string)
    requires Children(outer) != {}
    ensures NodeOk(safe, n, Inside(outer)) && (n.kind == "text" ==> n.content == []) <==>
            n.kind in Children(outer) && Carries(safe, n) && (n.kind == "text" ==> n.content == [])
  {
    Positions(outer);
    MarksFit(safe, n.marks);
    hide MarksOk;
    hide MarkFits;
  }

  lemma RootFits(safe: Href, n: Node)
    ensures NodeOk(safe, n, "") <==> n.kind == "doc" && Carries(safe, n)
  {
    Positions("doc");
    MarksFit(safe, n.marks);
    hide MarksOk;
    hide MarkFits;
  }

  lemma TextIsLast(safe: Href, n: Node, parent: string)
    requires n.kind == "text"
    ensures NodeOk(safe, n, parent) ==> n.content == []
    ensures Fits(safe, n) ==> n.content == []
  {
    assert Children("text") == {};
    var first := if n.content == [] then n else n.content[0];
    assert n.content == [] || first.kind !in Children(n.kind);
    hide MarksOk;
    hide Carries;
  }

  lemma {:induction false} InsideFits(safe: Href, n: Node, outer: string)
    requires Children(outer) != {}
    ensures WellFormed(safe, n, Inside(outer)) <==> n.kind in Children(outer) && Fits(safe, n)
    decreases n
  {
    NodeFits(safe, n, outer);
    if n.kind == "text" {
      TextIsLast(safe, n, Inside(outer));
    } else if n.kind in Children(outer) {
      Nested(outer, n.kind);
      forall i | 0 <= i < |n.content|
        ensures WellFormed(safe, n.content[i], Inside(n.kind)) <==> n.content[i].kind in Children(n.kind) && Fits(safe, n.content[i])
      {
        InsideFits(safe, n.content[i], n.kind);
      }
    }
    hide NodeOk;
    hide Carries;
    hide Inside;
    hide Children;
  }

  lemma Nested(outer: string, kind: string)
    requires kind in Children(outer) && kind != "text"
    ensures Children(kind) != {}
  {
    assert "paragraph" in Children("listItem") && "text" in Children("paragraph") && "listItem" in Children("bulletList");
    assert "paragraph" in Children("blockquote");
  }

  /** The compiler's checks by position accept exactly the trees of the grammar. */
  lemma SchemaExactly(safe: Href, root: Node)
    ensures WellFormed(safe, root, "") <==> root.kind == "doc" && Fits(safe, root)
  {
    RootFits(safe, root);
    if root.kind == "doc" {
      assert "paragraph" in Children("doc");
      forall i | 0 <= i < |root.content|
        ensures WellFormed(safe, root.content[i], Inside("doc")) <==> root.content[i].kind in Children("doc") && Fits(safe, root.content[i])
      {
        InsideFits(safe, root.content[i], "doc");
      }
    }
    hide NodeOk;
    hide Carries;
    hide Inside;
    hide Children;
  }
}
