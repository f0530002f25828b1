/** CompileDocument and compileNode, with the counters and the plain text they thread through. internal/articles/compiler.go. */
module Compiler {
  import opened Outcomes
  import opened Documents
  import M = ArticleModel
  import T = PlainText
  import X = Texts

  const MAX_TEXT_BYTES := 512 * 1024

  class CompileState {
    var nodes: nat
    var links: nat
    var plain: string

    constructor ()
      ensures nodes == 0 && links == 0 && plain == ""
    {
      nodes, links, plain := 0, 0, "";
    }
  }

  // ----- Sums over children -----

  lemma {:induction false} SumsAppend(a: seq<Node>, b: seq<Node>)
    ensures CountAll(a + b) == CountAll(a) + CountAll(b) && LinksAll(a + b) == LinksAll(a) + LinksAll(b)
    ensures DepthAll(a + b) == (if DepthAll(a) > DepthAll(b) then DepthAll(a) else DepthAll(b))
    ensures PlainAll(a + b) == PlainAll(a) + PlainAll(b)
  {
    if a == [] {
      assert a + b == b;
      assert "" + PlainAll(b) == PlainAll(b);
    } else {
      assert (a + b)[1..] == a[1..] + b;
      SumsAppend(a[1..], b);
      assert Plain(a[0]) + (PlainAll(a[1..]) + PlainAll(b)) == (Plain(a[0]) + PlainAll(a[1..])) + PlainAll(b);
    }
  }

  lemma SumsNext(ns: seq<Node>, i: nat)
    requires i < |ns|
    ensures CountAll(ns[..i + 1]) == CountAll(ns[..i]) + Count(ns[i]) <= CountAll(ns)
    ensures LinksAll(ns[..i + 1]) == LinksAll(ns[..i]) + Links(ns[i]) <= LinksAll(ns)
    ensures DepthAll(ns[..i + 1]) == (if DepthAll(ns[..i]) > Depth(ns[i]) then DepthAll(ns[..i]) else Depth(ns[i])) <= DepthAll(ns)
    ensures PlainAll(ns[..i + 1]) == PlainAll(ns[..i]) + Plain(ns[i])
  {
    hide Count;
    hide Links;
    hide Depth;
    hide Plain;
    hide CountAll;
    hide LinksAll;
    hide DepthAll;
    hide PlainAll;
    assert ns[..i + 1] == ns[..i] + [ns[i]];
    SumsAppend(ns[..i], [ns[i]]);
    SumsOne(ns[i]);
    assert ns == ns[..i + 1] + ns[i + 1..];
    SumsAppend(ns[..i + 1], ns[i + 1..]);
  }

  lemma SumsOne(n: Node)
    ensures CountAll([n]) == Count(n) && LinksAll([n]) == Links(n) && DepthAll([n]) == Depth(n) && PlainAll([n]) == Plain(n)
  {
    hide Count;
    hide Links;
    hide Depth;
    hide Plain;
    assert [n][1..] == [];
    assert Plain(n) + "" == Plain(n);
  }

  lemma {:induction false} TokensAppend(safe: Href, a: seq<Node>, b: seq<Node>, parent: string)
    requires forall i | 0 <= i < |a| :: WellFormed(safe, a[i], parent)
    requires forall i | 0 <= i < |b| :: WellFormed(safe, b[i], parent)
    ensures forall i | 0 <= i < |a + b| :: WellFormed(safe, (a + b)[i], parent)
    ensures TokensAll(safe, a + b, parent) == TokensAll(safe, a, parent) + TokensAll(safe, b, parent)
  {
    hide WellFormed;
    hide Tokens;
    if a == [] {
      assert a + b == b;
    } else {
      assert (a + b)[1..] == a[1..] + b;
      TokensAppend(safe, a[1..], b, parent);
    }
  }

  lemma SpellNext(safe: Href, ns: seq<Node>, i: nat, parent: string)
    requires i < |ns| && forall j | 0 <= j <= i :: WellFormed(safe, ns[j], parent)
    ensures Spell(TokensAll(safe, ns[..i + 1], parent)) == Spell(TokensAll(safe, ns[..i], parent)) + Html(safe, ns[i], parent)
  {
    hide WellFormed;
    hide Tokens;
    assert ns[..i + 1] == ns[..i] + [ns[i]];
    TokensAppend(safe, ns[..i], [ns[i]], parent);
    assert [ns[i]][1..] == [];
    assert Tokens(safe, ns[i], parent) + [] == Tokens(safe, ns[i], parent);
    SpellAppend(TokensAll(safe, ns[..i], parent), Tokens(safe, ns[i], parent));
  }

  // ----- Compiling -----

  /** The node is accepted in this position, at this depth, after so many nodes and links. */
  ghost predicate Accepts(safe: Href, n: Node, parent: string, depth: nat, nodes: nat, links: nat) {
    WellFormed(safe, n, parent) && depth + Depth(n) - 1 <= MAX_DEPTH && nodes + Count(n) <= MAX_NODES && links + Links(n) <= MAX_LINKS
  }

  ghost predicate AcceptsAll(safe: Href, ns: seq<Node>, parent: string, depth: nat, nodes: nat, links: nat) {
    && (forall i | 0 <= i < |ns| :: WellFormed(safe, ns[i], parent))
    && depth + DepthAll(ns) - 1 <= MAX_DEPTH && nodes + CountAll(ns) <= MAX_NODES && links + LinksAll(ns) <= MAX_LINKS
  }

  /** The loop over the marks of a text node, from the last to the first. */
  method WrapText(safe: Href, n: Node, state: CompileState) returns (r: Result<string>)
    modifies state`links
    requires state.links <= MAX_LINKS
    ensures r.Ok? <==> MarksOk(safe, n.marks) && old(state.links) + LinkMarks(n.marks) <= MAX_LINKS
    ensures r.Ok? ==> r.value == Spell(Wrap(safe, n.marks, Chars(n.text))) && state.links == old(state.links) + LinkMarks(n.marks)
  {
    hide Wrap;
    hide Spell;
    hide LinkMarks;
    hide MarksOk;
    hide MarkOk;
    hide MarkInside;
    WrapNothing(safe, n.text);
    var out := Escape(n.text);
    var seen: set<string> := {};
    var i := |n.marks|;
    assert n.marks[i..] == [];
    while i > 0
      invariant 0 <= i <= |n.marks| && MarksOk(safe, n.marks[i..]) && (forall j | i <= j < |n.marks| :: MarkOk(safe, n.marks[j]))
      invariant forall k :: k in seen <==> exists j :: i <= j < |n.marks| && n.marks[j].kind == k
      invariant state.links == old(state.links) + LinkMarks(n.marks[i..])
      invariant LinkMarks(n.marks[i..]) > 0 ==> state.links <= MAX_LINKS
      invariant out == Spell(Wrap(safe, n.marks[i..], Chars(n.text)))
    {
      i := i - 1;
      var mark := n.marks[i];
      LinkMarksMore(n.marks, i);
      MarksOkAt(safe, n.marks, i);
      if mark.kind in seen {
        return Err(Validation);
      }
      seen := seen + {mark.kind};
      if mark.kind == "link" {
        state.links := state.links + 1;
        if state.links > MAX_LINKS {
          return Err(Validation);
        }
      }
      var ok := CheckMark(safe, mark);
      if !ok {
        return Err(Validation);
      }
      MarksMore(safe, n.marks, i);
      assert n.marks[i..][0] == mark && n.marks[i..][1..] == n.marks[i + 1..];
      SpellWrap(safe, n.marks[i..], Chars(n.text));
      out := "<" + MarkInside(safe, mark) + ">" + out + "</" + MarkName(mark) + ">";
    }
    assert n.marks[0..] == n.marks;
    return Ok(out);
  }

  /** The checks of one mark beyond the counting. */
  method CheckMark(safe: Href, mark: Mark) returns (ok: bool)
    ensures ok <==> MarkOk(safe, mark)
  {
    if mark.kind == "bold" || mark.kind == "italic" {
      return mark.attrs.None?;
    }
    if mark.kind == "link" {
      if mark.attrs.None? {
        return false;
      }
      return safe(mark.attrs.value.href).Some?;
    }
    return false;
  }

  lemma WrapNothing(safe: Href, text: string)
    ensures MarksOk(safe, []) && LinkMarks([]) == 0 && Spell(Wrap(safe, [], Chars(text))) == Escape(text)
  {
    SpellChars(text);
  }

  lemma MarksOkAt(safe: Href, marks: seq<Mark>, i: nat)
    requires i < |marks|
    ensures MarksOk(safe, marks) ==> MarkOk(safe, marks[i]) && forall j | i < j < |marks| :: marks[j].kind != marks[i].kind
  {
  }

  lemma LinkMarksMore(marks: seq<Mark>, i: nat)
    requires i < |marks|
    ensures LinkMarks(marks[i..]) == (if marks[i].kind == "link" then 1 else 0) + LinkMarks(marks[i + 1..]) <= LinkMarks(marks)
  {
    assert marks[i..][1..] == marks[i + 1..];
    LinkMarksSuffix(marks, i);
  }

  lemma {:induction false} LinkMarksSuffix(marks: seq<Mark>, i: nat)
    requires i <= |marks|
    ensures LinkMarks(marks[i..]) <= LinkMarks(marks)
  {
    if i == 0 {
      assert marks[0..] == marks;
    } else {
      LinkMarksSuffix(marks[1..], i - 1);
      assert marks[1..][i - 1..] == marks[i..];
    }
  }

  lemma MarksMore(safe: Href, marks: seq<Mark>, i: nat)
    requires i < |marks| && MarksOk(safe, marks[i + 1..]) && MarkOk(safe, marks[i])
    requires forall j | i < j < |marks| :: marks[j].kind != marks[i].kind
    ensures MarksOk(safe, marks[i..])
  {
    var s := marks[i..];
    forall j | 0 < j < |s| ensures s[j] == marks[i + 1..][j - 1] && s[j] == marks[i + j] {
    }
  }

  /** A text node: its own fields are all there is. */
  lemma TextParts(safe: Href, n: Node, parent: string)
    requires n.kind == "text" && n.content == []
    ensures WellFormed(safe, n, parent) <==> NodeOk(safe, n, parent)
    ensures Depth(n) == 1 && Count(n) == 1 && Links(n) == LinkMarks(n.marks) && Plain(n) == n.text
    ensures WellFormed(safe, n, parent) ==> Html(safe, n, parent) == Spell(Wrap(safe, n.marks, Chars(n.text)))
  {
    assert n.text + "" + "" == n.text;
  }

  /** Any other node: its fields fit, and the rest is in the children. */
  lemma ElementParts(safe: Href, n: Node, parent: string)
    requires NodeOk(safe, n, parent) && n.kind != "text"
    ensures WellFormed(safe, n, parent) <==> forall i | 0 <= i < |n.content| :: WellFormed(safe, n.content[i], Inside(n.kind))
    ensures Depth(n) == 1 + DepthAll(n.content) && Count(n) == 1 + CountAll(n.content) && Links(n) == LinksAll(n.content)
    ensures Plain(n) == PlainAll(n.content) + Separator(n.kind)
    ensures WellFormed(safe, n, parent) ==>
              Html(safe, n, parent) ==
              if n.kind == "doc" then Spell(TokensAll(safe, n.content, Inside(n.kind)))
              else "<" + TagOf(n) + ">" + Spell(TokensAll(safe, n.content, Inside(n.kind))) + "</" + TagOf(n) + ">"
  {
    hide TokensAll;
    hide MarksOk;
    hide DepthAll;
    hide CountAll;
    hide LinksAll;
    hide PlainAll;
    assert n.marks == [] && LinkMarks([]) == 0;
    assert "" + PlainAll(n.content) == PlainAll(n.content);
    if WellFormed(safe, n, parent) && n.kind != "doc" {
      SpellElement(TagOf(n), TokensAll(safe, n.content, Inside(n.kind)));
    }
  }

  lemma SpellElement(tag: string, inner: seq<Token>)
    ensures Spell([Open(tag)] + inner + [Close(tag)]) == "<" + tag + ">" + Spell(inner) + "</" + tag + ">"
  {
    hide Spell;
    SpellAppend([Open(tag)] + inner, [Close(tag)]);
    SpellAppend([Open(tag)], inner);
    SpellOne(Open(tag));
    SpellOne(Close(tag));
  }

  /** The children closure of compileNode. */
  method CompileChildren(safe: Href, n: Node, depth: nat, allowed: string, state: CompileState) returns (r: Result<string>)
    requires 1 <= depth <= MAX_DEPTH + 1 && state.nodes <= MAX_NODES && state.links <= MAX_LINKS
    modifies state
    ensures r.Ok? <==> AcceptsAll(safe, n.content, allowed, depth, old(state.nodes), old(state.links))
    ensures r.Ok? ==> r.value == Spell(TokensAll(safe, n.content, allowed)) && state.plain == old(state.plain) + PlainAll(n.content)
    ensures r.Ok? ==> state.nodes == old(state.nodes) + CountAll(n.content) && state.links == old(state.links) + LinksAll(n.content)
    decreases n, 0
  {
    hide Spell;
    hide WellFormed;
    hide Tokens;
    hide Count;
    hide Links;
    hide Depth;
    hide Plain;
    hide Html;
    var b := "";
    NoChildren(safe, n.content, allowed);
    for i := 0 to |n.content|
      invariant AcceptsAll(safe, n.content[..i], allowed, depth, old(state.nodes), old(state.links))
      invariant b == Spell(TokensAll(safe, n.content[..i], allowed)) && state.plain == old(state.plain) + PlainAll(n.content[..i])
      invariant state.nodes == old(state.nodes) + CountAll(n.content[..i]) && state.links == old(state.links) + LinksAll(n.content[..i])
    {
      SumsNext(n.content, i);
      assert n.content[..i + 1][i] == n.content[i];
      ghost var nodes, links := state.nodes, state.links;
      var out := CompileNode(safe, n.content[i], depth, allowed, state);
      if out.Err? {
        return Err(out.error);
      }
      assert forall j | 0 <= j < i :: n.content[..i][j] == n.content[j];
      SpellNext(safe, n.content, i, allowed);
      b := b + out.value;
      assert forall j | 0 <= j < i :: n.content[..i + 1][j] == n.content[j];
    }
    assert n.content[..|n.content|] == n.content;
    return Ok(b);
  }

  lemma NoChildren(safe: Href, ns: seq<Node>, parent: string)
    ensures ns[..0] == [] && Spell(TokensAll(safe, [], parent)) == "" && PlainAll([]) == ""
    ensures CountAll([]) == 0 && LinksAll([]) == 0 && DepthAll([]) == 0
  {
  }

  /** compileNode */
  method CompileNode(safe: Href, n: Node, depth: nat, parent: string, state: CompileState) returns (r: Result<string>)
    requires depth >= 1 && state.links <= MAX_LINKS
    modifies state
    ensures r.Ok? <==> Accepts(safe, n, parent, depth, old(state.nodes), old(state.links))
    ensures r.Ok? ==> r.value == Html(safe, n, parent) && state.plain == old(state.plain) + Plain(n)
    ensures r.Ok? ==> state.nodes == old(state.nodes) + Count(n) && state.links == old(state.links) + Links(n)
    decreases n, 1
  {
    hide Spell;
    hide Wrap;
    hide MarksOk;
    hide DepthAll;
    hide CountAll;
    hide LinksAll;
    hide LinkMarks;
    hide PlainAll;
    hide TokensAll;
    state.nodes := state.nodes + 1;
    if depth > MAX_DEPTH || state.nodes > MAX_NODES {
      return Err(Validation);
    }
    var checked := CheckNode(safe, n, parent);
    if !checked {
      return Err(Validation);
    }
    if n.kind == "text" {
      state.plain := state.plain + n.text;
      r := WrapText(safe, n, state);
      TextParts(safe, n, parent);
      return;
    }
    var children := CompileChildren(safe, n, depth + 1, Inside(n.kind), state);
    ElementParts(safe, n, parent);
    if children.Err? {
      return Err(children.error);
    }
    state.plain := state.plain + Separator(n.kind);
    if n.kind == "doc" {
      return Ok(children.value);
    }
    return Ok("<" + TagOf(n) + ">" + children.value + "</" + TagOf(n) + ">");
  }

  /** The checks of a node's own fields, except for its marks. */
  method CheckNode(safe: Href, n: Node, parent: string) returns (ok: bool)
    ensures ok && n.kind != "text" ==> NodeOk(safe, n, parent)
    ensures ok && n.kind == "text" ==> (NodeOk(safe, n, parent) <==> MarksOk(safe, n.marks)) && n.content == []
    ensures !ok ==> !NodeOk(safe, n, parent)
  {
    match n.kind
    case "doc" => return parent == "" && Bare(n) && n.content != [];
    case "paragraph" => return (parent == "block" || parent == "listItem") && Bare(n);
    case "heading" => return parent == "block" && (n.level == Some(2) || n.level == Some(3)) && n.text == "" && n.marks == [];
    case "bulletList" => return (parent == "block" || parent == "listItem") && Bare(n) && n.content != [];
    case "orderedList" => return (parent == "block" || parent == "listItem") && Bare(n) && n.content != [];
    case "listItem" => return parent == "list" && Bare(n) && n.content != [];
    case "blockquote" => return parent == "block" && Bare(n) && n.content != [];
    case "text" => return parent == "inline" && n.level.None? && n.content == [] && n.text != "";
    case _ => return false;
  }

  datatype Body = Body(html: string, plainText: string)

  /** The tree is a document, well formed (Schema has the grammar), within the limits on nodes, depth and links, and its text is neither blank nor too long. */
  ghost predicate Compiles(safe: Href, root: Node, size: string -> nat) {
    && root.kind == "doc" && WellFormed(safe, root, "")
    && Depth(root) <= 32 && Count(root) <= 5000 && Links(root) <= 256
    && !M.Blank(T.Spread(T.BlocksOf(root)))
    && size(Html(safe, root, "")) <= 524_288 && size(M.TrimSpace(Plain(root))) <= 524_288
  }

  /** The text is blank exactly if nothing of it is left after trimming. */
  lemma TextThere(safe: Href, root: Node)
    requires WellFormed(safe, root, "") && root.kind == "doc"
    ensures M.TrimSpace(Plain(root)) == "" <==> M.Blank(T.Spread(T.BlocksOf(root)))
  {
    T.BlockParts(safe, root, "");
    hide WellFormed;
    hide T.BlocksOf;
    hide T.Spread;
    hide Plain;
    hide M.TrimSpace;
    hide M.Blank;
    X.BlankTrims(Plain(root));
  }

  /**
    CompileDocument from the decoded tree on; size gives the length of a text in
    bytes. The document is accepted exactly when the tree is well formed, within
    the limits on nodes, depth and links, and its text is neither blank nor too long.
   */
  method CompileDocument(safe: Href, root: Node, size: string -> nat) returns (r: Result<Body>)
    ensures r.Ok? <==> Compiles(safe, root, size)
    ensures r.Ok? ==> r.value == Body(Html(safe, root, ""), M.TrimSpace(Plain(root)))
    ensures r.Ok? ==> X.TrimmedOf(T.Spread(T.BlocksOf(root)), r.value.plainText)
    ensures r.Err? ==> r.error == Validation
  {
    hide WellFormed;
    hide Html;
    hide Plain;
    hide Depth;
    hide Count;
    hide Links;
    hide T.Spread;
    hide T.BlocksOf;
    hide M.Blank;
    hide M.TrimSpace;
    var state := new CompileState();
    var markup := CompileNode(safe, root, 1, "", state);
    if markup.Err? {
      return Err(Validation);
    }
    assert "" + Plain(root) == Plain(root);
    if root.kind == "doc" {
      TextThere(safe, root);
    }
    if root.kind != "doc" || M.TrimSpace(state.plain) == "" {
      return Err(Validation);
    }
    var plain := M.TrimSpace(state.plain);
    if size(markup.value) > MAX_TEXT_BYTES || size(plain) > MAX_TEXT_BYTES {
      return Err(Validation);
    }
    T.PlainTextIs(safe, root, plain);
    return Ok(Body(markup.value, plain));
  }
}
