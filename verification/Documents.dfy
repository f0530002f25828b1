/**
  Article documents: the node tree an editor sends, when the compiler accepts
  it, and the HTML it becomes. internal/articles/compiler.go.
 */
module Documents {
  import opened Outcomes

  const MAX_DEPTH := 32
  const MAX_NODES := 5000
  const MAX_LINKS := 256

  datatype LinkAttrs = LinkAttrs(href: string, target: Option<string>, rel: Option<string>, cls: Option<string>)

  datatype Mark = Mark(kind: string, attrs: Option<LinkAttrs>)

  /** A decoded documentNode; level is its attrs. */
  datatype Node = Node(kind: string, level: Option<int>, content: seq<Node>, text: string, marks: seq<Mark>)

  /** safeHref: the address as url.URL prints it and whether it is http or https; None is a refusal. */
  type Href = string -> Option<(string, bool)>

  // ----- What is accepted -----

  predicate Bare(n: Node) {
    n.level.None? && n.text == "" && n.marks == []
  }

  predicate MarkOk(safe: Href, m: Mark) {
    if m.kind == "bold" || m.kind == "italic" then m.attrs.None?
    else m.kind == "link" && m.attrs.Some? && safe(m.attrs.value.href).Some?
  }

  predicate MarksOk(safe: Href, marks: seq<Mark>) {
    && (forall i | 0 <= i < |marks| :: MarkOk(safe, marks[i]))
    && (forall i, j | 0 <= i < j < |marks| :: marks[i].kind != marks[j].kind)
  }

  /** The position that the children of a node are in. */
  function Inside(kind: string): string {
    if kind == "doc" || kind == "blockquote" then "block"
    else if kind == "paragraph" || kind == "heading" then "inline"
    else if kind == "bulletList" || kind == "orderedList" then "list"
    else if kind == "listItem" then "listItem"
    else ""
  }

  /** The node's own fields fit its kind and its position. */
  predicate NodeOk(safe: Href, n: Node, parent: string) {
    if n.kind == "doc" then parent == "" && Bare(n) && n.content != []
    else if n.kind == "paragraph" then (parent == "block" || parent == "listItem") && Bare(n)
    else if n.kind == "heading" then
      parent == "block" && (n.level == Some(2) || n.level == Some(3)) && n.text == "" && n.marks == []
    else if n.kind == "bulletList" || n.kind == "orderedList" then
      (parent == "block" || parent == "listItem") && Bare(n) && n.content != []
    else if n.kind == "listItem" then parent == "list" && Bare(n) && n.content != []
    else if n.kind == "blockquote" then parent == "block" && Bare(n) && n.content != []
    else n.kind == "text" && parent == "inline" && n.level.None? && n.content == [] && n.text != "" && MarksOk(safe, n.marks)
  }

  predicate WellFormed(safe: Href, n: Node, parent: string) {
    NodeOk(safe, n, parent) && forall i | 0 <= i < |n.content| :: WellFormed(safe, n.content[i], Inside(n.kind))
  }

  /** Nesting depth; the document itself is at depth 1. */
  function Depth(n: Node): nat {
    1 + DepthAll(n.content)
  }

  function DepthAll(ns: seq<Node>): nat {
    if ns == [] then 0 else if Depth(ns[0]) > DepthAll(ns[1..]) then Depth(ns[0]) else DepthAll(ns[1..])
  }

  function Count(n: Node): nat { 1 + CountAll(n.content) }

  function CountAll(ns: seq<Node>): nat {
    if ns == [] then 0 else Count(ns[0]) + CountAll(ns[1..])
  }

  function LinkMarks(marks: seq<Mark>): nat {
    if marks == [] then 0 else (if marks[0].kind == "link" then 1 else 0) + LinkMarks(marks[1..])
  }

  function Links(n: Node): nat { LinkMarks(n.marks) + LinksAll(n.content) }

  function LinksAll(ns: seq<Node>): nat {
    if ns == [] then 0 else Links(ns[0]) + LinksAll(ns[1..])
  }

  // ----- The tag language -----

  /** A start tag with everything between the brackets, an end tag, or one character of text. */
  datatype Token = Open(inside: string) | Close(name: string) | Char(c: char)

  function EscapeChar(c: char): string {
    if c == '&' then "&amp;" else if c == '<' then "&lt;" else if c == '>' then "&gt;"
    else if c == '\'' then "&#39;" else if c == '"' then "&#34;" else [c]
  }

  /** html.EscapeString */
  function Escape(s: string): string {
    if s == "" then "" else EscapeChar(s[0]) + Escape(s[1..])
  }

  function SpellToken(t: Token): string {
    match t
    case Open(inside) => "<" + inside + ">"
    case Close(name) => "</" + name + ">"
    case Char(c) => EscapeChar(c)
  }

  /** The HTML text of tokens. */
  function Spell(ts: seq<Token>): string {
    if ts == [] then "" else SpellToken(ts[0]) + Spell(ts[1..])
  }

  function Chars(s: string): seq<Token> {
    seq(|s|, i requires 0 <= i < |s| => Char(s[i]))
  }

  function LinkInside(href: string, external: bool, blank: bool): string {
    "a href=\"" + Escape(href) + "\"" +
    if external then " rel=\"noopener noreferrer\"" + (if blank then " target=\"_blank\"" else "") else ""
  }

  predicate Blank(a: LinkAttrs) { a.target == Some("_blank") }

  function MarkInside(safe: Href, m: Mark): string
    requires MarkOk(safe, m)
  {
    if m.kind == "bold" then "strong" else if m.kind == "italic" then "em"
    else
      var (href, external) := safe(m.attrs.value.href).value;
      LinkInside(href, external, Blank(m.attrs.value))
  }

  function MarkName(m: Mark): string {
    if m.kind == "bold" then "strong" else if m.kind == "italic" then "em" else "a"
  }

  /** The text inside its marks, the first mark outermost. */
  function Wrap(safe: Href, marks: seq<Mark>, inner: seq<Token>): seq<Token>
    requires forall i | 0 <= i < |marks| :: MarkOk(safe, marks[i])
  {
    if marks == [] then inner
    else [Open(MarkInside(safe, marks[0]))] + Wrap(safe, marks[1..], inner) + [Close(MarkName(marks[0]))]
  }

  function TagOf(n: Node): string {
    if n.kind == "paragraph" then "p"
    else if n.kind == "heading" then (if n.level == Some(2) then "h2" else "h3")
    else if n.kind == "bulletList" then "ul"
    else if n.kind == "orderedList" then "ol"
    else if n.kind == "listItem" then "li"
    else "blockquote"
  }

  /** The tokens of a node's HTML. */
  function Tokens(safe: Href, n: Node, parent: string): seq<Token>
    requires WellFormed(safe, n, parent)
  {
    if n.kind == "doc" then TokensAll(safe, n.content, Inside(n.kind))
    else if n.kind == "text" then Wrap(safe, n.marks, Chars(n.text))
    else [Open(TagOf(n))] + TokensAll(safe, n.content, Inside(n.kind)) + [Close(TagOf(n))]
  }

  function TokensAll(safe: Href, ns: seq<Node>, parent: string): seq<Token>
    requires forall i | 0 <= i < |ns| :: WellFormed(safe, ns[i], parent)
  {
    if ns == [] then [] else Tokens(safe, ns[0], parent) + TokensAll(safe, ns[1..], parent)
  }

  /** The HTML of a node. */
  function Html(safe: Href, n: Node, parent: string): string
    requires WellFormed(safe, n, parent)
  {
    Spell(Tokens(safe, n, parent))
  }

  /** What the compiler appends to the plain text after the children of a node. */
  function Separator(kind: string): string {
    if kind == "paragraph" || kind == "heading" || kind == "blockquote" then "\n\n"
    else if kind == "bulletList" || kind == "orderedList" || kind == "listItem" then "\n"
    else ""
  }

  function Plain(n: Node): string {
    (if n.kind == "text" then n.text else "") + PlainAll(n.content) + Separator(n.kind)
  }

  function PlainAll(ns: seq<Node>): string {
    if ns == [] then "" else Plain(ns[0]) + PlainAll(ns[1..])
  }

  /** The text nodes, one after the other. */
  function TextOf(n: Node): string {
    (if n.kind == "text" then n.text else "") + TextOfAll(n.content)
  }

  function TextOfAll(ns: seq<Node>): string {
    if ns == [] then "" else TextOf(ns[0]) + TextOfAll(ns[1..])
  }

  lemma {:induction false} SpellAppend(a: seq<Token>, b: seq<Token>)
    ensures Spell(a + b) == Spell(a) + Spell(b)
  {
    if a == [] {
      assert a + b == b;
    } else {
      assert (a + b)[1..] == a[1..] + b;
      SpellAppend(a[1..], b);
    }
  }

  lemma {:induction false} SpellChars(s: string)
    ensures Spell(Chars(s)) == Escape(s)
  {
    if s != "" {
      assert Chars(s)[1..] == Chars(s[1..]);
      SpellChars(s[1..]);
    }
  }

  /** Wrapping in one mark more, as the text of tags. */
  lemma SpellWrap(safe: Href, marks: seq<Mark>, inner: seq<Token>)
    requires (forall i | 0 <= i < |marks| :: MarkOk(safe, marks[i])) && marks != []
    ensures Spell(Wrap(safe, marks, inner)) ==
            "<" + MarkInside(safe, marks[0]) + ">" + Spell(Wrap(safe, marks[1..], inner)) + "</" + MarkName(marks[0]) + ">"
  {
    var open, close := [Open(MarkInside(safe, marks[0]))], [Close(MarkName(marks[0]))];
    SpellAppend(open + Wrap(safe, marks[1..], inner), close);
    SpellAppend(open, Wrap(safe, marks[1..], inner));
    SpellOne(open[0]);
    SpellOne(close[0]);
  }

  lemma SpellOne(t: Token)
    ensures Spell([t]) == SpellToken(t)
  {
    assert [t][1..] == [];
    assert SpellToken(t) + "" == SpellToken(t);
  }
}
