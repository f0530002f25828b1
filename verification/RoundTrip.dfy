/**
  The document can be read back from its HTML: a reader of the tag language,
  and the proof that it undoes the compiler. internal/articles/compiler.go.
 */
module RoundTrip {
  import opened Outcomes
  import opened Documents

  // ----- Reading tokens -----

  predicate StartsWith(s: string, p: string) { |s| >= |p| && s[..|p|] == p }

  /** The character at the start of a text, with what follows it. */
  function ReadChar(s: string): (char, string)
    requires s != ""
    ensures |ReadChar(s).1| < |s|
  {
    if StartsWith(s, "&amp;") then ('&', s[5..])
    else if StartsWith(s, "&lt;") then ('<', s[4..])
    else if StartsWith(s, "&gt;") then ('>', s[4..])
    else if StartsWith(s, "&#39;") then ('\'', s[5..])
    else if StartsWith(s, "&#34;") then ('"', s[5..])
    else (s[0], s[1..])
  }

  function Unescape(s: string): string
    decreases |s|
  {
    if s == "" then "" else [ReadChar(s).0] + Unescape(ReadChar(s).1)
  }

  /** What stands before the first occurrence of c, if there is one. */
  function Until(s: string, c: char): Option<nat> {
    if s == "" then None
    else if s[0] == c then Some(0)
    else
      match Until(s[1..], c)
      case None => None
      case Some(i) => Some(i + 1)
  }

  lemma {:induction false} UntilBound(s: string, c: char)
    ensures Until(s, c).Some? ==> Until(s, c).value < |s|
  {
    if s != "" && s[0] != c {
      UntilBound(s[1..], c);
    }
  }

  function Lex(s: string): Option<seq<Token>>
    decreases |s|
  {
    if s == "" then Some([])
    else if s[0] == '<' then
      match Until(s, '>')
      case None => None
      case Some(i) =>
        UntilBound(s, '>');
        var inside := if i == 0 then "" else s[1..i];
        (match Lex(s[i + 1..])
         case None => None
         case Some(ts) => Some([if StartsWith(inside, "/") then Close(inside[1..]) else Open(inside)] + ts))
    else
      match Lex(ReadChar(s).1)
      case None => None
      case Some(ts) => Some([Char(ReadChar(s).0)] + ts)
  }

  // ----- Reading nodes -----

  function TextNode(text: string, marks: seq<Mark>): Node { Node("text", None, [], text, marks) }

  predicate PlainText(n: Node) { n.kind == "text" && n.marks == [] }

  /** Put a node in front, joining unmarked text with unmarked text. */
  function Join(n: Node, ns: seq<Node>): seq<Node> {
    if PlainText(n) && ns != [] && PlainText(ns[0]) then [TextNode(n.text + ns[0].text, [])] + ns[1..]
    else [n] + ns
  }

  const LINK_START := "a href=\""
  const LINK_REL := " rel=\"noopener noreferrer\""
  const LINK_BLANK := " target=\"_blank\""

  /** The mark that the inside of a start tag stands for. */
  function ReadMark(inside: string): Option<Mark> {
    if inside == "strong" then Some(Mark("bold", None))
    else if inside == "em" then Some(Mark("italic", None))
    else if StartsWith(inside, LINK_START) then
      var rest := inside[|LINK_START|..];
      match Until(rest, '"')
      case None => None
      case Some(i) =>
        UntilBound(rest, '"');
        var href, attrs := Unescape(rest[..i]), rest[i + 1..];
        if attrs == "" then Some(Mark("link", Some(LinkAttrs(href, None, None, None))))
        else if attrs == LINK_REL then Some(Mark("link", Some(LinkAttrs(href, None, Some("noopener noreferrer"), None))))
        else if attrs == LINK_REL + LINK_BLANK then
          Some(Mark("link", Some(LinkAttrs(href, Some("_blank"), Some("noopener noreferrer"), None))))
        else None
    else None
  }

  /** The element with this start tag and these contents. */
  function Build(inside: string, inner: seq<Node>): Option<Node> {
    if inside == "p" then Some(Node("paragraph", None, inner, "", []))
    else if inside == "h2" then Some(Node("heading", Some(2), inner, "", []))
    else if inside == "h3" then Some(Node("heading", Some(3), inner, "", []))
    else if inside == "ul" then Some(Node("bulletList", None, inner, "", []))
    else if inside == "ol" then Some(Node("orderedList", None, inner, "", []))
    else if inside == "li" then Some(Node("listItem", None, inner, "", []))
    else if inside == "blockquote" then Some(Node("blockquote", None, inner, "", []))
    else if ReadMark(inside).Some? && |inner| == 1 && inner[0].kind == "text" then
      Some(TextNode(inner[0].text, [ReadMark(inside).value] + inner[0].marks))
    else None
  }

  /** The name of the end tag that a start tag needs. */
  function NameOf(inside: string): string {
    if StartsWith(inside, LINK_START) then "a" else inside
  }

  /** The nodes up to the end, or up to an end tag that is not theirs, and the rest. */
  function Parse(ts: seq<Token>): (r: Option<(seq<Node>, seq<Token>)>)
    ensures r.Some? ==> |r.value.1| <= |ts|
    decreases |ts|
  {
    if ts == [] then Some(([], ts))
    else
      match ts[0]
      case Close(_) => Some(([], ts))
      case Char(c) =>
        (match Parse(ts[1..])
         case None => None
         case Some(r) => Some((Join(TextNode([c], []), r.0), r.1)))
      case Open(inside) =>
        (match Parse(ts[1..])
         case None => None
         case Some(r) =>
           if r.1 == [] || r.1[0] != Close(NameOf(inside)) || Build(inside, r.0).None? then None
           else
             match Parse(r.1[1..])
             case None => None
             case Some(after) => Some(([Build(inside, r.0).value] + after.0, after.1)))
  }

  /** Reading a whole document. */
  function ReadHtml(html: string): Option<Node> {
    match Lex(html)
    case None => None
    case Some(ts) =>
      match Parse(ts)
      case None => None
      case Some(r) => if r.1 == [] then Some(Node("doc", None, r.0, "", [])) else None
  }

  // ----- The canonical document -----

  /** Links as they come out: the printed address, rel for a web address, and target only if it opens a new page. */
  function CanonMark(safe: Href, m: Mark): Mark
    requires MarkOk(safe, m)
  {
    if m.kind != "link" then m
    else
      var (href, external) := safe(m.attrs.value.href).value;
      Mark("link", Some(LinkAttrs(href, if external && Blank(m.attrs.value) then Some("_blank") else None,
                                  if external then Some("noopener noreferrer") else None, None)))
  }

  function CanonMarks(safe: Href, marks: seq<Mark>): seq<Mark>
    requires forall i | 0 <= i < |marks| :: MarkOk(safe, marks[i])
  {
    if marks == [] then [] else [CanonMark(safe, marks[0])] + CanonMarks(safe, marks[1..])
  }

  /** The document up to what HTML does not tell: adjacent unmarked texts are one. */
  function Canon(safe: Href, n: Node, parent: string): Node
    requires WellFormed(safe, n, parent)
  {
    if n.kind == "text" then TextNode(n.text, CanonMarks(safe, n.marks))
    else n.(content := CanonAll(safe, n.content, Inside(n.kind)))
  }

  function CanonAll(safe: Href, ns: seq<Node>, parent: string): seq<Node>
    requires forall i | 0 <= i < |ns| :: WellFormed(safe, ns[i], parent)
  {
    if ns == [] then [] else Join(Canon(safe, ns[0], parent), CanonAll(safe, ns[1..], parent))
  }

  // ----- Characters and tags read back -----

  lemma ReadEscaped(c: char, s: string)
    ensures EscapeChar(c) + s != "" && ReadChar(EscapeChar(c) + s) == (c, s)
    ensures (EscapeChar(c) + s)[0] != '<'
  {
    var t := EscapeChar(c) + s;
    assert t[|EscapeChar(c)|..] == s;
    if c == '&' {
      assert t[..5] == "&amp;";
    } else if c == '<' {
      assert t[..4] == "&lt;" && t[1] == 'l';
    } else if c == '>' {
      assert t[..4] == "&gt;" && t[1] == 'g';
    } else if c == '\'' {
      assert t[..5] == "&#39;" && t[1] == '#' && t[2] == '3' && t[3] == '9';
    } else if c == '"' {
      assert t[..5] == "&#34;" && t[1] == '#' && t[2] == '3' && t[3] == '4';
    } else {
      assert t[0] == c;
    }
  }

  lemma {:induction false} UnescapeEscape(s: string)
    ensures Unescape(Escape(s)) == s
  {
    if s != "" {
      ReadEscaped(s[0], Escape(s[1..]));
      UnescapeEscape(s[1..]);
    }
  }

  predicate Free(s: string, c: char) { forall i | 0 <= i < |s| :: s[i] != c }

  lemma {:induction false} EscapeFree(s: string)
    ensures Free(Escape(s), '"') && Free(Escape(s), '>')
  {
    if s != "" {
      EscapeFree(s[1..]);
    }
  }

  lemma {:induction false} UntilFirst(a: string, c: char, b: string)
    requires Free(a, c)
    ensures Until(a + [c] + b, c) == Some(|a|)
  {
    var s := a + [c] + b;
    if a != "" {
      assert s[0] == a[0] && s[1..] == a[1..] + [c] + b;
      UntilFirst(a[1..], c, b);
    } else {
      assert s[0] == c;
    }
  }

  /** Tokens that can be told apart in the text. */
  predicate Clean(t: Token) {
    match t
    case Open(inside) => inside != "" && inside[0] != '/' && Free(inside, '>')
    case Close(name) => Free(name, '>')
    case Char(_) => true
  }

  predicate AllClean(ts: seq<Token>) { forall i | 0 <= i < |ts| :: Clean(ts[i]) }

  lemma LexTag(inside: string, rest: string)
    requires Free(inside, '>') && inside != ""
    ensures Lex("<" + inside + ">" + rest) ==
            match Lex(rest)
            case None => None
            case Some(ts) => Some([if StartsWith(inside, "/") then Close(inside[1..]) else Open(inside)] + ts)
  {
    var s := "<" + inside + ">" + rest;
    assert s == ("<" + inside) + ['>'] + rest;
    UntilFirst("<" + inside, '>', rest);
    assert s[1..1 + |inside|] == inside && s[|inside| + 2..] == rest;
  }

  lemma LexChar(c: char, rest: string)
    ensures Lex(EscapeChar(c) + rest) ==
            match Lex(rest)
            case None => None
            case Some(ts) => Some([Char(c)] + ts)
  {
    ReadEscaped(c, rest);
    hide ReadChar;
    hide EscapeChar;
  }

  lemma LexToken(t: Token, rest: string, ts: seq<Token>)
    requires Clean(t) && Lex(rest) == Some(ts)
    ensures Lex(SpellToken(t) + rest) == Some([t] + ts)
  {
    hide Lex;
    hide EscapeChar;
    match t
    case Open(inside) =>
      NoSlash(inside);
      LexTag(inside, rest);
    case Close(name) =>
      assert ("/" + name)[1..] == name && ("/" + name)[..1] == "/";
      assert "</" + name + ">" + rest == "<" + ("/" + name) + ">" + rest;
      LexTag("/" + name, rest);
    case Char(c) =>
      LexChar(c, rest);
  }

  /** Spelling tokens and reading them back. */
  lemma {:induction false} LexSpell(ts: seq<Token>)
    requires AllClean(ts)
    ensures Lex(Spell(ts)) == Some(ts)
  {
    hide Lex;
    hide SpellToken;
    hide Clean;
    if ts == [] {
      LexNothing();
    } else {
      assert Clean(ts[0]) && ts == [ts[0]] + ts[1..];
      LexSpell(ts[1..]);
      LexToken(ts[0], Spell(ts[1..]), ts[1..]);
    }
  }

  lemma NoSlash(inside: string)
    requires inside != "" && inside[0] != '/'
    ensures !StartsWith(inside, "/")
  {
    assert inside[..1][0] == inside[0];
  }

  lemma LexNothing()
    ensures Lex("") == Some([])
  {
  }

  // ----- Reading back nodes -----

  lemma ParseChar(c: char, more: seq<Token>)
    requires Parse(more).Some?
    ensures Parse([Char(c)] + more) == Some((Join(TextNode([c], []), Parse(more).value.0), Parse(more).value.1))
  {
    hide Join;
    assert ([Char(c)] + more)[1..] == more;
  }

  lemma JoinText(a: string, b: string, nodes: seq<Node>)
    ensures Join(TextNode(a, []), Join(TextNode(b, []), nodes)) == Join(TextNode(a + b, []), nodes)
  {
    if nodes != [] && PlainText(nodes[0]) {
      assert a + (b + nodes[0].text) == (a + b) + nodes[0].text;
    }
  }

  /** Text before something already read. */
  lemma {:induction false} ParseChars(s: string, more: seq<Token>)
    requires s != "" && Parse(more).Some?
    ensures Parse(Chars(s) + more) == Some((Join(TextNode(s, []), Parse(more).value.0), Parse(more).value.1))
  {
    hide Parse;
    hide Join;
    assert Chars(s) + more == [Char(s[0])] + (Chars(s[1..]) + more);
    if |s| == 1 {
      assert Chars(s[1..]) + more == more;
      assert [s[0]] == s;
      ParseChar(s[0], more);
    } else {
      ParseChars(s[1..], more);
      ParseChar(s[0], Chars(s[1..]) + more);
      JoinText([s[0]], s[1..], Parse(more).value.0);
      assert [s[0]] + s[1..] == s;
    }
  }

  /** A start tag, with what was read inside and behind it. */
  lemma ParseOpen(inside: string, rest: seq<Token>, contents: seq<Node>, behind: seq<Token>)
    requires Parse(rest) == Some((contents, behind)) && behind != [] && behind[0] == Close(NameOf(inside))
    requires Build(inside, contents).Some? && Parse(behind[1..]).Some?
    ensures Parse([Open(inside)] + rest) ==
            Some(([Build(inside, contents).value] + Parse(behind[1..]).value.0, Parse(behind[1..]).value.1))
  {
    hide Build;
    hide NameOf;
    assert ([Open(inside)] + rest)[1..] == rest;
  }

  /** An element before something already read. */
  lemma ParseElement(inside: string, inner: seq<Token>, contents: seq<Node>, name: string, more: seq<Token>)
    requires name == NameOf(inside) && Parse(more).Some? && Build(inside, contents).Some?
    requires Parse(inner + [Close(name)] + more) == Some((contents, [Close(name)] + more))
    ensures Parse([Open(inside)] + inner + [Close(name)] + more) ==
            Some(([Build(inside, contents).value] + Parse(more).value.0, Parse(more).value.1))
  {
    hide Build;
    hide NameOf;
    hide Parse;
    assert ([Close(name)] + more)[1..] == more;
    ParseOpen(inside, inner + [Close(name)] + more, contents, [Close(name)] + more);
    assert [Open(inside)] + inner + [Close(name)] + more == [Open(inside)] + (inner + [Close(name)] + more);
  }

  lemma ParseClose(name: string, more: seq<Token>)
    ensures Parse([Close(name)] + more) == Some(([], [Close(name)] + more))
  {
  }

  lemma ReadMarkBack(safe: Href, m: Mark)
    requires MarkOk(safe, m)
    ensures ReadMark(MarkInside(safe, m)) == Some(CanonMark(safe, m))
    ensures NameOf(MarkInside(safe, m)) == MarkName(m)
  {
    if m.kind == "link" {
      var (href, external) := safe(m.attrs.value.href).value;
      ReadLinkBack(href, external, Blank(m.attrs.value));
    }
  }

  /** The address, up to its quote. */
  lemma ReadAddress(href: string, attrs: string)
    ensures var rest := Escape(href) + ['"'] + attrs;
            && Until(rest, '"') == Some(|Escape(href)|) && |Escape(href)| < |rest|
            && Unescape(rest[..|Escape(href)|]) == href && rest[|Escape(href)| + 1..] == attrs
  {
    var rest := Escape(href) + ['"'] + attrs;
    EscapeFree(href);
    UntilFirst(Escape(href), '"', attrs);
    UnescapeEscape(href);
    hide Escape;
    hide Unescape;
    hide Until;
    assert rest[..|Escape(href)|] == Escape(href) && rest[|Escape(href)| + 1..] == attrs;
  }

  /** Reading what follows the address. */
  lemma ReadLinkAttrs(href: string, attrs: string, target: Option<string>, rel: Option<string>)
    requires attrs == "" ==> target == None && rel == None
    requires attrs != "" ==> rel == Some("noopener noreferrer")
    requires attrs != "" ==> attrs == LINK_REL + (if target == None then "" else LINK_BLANK)
    requires target == None || target == Some("_blank")
    ensures ReadMark(LINK_START + Escape(href) + ['"'] + attrs) == Some(Mark("link", Some(LinkAttrs(href, target, rel, None))))
  {
    hide Escape;
    hide Unescape;
    hide Until;
    var rest := Escape(href) + ['"'] + attrs;
    var inside := LINK_START + Escape(href) + ['"'] + attrs;
    assert inside == LINK_START + rest;
    assert inside[..|LINK_START|] == LINK_START && inside[|LINK_START|..] == rest;
    assert inside[0] == 'a' && inside[1] == ' ';
    ReadAddress(href, attrs);
    assert |LINK_REL| < |LINK_REL + LINK_BLANK|;
  }

  lemma ReadLinkBack(href: string, external: bool, blank: bool)
    ensures ReadMark(LinkInside(href, external, blank)) ==
            Some(Mark("link", Some(LinkAttrs(href, if external && blank then Some("_blank") else None,
                                             if external then Some("noopener noreferrer") else None, None))))
    ensures NameOf(LinkInside(href, external, blank)) == "a"
  {
    var inside := LinkInside(href, external, blank);
    var attrs := if external then LINK_REL + (if blank then LINK_BLANK else "") else "";
    ReadLinkAttrs(href, attrs, if external && blank then Some("_blank") else None,
                  if external then Some("noopener noreferrer") else None);
    assert inside == LINK_START + Escape(href) + ['"'] + attrs;
    assert inside[..|LINK_START|] == LINK_START;
    hide ReadMark;
    hide Escape;
  }

  /** A marked text before something already read. */
  lemma {:induction false} ParseWrapped(safe: Href, marks: seq<Mark>, text: string, more: seq<Token>)
    requires (forall i | 0 <= i < |marks| :: MarkOk(safe, marks[i])) && text != "" && Parse(more).Some?
    ensures Parse(Wrap(safe, marks, Chars(text)) + more) ==
            Some((Join(TextNode(text, CanonMarks(safe, marks)), Parse(more).value.0), Parse(more).value.1))
  {
    hide Parse;
    hide Build;
    hide NameOf;
    hide MarkInside;
    hide CanonMark;
    if marks == [] {
      ParseChars(text, more);
    } else {
      var inside, name := MarkInside(safe, marks[0]), MarkName(marks[0]);
      var inner := Wrap(safe, marks[1..], Chars(text));
      var closing := [Close(name)] + more;
      ParseClose(name, more);
      ParseWrapped(safe, marks[1..], text, closing);
      var t := TextNode(text, CanonMarks(safe, marks[1..]));
      assert Join(t, []) == [t];
      assert inner + [Close(name)] + more == inner + closing;
      BuildMarked(safe, marks[0], t);
      ParseElement(inside, inner, [t], name, more);
      assert Wrap(safe, marks, Chars(text)) + more == [Open(inside)] + inner + [Close(name)] + more;
    }
  }

  lemma BuildMarked(safe: Href, m: Mark, t: Node)
    requires MarkOk(safe, m) && t.kind == "text"
    ensures Build(MarkInside(safe, m), [t]) == Some(TextNode(t.text, [CanonMark(safe, m)] + t.marks))
    ensures NameOf(MarkInside(safe, m)) == MarkName(m)
  {
    ReadMarkBack(safe, m);
    MarkIsNoElement(safe, m);
    hide ReadMark;
    hide MarkInside;
    hide CanonMark;
    hide NameOf;
  }

  lemma MarkIsNoElement(safe: Href, m: Mark)
    requires MarkOk(safe, m)
    ensures MarkInside(safe, m) !in ["p", "h2", "h3", "ul", "ol", "li", "blockquote"]
  {
    if m.kind == "link" {
      var (href, external) := safe(m.attrs.value.href).value;
      assert LinkInside(href, external, Blank(m.attrs.value))[0] == 'a';
    }
  }

  /** A node of the document before something already read. */
  lemma {:induction false} ParseNode(safe: Href, n: Node, parent: string, more: seq<Token>)
    requires WellFormed(safe, n, parent) && parent != "" && Parse(more).Some?
    ensures Parse(Tokens(safe, n, parent) + more) ==
            Some((Join(Canon(safe, n, parent), Parse(more).value.0), Parse(more).value.1))
    decreases n, 1
  {
    if n.kind == "text" {
      ParseWrapped(safe, n.marks, n.text, more);
    } else {
      var tag := TagOf(n);
      var inner := TokensAll(safe, n.content, Inside(n.kind));
      var closing := [Close(tag)] + more;
      ParseClose(tag, more);
      ParseNodes(safe, n, n.content, Inside(n.kind), closing);
      BuildBack(safe, n, parent);
      JoinNothing(safe, n, parent);
      assert inner + [Close(tag)] + more == inner + closing;
      ParseElement(tag, inner, CanonAll(safe, n.content, Inside(n.kind)), tag, more);
      hide Parse;
      assert Tokens(safe, n, parent) + more == [Open(tag)] + inner + [Close(tag)] + more;
    }
  }

  lemma PrefixFirst(s: string, p: string)
    requires p != ""
    ensures StartsWith(s, p) ==> s != "" && s[0] == p[0]
  {
    if StartsWith(s, p) {
      assert s[..|p|][0] == s[0];
    }
  }

  lemma NoLink(tag: string)
    requires tag != "" && tag[0] != 'a'
    ensures !StartsWith(tag, LINK_START)
  {
    assert LINK_START[0] == 'a';
    PrefixFirst(tag, LINK_START);
    hide StartsWith;
  }

  /** The element with the canonical contents is the canonical element. */
  lemma BuildBack(safe: Href, n: Node, parent: string)
    requires WellFormed(safe, n, parent) && n.kind != "text" && n.kind != "doc"
    ensures Build(TagOf(n), CanonAll(safe, n.content, Inside(n.kind))) == Some(Canon(safe, n, parent))
    ensures NameOf(TagOf(n)) == TagOf(n)
  {
    hide CanonAll;
    NoLink(TagOf(n));
  }

  lemma JoinNothing(safe: Href, n: Node, parent: string)
    requires WellFormed(safe, n, parent) && n.kind != "text"
    ensures forall ns :: Join(Canon(safe, n, parent), ns) == [Canon(safe, n, parent)] + ns
  {
  }

  /** Children, up to the end tag of their parent; whole is there for the termination argument. */
  lemma {:induction false} ParseNodes(safe: Href, whole: Node, ns: seq<Node>, parent: string, more: seq<Token>)
    requires forall i | 0 <= i < |ns| :: ns[i] in whole.content
    requires (forall i | 0 <= i < |ns| :: WellFormed(safe, ns[i], parent)) && parent != ""
    requires Parse(more) == Some(([], more))
    ensures Parse(TokensAll(safe, ns, parent) + more) == Some((CanonAll(safe, ns, parent), more))
    decreases whole, 0, |ns|
  {
    hide WellFormed;
    hide Parse;
    hide Tokens;
    hide Canon;
    hide Join;
    if ns == [] {
      assert TokensAll(safe, ns, parent) + more == more;
    } else {
      ParseNodes(safe, whole, ns[1..], parent, more);
      var rest := TokensAll(safe, ns[1..], parent) + more;
      ParseNode(safe, ns[0], parent, rest);
      assert TokensAll(safe, ns, parent) + more == Tokens(safe, ns[0], parent) + rest;
    }
  }

  // ----- Clean tokens -----

  lemma {:induction false} WrapClean(safe: Href, marks: seq<Mark>, text: string)
    requires forall i | 0 <= i < |marks| :: MarkOk(safe, marks[i])
    ensures AllClean(Wrap(safe, marks, Chars(text)))
  {
    if marks != [] {
      WrapClean(safe, marks[1..], text);
      MarkClean(safe, marks[0]);
    }
  }

  lemma FreeAppend(a: string, b: string, c: char)
    requires Free(a, c) && Free(b, c)
    ensures Free(a + b, c)
  {
  }

  lemma LinkClean(href: string, external: bool, blank: bool)
    ensures Clean(Open(LinkInside(href, external, blank)))
  {
    hide Escape;
    EscapeFree(href);
    var attrs := if external then LINK_REL + (if blank then LINK_BLANK else "") else "";
    FreeAppend(LINK_START, Escape(href), '>');
    FreeAppend(LINK_START + Escape(href), "\"", '>');
    FreeAppend(LINK_START + Escape(href) + "\"", attrs, '>');
    assert LinkInside(href, external, blank) == LINK_START + Escape(href) + "\"" + attrs;
    assert (LINK_START + Escape(href) + "\"" + attrs)[0] == 'a';
  }

  lemma MarkClean(safe: Href, m: Mark)
    requires MarkOk(safe, m)
    ensures Clean(Open(MarkInside(safe, m))) && Clean(Close(MarkName(m)))
  {
    hide LinkInside;
    if m.kind == "link" {
      var (href, external) := safe(m.attrs.value.href).value;
      LinkClean(href, external, Blank(m.attrs.value));
    }
  }

  lemma {:induction false} NodeClean(safe: Href, n: Node, parent: string)
    requires WellFormed(safe, n, parent)
    ensures AllClean(Tokens(safe, n, parent))
    decreases n, 1
  {
    hide Wrap;
    hide TokensAll;
    hide MarkOk;
    if n.kind == "text" {
      WrapClean(safe, n.marks, n.text);
    } else {
      NodesClean(safe, n, n.content, Inside(n.kind));
      TagClean(n);
      hide TagOf;
    }
  }

  lemma TagClean(n: Node)
    ensures Clean(Open(TagOf(n))) && Clean(Close(TagOf(n)))
  {
  }

  lemma {:induction false} NodesClean(safe: Href, whole: Node, ns: seq<Node>, parent: string)
    requires forall i | 0 <= i < |ns| :: ns[i] in whole.content
    requires forall i | 0 <= i < |ns| :: WellFormed(safe, ns[i], parent)
    ensures AllClean(TokensAll(safe, ns, parent))
    decreases whole, 0, |ns|
  {
    hide WellFormed;
    hide Tokens;
    hide Clean;
    if ns != [] {
      NodeClean(safe, ns[0], parent);
      NodesClean(safe, whole, ns[1..], parent);
    }
  }

  /**
    For every well-formed document, reading its HTML gives the document back, up
    to joining adjacent unmarked texts and printing links canonically.
   */
  lemma HtmlReadsBack(safe: Href, root: Node)
    requires WellFormed(safe, root, "") && root.kind == "doc"
    ensures ReadHtml(Html(safe, root, "")) == Some(Canon(safe, root, ""))
  {
    NodeClean(safe, root, "");
    LexSpell(Tokens(safe, root, ""));
    ParseNodes(safe, root, root.content, "block", []);
    assert TokensAll(safe, root.content, "block") + [] == TokensAll(safe, root.content, "block");
  }

  // ----- Text and anchors -----

  /** The characters of the text. */
  function TextIn(ts: seq<Token>): string {
    if ts == [] then "" else (if ts[0].Char? then [ts[0].c] else "") + TextIn(ts[1..])
  }

  lemma {:induction false} TextInAppend(a: seq<Token>, b: seq<Token>)
    ensures TextIn(a + b) == TextIn(a) + TextIn(b)
  {
    if a == [] {
      assert a + b == b;
    } else {
      TextInNext(a);
      TextInNext(a + b);
      assert (a + b)[0] == a[0] && (a + b)[1..] == a[1..] + b;
      hide TextIn;
      TextInAppend(a[1..], b);
    }
  }

  lemma TextInNext(ts: seq<Token>)
    requires ts != []
    ensures TextIn(ts) == (if ts[0].Char? then [ts[0].c] else "") + TextIn(ts[1..])
  {
  }

  lemma {:induction false} TextInChars(s: string)
    ensures TextIn(Chars(s)) == s
  {
    if s != "" {
      assert Chars(s)[1..] == Chars(s[1..]);
      TextInChars(s[1..]);
    }
  }

  lemma TextInElement(open: string, inner: seq<Token>, name: string)
    ensures TextIn([Open(open)] + inner + [Close(name)]) == TextIn(inner)
  {
    TextInAppend([Open(open)] + inner, [Close(name)]);
    TextInAppend([Open(open)], inner);
  }

  lemma {:induction false} TextInWrap(safe: Href, marks: seq<Mark>, text: string)
    requires forall i | 0 <= i < |marks| :: MarkOk(safe, marks[i])
    ensures TextIn(Wrap(safe, marks, Chars(text))) == text
  {
    hide TextIn;
    if marks == [] {
      TextInChars(text);
    } else {
      TextInWrap(safe, marks[1..], text);
      TextInElement(MarkInside(safe, marks[0]), Wrap(safe, marks[1..], Chars(text)), MarkName(marks[0]));
    }
  }

  lemma {:induction false} TextInNode(safe: Href, n: Node, parent: string)
    requires WellFormed(safe, n, parent)
    ensures TextIn(Tokens(safe, n, parent)) == TextOf(n)
    decreases n, 1
  {
    hide TextIn;
    hide Wrap;
    if n.kind == "text" {
      TextInWrap(safe, n.marks, n.text);
      assert n.text + "" == n.text;
    } else {
      TextInNodes(safe, n, n.content, Inside(n.kind));
      TextInElement(TagOf(n), TokensAll(safe, n.content, Inside(n.kind)), TagOf(n));
      assert "" + TextOfAll(n.content) == TextOfAll(n.content);
    }
  }

  lemma {:induction false} TextInNodes(safe: Href, whole: Node, ns: seq<Node>, parent: string)
    requires forall i | 0 <= i < |ns| :: ns[i] in whole.content
    requires forall i | 0 <= i < |ns| :: WellFormed(safe, ns[i], parent)
    ensures TextIn(TokensAll(safe, ns, parent)) == TextOfAll(ns)
    decreases whole, 0, |ns|
  {
    hide WellFormed;
    hide Tokens;
    hide TextOf;
    if ns != [] {
      TextInNode(safe, ns[0], parent);
      TextInNodes(safe, whole, ns[1..], parent);
      TextInAppend(Tokens(safe, ns[0], parent), TokensAll(safe, ns[1..], parent));
    }
  }

  predicate IsAnchor(inside: string) { |inside| >= 2 && inside[0] == 'a' && inside[1] == ' ' }

  /** Whether an anchor is open at the end, given whether one is at the start; None once anchors nest or close wrongly. */
  function Anchors(ts: seq<Token>, open: bool): Option<bool> {
    if ts == [] then Some(open)
    else if ts[0].Open? && IsAnchor(ts[0].inside) then (if open then None else Anchors(ts[1..], true))
    else if ts[0] == Close("a") then (if open then Anchors(ts[1..], false) else None)
    else Anchors(ts[1..], open)
  }

  lemma {:induction false} AnchorsAppend(a: seq<Token>, b: seq<Token>, open: bool)
    ensures Anchors(a + b, open) == if Anchors(a, open).None? then None else Anchors(b, Anchors(a, open).value)
  {
    if a == [] {
      assert a + b == b;
    } else {
      assert (a + b)[1..] == a[1..] + b;
      AnchorsAppend(a[1..], b, true);
      AnchorsAppend(a[1..], b, false);
    }
  }

  lemma {:induction false} AnchorsChars(s: string, open: bool)
    ensures Anchors(Chars(s), open) == Some(open)
  {
    if s != "" {
      assert Chars(s)[1..] == Chars(s[1..]);
      AnchorsChars(s[1..], open);
    }
  }

  lemma AnchorsAround(inside: string, inner: seq<Token>, name: string, open: bool)
    requires if IsAnchor(inside) then name == "a" && !open && Anchors(inner, true) == Some(true)
             else name != "a" && Anchors(inner, open) == Some(open)
    ensures Anchors([Open(inside)] + inner + [Close(name)], open) == Some(open)
  {
    AnchorsAppend([Open(inside)] + inner, [Close(name)], open);
    AnchorsAppend([Open(inside)], inner, open);
    assert [Close(name)][1..] == [] && [Open(inside)][1..] == [];
  }

  lemma {:induction false} AnchorsWrap(safe: Href, marks: seq<Mark>, text: string, open: bool)
    requires MarksOk(safe, marks) && (open ==> forall i | 0 <= i < |marks| :: marks[i].kind != "link")
    ensures Anchors(Wrap(safe, marks, Chars(text)), open) == Some(open)
  {
    hide Anchors;
    if marks == [] {
      AnchorsChars(text, open);
    } else {
      var m, rest := marks[0], marks[1..];
      assert forall i | 0 <= i < |rest| :: rest[i] == marks[i + 1] && rest[i].kind != m.kind;
      MarkAnchors(safe, m);
      AnchorsWrap(safe, rest, text, if m.kind == "link" then true else open);
      AnchorsAround(MarkInside(safe, m), Wrap(safe, rest, Chars(text)), MarkName(m), open);
    }
  }

  lemma MarkAnchors(safe: Href, m: Mark)
    requires MarkOk(safe, m)
    ensures IsAnchor(MarkInside(safe, m)) <==> m.kind == "link"
    ensures MarkName(m) == "a" <==> m.kind == "link"
  {
    if m.kind == "link" {
      var (href, external) := safe(m.attrs.value.href).value;
      var inside := LinkInside(href, external, Blank(m.attrs.value));
      assert inside[0] == 'a' && inside[1] == ' ';
    }
  }

  lemma {:induction false} AnchorsNode(safe: Href, n: Node, parent: string)
    requires WellFormed(safe, n, parent)
    ensures Anchors(Tokens(safe, n, parent), false) == Some(false)
    decreases n, 1
  {
    hide Anchors;
    hide Wrap;
    hide MarksOk;
    if n.kind == "text" {
      AnchorsWrap(safe, n.marks, n.text, false);
    } else {
      AnchorsNodes(safe, n, n.content, Inside(n.kind));
      TagNoAnchor(n);
      hide TagOf;
      if n.kind != "doc" {
        AnchorsAround(TagOf(n), TokensAll(safe, n.content, Inside(n.kind)), TagOf(n), false);
      }
    }
  }

  lemma TagNoAnchor(n: Node)
    ensures !IsAnchor(TagOf(n)) && TagOf(n) != "a"
  {
  }

  lemma {:induction false} AnchorsNodes(safe: Href, whole: Node, ns: seq<Node>, parent: string)
    requires forall i | 0 <= i < |ns| :: ns[i] in whole.content
    requires forall i | 0 <= i < |ns| :: WellFormed(safe, ns[i], parent)
    ensures Anchors(TokensAll(safe, ns, parent), false) == Some(false)
    decreases whole, 0, |ns|
  {
    hide WellFormed;
    hide Tokens;
    if ns != [] {
      AnchorsNode(safe, ns[0], parent);
      AnchorsNodes(safe, whole, ns[1..], parent);
      AnchorsAppend(Tokens(safe, ns[0], parent), TokensAll(safe, ns[1..], parent), false);
    }
  }

  /** The text of the HTML is the text of the document, in order, and no anchor is inside another. */
  lemma HtmlTextAndAnchors(safe: Href, root: Node)
    requires WellFormed(safe, root, "")
    ensures var lexed := Lex(Html(safe, root, ""));
            lexed.Some? && TextIn(lexed.value) == TextOf(root) && Anchors(lexed.value, false) == Some(false)
  {
    NodeClean(safe, root, "");
    LexSpell(Tokens(safe, root, ""));
    TextInNode(safe, root, "");
    AnchorsNode(safe, root, "");
  }
}
