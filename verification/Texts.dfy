/**
  What trimming and slug normalisation make of any text, without the loops:
  strings.TrimSpace and NormalizeSlug of internal/articles/model.go.
 */
module Texts {
  import opened Outcomes
  import opened ArticleModel

  // ----- Trimming -----

  /** r is s without the white space around it. */
  ghost predicate TrimmedOf(s: string, r: string) {
    Trimmed(r) && exists head, tail :: Blank(head) && Blank(tail) && s == head + r + tail
  }

  lemma {:induction false} TrimLeftIs(s: string) returns (head: string)
    ensures Blank(head) && s == head + TrimLeft(s)
  {
    if s == "" {
      head := "";
    } else if IsSpace(s[0]) {
      var rest := TrimLeftIs(s[1..]);
      head := [s[0]] + rest;
      assert s == [s[0]] + s[1..];
    } else {
      head := "";
    }
  }

  lemma {:induction false} TrimRightIs(s: string) returns (tail: string)
    ensures Blank(tail) && s == TrimRight(s) + tail
  {
    if s == "" {
      tail := "";
    } else if IsSpace(s[|s| - 1]) {
      var rest := TrimRightIs(s[..|s| - 1]);
      tail := rest + [s[|s| - 1]];
      assert s == s[..|s| - 1] + [s[|s| - 1]];
    } else {
      tail := "";
      assert s + "" == s;
    }
  }

  /** TrimSpace takes away exactly the white space around the text. */
  lemma TrimSpaceIs(s: string)
    ensures TrimmedOf(s, TrimSpace(s))
  {
    var head := TrimLeftIs(s);
    var tail := TrimRightIs(TrimLeft(s));
    assert s == head + TrimSpace(s) + tail;
  }

  lemma TrimmedOnce(s: string, r: string, r': string)
    requires TrimmedOf(s, r) && TrimmedOf(s, r')
    ensures r == r'
  {
    var head, tail :| Blank(head) && Blank(tail) && s == head + r + tail;
    var head', tail' :| Blank(head') && Blank(tail') && s == head' + r' + tail';
    if r == "" {
      BlankAll(s, head, tail);
    } else {
      Borders(s, head, r, tail);
    }
    if r' == "" {
      BlankAll(s, head', tail');
    } else {
      Borders(s, head', r', tail');
    }
  }

  lemma BlankAll(s: string, head: string, tail: string)
    requires Blank(head) && Blank(tail) && s == head + "" + tail
    ensures Blank(s)
  {
  }

  lemma BlankTrims(s: string)
    ensures TrimSpace(s) == "" <==> Blank(s)
  {
    hide TrimSpace;
    TrimSpaceIs(s);
    if TrimSpace(s) == "" {
      var head, tail :| Blank(head) && Blank(tail) && s == head + TrimSpace(s) + tail;
      BlankAll(s, head, tail);
    }
    if Blank(s) {
      assert s == s + "" + "" && Blank("");
      TrimmedOnce(s, TrimSpace(s), "");
    }
  }

  /** Where the text begins and ends. */
  lemma Borders(s: string, head: string, r: string, tail: string)
    requires Blank(head) && Blank(tail) && s == head + r + tail && Trimmed(r) && r != ""
    ensures |head| + |r| + |tail| == |s| && r == s[|head|..|s| - |tail|]
    ensures forall i | 0 <= i < |head| || |head| + |r| <= i < |s| :: IsSpace(s[i])
    ensures !IsSpace(s[|head|]) && !IsSpace(s[|head| + |r| - 1])
  {
    assert s[|head|] == r[0] && s[|head| + |r| - 1] == r[|r| - 1];
    forall i | 0 <= i < |head| || |head| + |r| <= i < |s| ensures IsSpace(s[i]) {
      assert s[i] == if i < |head| then head[i] else tail[i - |head| - |r|];
    }
  }

  // ----- Slugs -----

  predicate IsLetter(c: char) { IsUpper(c) || IsLowerOrDigit(c) }

  predicate IsSeparator(c: char) { c == '-' || IsAsciiSpace(c) }

  /** Letters and digits of ASCII, hyphens and white space of ASCII. */
  predicate Supported(s: string) {
    forall i | 0 <= i < |s| :: IsLetter(s[i]) || IsSeparator(s[i])
  }

  function LowerChar(c: char): char { if IsUpper(c) then (c as int - 'A' as int + 'a' as int) as char else c }

  function Lower(s: string): (r: string)
    ensures |r| == |s| && forall i | 0 <= i < |r| :: r[i] == LowerChar(s[i])
  {
    seq(|s|, i requires 0 <= i < |s| => LowerChar(s[i]))
  }

  /** The length of the word that the text begins with. */
  function WordLength(s: string): (n: nat)
    ensures n <= |s| && (forall i | 0 <= i < n :: IsLetter(s[i])) && (n < |s| ==> !IsLetter(s[n]))
  {
    if s == "" || !IsLetter(s[0]) then 0 else 1 + WordLength(s[1..])
  }

  /** The words between the separators, in lower case. */
  function WordsOf(s: string): seq<string> {
    if s == "" then []
    else if !IsLetter(s[0]) then WordsOf(s[1..])
    else [Lower(s[..WordLength(s)])] + WordsOf(s[WordLength(s)..])
  }

  /** The words with single hyphens in between. */
  function Joined(words: seq<string>): string {
    if words == [] then "" else if |words| == 1 then words[0] else words[0] + "-" + Joined(words[1..])
  }

  /** More words after what there is. */
  function With(out: string, words: seq<string>): string {
    if words == [] then out else if out == "" then Joined(words) else out + "-" + Joined(words)
  }

  lemma LetterStep(out: string, pending: bool, c: char)
    requires IsLetter(c)
    ensures NormalizeStep(out, pending, c) == Some(((if pending && out != "" then out + "-" else out) + [LowerChar(c)], false))
  {
  }

  lemma SeparatorStep(out: string, pending: bool, c: char)
    requires IsSeparator(c)
    ensures NormalizeStep(out, pending, c) == Some((out, out != ""))
  {
  }

  /** The first word of a text that begins with one. */
  lemma FirstWord(s: string)
    requires s != "" && IsLetter(s[0])
    ensures WordLength(s) == 1 + WordLength(s[1..])
    ensures Lower(s[..WordLength(s)]) == [LowerChar(s[0])] + Lower(s[1..][..WordLength(s[1..])])
    ensures s[1..][WordLength(s[1..])..] == s[WordLength(s)..]
    ensures WordsOf(s) == [Lower(s[..WordLength(s)])] + WordsOf(s[WordLength(s)..])
  {
    hide IsLetter;
    hide LowerChar;
    var n := WordLength(s);
    assert s[..n] == [s[0]] + s[1..][..n - 1];
  }

  lemma FromStep(s: string, out: string, pending: bool, next: (string, bool))
    requires s != "" && NormalizeStep(out, pending, s[0]) == Some(next)
    ensures NormalizeFrom(s, out, pending) == NormalizeFrom(s[1..], next.0, next.1)
  {
    hide NormalizeStep;
  }

  lemma SupportedRest(s: string)
    requires Supported(s) && s != ""
    ensures Supported(s[1..]) && (IsLetter(s[0]) || IsSeparator(s[0]))
  {
  }

  /** Within a word. */
  lemma {:induction false} WordRun(s: string, out: string)
    requires Supported(s) && out != ""
    ensures NormalizeFrom(s, out, false) == Some(With(out + Lower(s[..WordLength(s)]), WordsOf(s[WordLength(s)..])))
    decreases |s|, 1
  {
    hide NormalizeStep;
    hide IsLetter;
    hide IsSeparator;
    hide LowerChar;
    hide With;
    hide Supported;
    if s != "" && IsLetter(s[0]) {
      var next := out + [LowerChar(s[0])];
      hide NormalizeFrom;
      hide WordsOf;
      hide WordLength;
      SupportedRest(s);
      LetterStep(out, false, s[0]);
      FromStep(s, out, false, (next, false));
      WordRun(s[1..], next);
      FirstWord(s);
      assert next + Lower(s[1..][..WordLength(s[1..])]) == out + Lower(s[..WordLength(s)]);
    } else {
      assert WordLength(s) == 0;
      assert out + Lower(s[..0]) == out && s[0..] == s;
      GapRun(s, out, false);
    }
  }

  lemma NothingLeft(out: string, pending: bool)
    ensures NormalizeFrom("", out, pending) == Some(With(out, WordsOf("")))
  {
  }

  lemma Shift(s: string, c: char, t: string)
    ensures (s + [c]) + t == s + ([c] + t)
  {
  }

  lemma SkippedWords(s: string)
    requires s != "" && !IsLetter(s[0])
    ensures WordsOf(s) == WordsOf(s[1..])
  {
    hide IsLetter;
  }

  /** Between words, or before the first. */
  lemma {:induction false} GapRun(s: string, out: string, pending: bool)
    requires Supported(s) && (pending || out == "" || s == "" || !IsLetter(s[0]))
    ensures NormalizeFrom(s, out, pending) == Some(With(out, WordsOf(s)))
    decreases |s|, 0
  {
    hide NormalizeStep;
    hide NormalizeFrom;
    hide IsLetter;
    hide IsSeparator;
    hide LowerChar;
    hide Supported;
    hide WordsOf;
    hide WordLength;
    hide Joined;
    hide With;
    if s == "" {
      NothingLeft(out, pending);
    } else if IsLetter(s[0]) {
      var before := if out != "" then out + "-" else out;
      var next := before + [LowerChar(s[0])];
      SupportedRest(s);
      LetterStep(out, pending, s[0]);
      FromStep(s, out, pending, (next, false));
      WordRun(s[1..], next);
      FirstWord(s);
      hide Lower;
      Shift(before, LowerChar(s[0]), Lower(s[1..][..WordLength(s[1..])]));
      WordJoins(out, Lower(s[..WordLength(s)]), WordsOf(s[WordLength(s)..]));
    } else {
      SupportedRest(s);
      SeparatorStep(out, pending, s[0]);
      FromStep(s, out, pending, (out, out != ""));
      SkippedWords(s);
      GapRun(s[1..], out, out != "");
    }
  }

  lemma WordJoins(out: string, word: string, words: seq<string>)
    requires word != ""
    ensures With((if out != "" then out + "-" else out) + word, words) == With(out, [word] + words)
  {
    assert ([word] + words)[1..] == words;
    if words == [] {
      assert [word] + words == [word];
      assert "" + word == word;
    } else if out == "" {
      assert "" + word == word;
    } else {
      assert out + "-" + word + "-" + Joined(words) == out + "-" + (word + "-" + Joined(words));
    }
  }

  /** One unsupported character is enough to refuse the text. */
  lemma {:induction false} UnsupportedFails(s: string, out: string, pending: bool)
    requires !Supported(s)
    ensures NormalizeFrom(s, out, pending).None?
    decreases |s|
  {
    if NormalizeStep(out, pending, s[0]).Some? {
      var next := NormalizeStep(out, pending, s[0]).value;
      assert !Supported(s[1..]) by {
        var i :| 0 <= i < |s| && !IsLetter(s[i]) && !IsSeparator(s[i]);
        assert i > 0 && s[1..][i - 1] == s[i];
      }
      UnsupportedFails(s[1..], next.0, next.1);
    }
  }

  /**
    NormalizeSlug of any text: the words of the trimmed text in lower case, joined
    by single hyphens, if it has only letters, digits, hyphens and spaces of ASCII
    and the result has 3 to 100 characters; otherwise a validation error.
   */
  lemma NormalizedExactly(value: string, trimmed: string)
    requires TrimmedOf(value, trimmed)
    ensures var slug := Joined(WordsOf(trimmed));
            Normalized(value) == if Supported(trimmed) && 3 <= |slug| <= 100 then Ok(slug) else Err(Validation)
  {
    hide NormalizeStep;
    hide WordsOf;
    hide TrimmedOf;
    hide TrimSpace;
    TrimSpaceIs(value);
    TrimmedOnce(value, trimmed, TrimSpace(value));
    if Supported(trimmed) {
      GapRun(trimmed, "", false);
    } else {
      UnsupportedFails(trimmed, "", false);
    }
  }
}
