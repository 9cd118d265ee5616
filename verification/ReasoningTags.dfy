/** Removing reasoning blocks from raw text: three replacements, each over the text the one before it left. */
module ReasoningTags {
  import opened Text

  // ---- the tags: <think>, <thinking> and their closing forms, in any capitalisation ----

  predicate SameLetter(c: char, lower: char) {
    c == lower || ('a' <= lower <= 'z' && c as int + 32 == lower as int)
  }

  predicate StartsWith(s: string, tag: string) {
    |tag| <= |s| && forall i :: 0 <= i < |tag| ==> SameLetter(s[i], tag[i])
  }

  /** The length of the tag the text starts with, or zero. */
  function OpenLen(s: string): (n: nat)
    ensures n <= |s| && (n > 0 ==> TagShape(s, n) && s[1] != '/')
  {
    if StartsWith(s, "<think>") then 7 else if StartsWith(s, "<thinking>") then 10 else 0
  }

  function CloseLen(s: string): (n: nat)
    ensures n <= |s| && (n > 0 ==> TagShape(s, n) && s[1] == '/')
  {
    if StartsWith(s, "</think>") then 8 else if StartsWith(s, "</thinking>") then 11 else 0
  }

  /** A tag starts with its only `<` and ends with its only `>`. */
  predicate TagShape(s: string, n: nat) {
    && 2 <= n <= |s| && s[0] == '<' && s[n - 1] == '>'
    && (forall i :: 0 < i < n ==> s[i] != '<') && (forall i :: 0 <= i < n - 1 ==> s[i] != '>')
  }

  /** No tag occurs in the text. */
  predicate NoTag(s: string) {
    forall i :: 0 <= i < |s| ==> OpenLen(s[i..]) == 0 && CloseLen(s[i..]) == 0
  }

  // ---- the three replacements ----

  /** The text after the first closing tag, if there is one. */
  function AfterClose(s: string): (r: Found)
    ensures r.At? ==> |r.rest| < |s|
  {
    if s == [] then Nowhere
    else if CloseLen(s) > 0 then At(s[CloseLen(s)..])
    else AfterClose(s[1..])
  }

  datatype Found = Nowhere | At(rest: string)

  /** 1. Every closed block: an opening tag, and everything up to the first closing tag after it. */
  function Pass1(s: string): string
    decreases |s|
  {
    if s == [] then []
    else if OpenLen(s) > 0 && AfterClose(s[OpenLen(s)..]).At? then Pass1(AfterClose(s[OpenLen(s)..]).rest)
    else [s[0]] + Pass1(s[1..])
  }

  /** 2. The first opening tag that is left, and everything after it. */
  function Pass2(s: string): string {
    if s == [] || OpenLen(s) > 0 then [] else [s[0]] + Pass2(s[1..])
  }

  /** 3. Every tag that is left. */
  function Pass3(s: string): string
    decreases |s|
  {
    if s == [] then []
    else if OpenLen(s) > 0 then Pass3(s[OpenLen(s)..])
    else if CloseLen(s) > 0 then Pass3(s[CloseLen(s)..])
    else [s[0]] + Pass3(s[1..])
  }

  function Strip(s: string): string {
    Trim(Pass3(Pass2(Pass1(s))))
  }

  /** One scan from left to right: inside a block nothing is kept until the block closes; stray closing tags go. */
  function Scan(s: string, inside: bool): string
    decreases |s|
  {
    if s == [] then []
    else if OpenLen(s) > 0 then Scan(s[OpenLen(s)..], true)
    else if CloseLen(s) > 0 then Scan(s[CloseLen(s)..], false)
    else (if inside then [] else [s[0]]) + Scan(s[1..], inside)
  }

  // ---- text cut into tags and other characters ----

  datatype Token = Open(text: string) | Close(text: string) | Char(c: char)

  /** The length of the first token. */
  function HeadLen(s: string): (n: nat)
    requires s != []
    ensures 0 < n <= |s|
  {
    if OpenLen(s) > 0 then OpenLen(s) else if CloseLen(s) > 0 then CloseLen(s) else 1
  }

  function Head(s: string): (t: Token)
    requires s != []
    ensures TextOf(t) == s[..HeadLen(s)]
  {
    if OpenLen(s) > 0 then Open(s[..OpenLen(s)]) else if CloseLen(s) > 0 then Close(s[..CloseLen(s)]) else Char(s[0])
  }

  function Lex(s: string): seq<Token>
    decreases |s|
  {
    if s == [] then [] else [Head(s)] + Lex(s[HeadLen(s)..])
  }

  function TextOf(t: Token): string {
    if t.Char? then [t.c] else t.text
  }

  function Render(c: seq<Token>): string {
    if c == [] then [] else TextOf(c[0]) + Render(c[1..])
  }

  /** The tokens' own tags are tags. */
  predicate Genuine(c: seq<Token>) {
    forall t :: t in c ==>
      && (t.Open? ==> OpenLen(t.text) == |t.text| > 0)
      && (t.Close? ==> CloseLen(t.text) == |t.text| > 0)
  }

  // ---- the same three removals on tokens ----

  predicate HasClose(c: seq<Token>) {
    c != [] && (c[0].Close? || HasClose(c[1..]))
  }

  function TokensAfterClose(c: seq<Token>): (r: seq<Token>)
    requires HasClose(c)
    ensures |r| < |c|
  {
    if c[0].Close? then c[1..] else TokensAfterClose(c[1..])
  }

  function ClosedBlocks(c: seq<Token>): seq<Token>
    decreases |c|
  {
    if c == [] then []
    else if c[0].Open? && HasClose(c[1..]) then ClosedBlocks(TokensAfterClose(c[1..]))
    else [c[0]] + ClosedBlocks(c[1..])
  }

  function BeforeOpen(c: seq<Token>): (r: seq<Token>)
    ensures |r| <= |c|
  {
    if c == [] || c[0].Open? then [] else [c[0]] + BeforeOpen(c[1..])
  }

  /** The characters, without the tags. */
  function Chars(c: seq<Token>): string {
    if c == [] then [] else (if c[0].Char? then [c[0].c] else []) + Chars(c[1..])
  }

  function Visible(c: seq<Token>, inside: bool): string {
    if c == [] then []
    else match c[0]
      case Open(_) => Visible(c[1..], true)
      case Close(_) => Visible(c[1..], false)
      case Char(x) => (if inside then [] else [x]) + Visible(c[1..], inside)
  }

  lemma {:induction false} InsideUntilClose(c: seq<Token>)
    ensures if HasClose(c) then Visible(c, true) == Visible(TokensAfterClose(c), false) else Visible(c, true) == []
  {
    if c != [] { InsideUntilClose(c[1..]); }
  }

  /** Three passes over tokens keep exactly what one scan keeps: from an opening tag to the first closing tag or the end
      everything goes, and so do stray closing tags. */
  lemma {:induction false} PassesAreOneScan(c: seq<Token>)
    ensures Chars(BeforeOpen(ClosedBlocks(c))) == Visible(c, false)
    decreases |c|
  {
    if c == [] {
    } else if c[0].Open? {
      InsideUntilClose(c[1..]);
      if HasClose(c[1..]) {
        PassesAreOneScan(TokensAfterClose(c[1..]));
      } else {
        assert ClosedBlocks(c)[0] == c[0];
      }
    } else {
      PassesAreOneScan(c[1..]);
      var rest := ClosedBlocks(c[1..]);
      assert ([c[0]] + rest)[1..] == rest;
      assert ([c[0]] + BeforeOpen(rest))[1..] == BeforeOpen(rest);
    }
  }

  // ---- where raw text is cut ----

  lemma TagAlone(s: string)
    ensures OpenLen(s) > 0 ==> OpenLen(s[..OpenLen(s)]) == OpenLen(s)
    ensures CloseLen(s) > 0 ==> CloseLen(s[..CloseLen(s)]) == CloseLen(s)
  {
  }

  /** A tag is found whatever follows it, and nothing that starts with `<` completes one. */
  lemma TagAhead(x: string, r: string)
    requires x != [] && (r == [] || r[0] == '<')
    ensures OpenLen(x + r) == OpenLen(x) && CloseLen(x + r) == CloseLen(x)
  {
    if r == [] {
      assert x + r == x;
    } else {
      assert (x + r)[|x|] == '<' && |x| > 0;
      assert forall i :: 0 <= i < |x| ==> (x + r)[i] == x[i];
    }
  }

  lemma TagText(text: string, r: string)
    ensures OpenLen(text) == |text| > 0 ==> OpenLen(text + r) == |text|
    ensures CloseLen(text) == |text| > 0 ==> CloseLen(text + r) == |text| && OpenLen(text + r) == 0
  {
    assert forall i :: 0 <= i < |text| ==> (text + r)[i] == text[i];
  }

  lemma OpenOrClose(s: string)
    ensures OpenLen(s) == 0 || CloseLen(s) == 0
  {
  }

  lemma HeadAhead(x: string, r: string)
    requires x != [] && (r == [] || r[0] == '<')
    ensures HeadLen(x + r) == HeadLen(x) && Head(x + r) == Head(x)
  {
    hide OpenLen, CloseLen;
    TagAhead(x, r);
    assert (x + r)[..HeadLen(x)] == x[..HeadLen(x)];
  }

  lemma {:induction false} LexSplit(x: string, r: string)
    requires r == [] || r[0] == '<'
    ensures Lex(x + r) == Lex(x) + Lex(r)
    decreases |x|
  {
    hide Head, HeadLen;
    if x == [] {
      assert x + r == r;
    } else {
      HeadAhead(x, r);
      var n := HeadLen(x);
      assert (x + r)[n..] == x[n..] + r;
      LexSplit(x[n..], r);
      assert [Head(x)] + (Lex(x[n..]) + Lex(r)) == [Head(x)] + Lex(x[n..]) + Lex(r);
    }
  }

  lemma LexTag(text: string, r: string)
    ensures OpenLen(text) == |text| > 0 ==> Lex(text + r) == [Open(text)] + Lex(r)
    ensures CloseLen(text) == |text| > 0 ==> Lex(text + r) == [Close(text)] + Lex(r)
  {
    hide OpenLen, CloseLen;
    TagText(text, r);
    assert (text + r)[..|text|] == text && (text + r)[|text|..] == r;
  }

  function Plain(x: string): (c: seq<Token>)
    ensures |c| == |x| && forall i :: 0 <= i < |x| ==> c[i] == Char(x[i])
  {
    seq(|x|, i requires 0 <= i < |x| => Char(x[i]))
  }

  lemma PlainOne(x: string)
    requires x != []
    ensures Plain(x) == [Char(x[0])] + Plain(x[1..])
  {
  }

  lemma NoTagRest(x: string)
    requires x != [] && NoTag(x)
    ensures NoTag(x[1..]) && OpenLen(x) == 0 && CloseLen(x) == 0
  {
    hide OpenLen, CloseLen;
    assert x[0..] == x;
    forall i | 0 <= i < |x[1..]| ensures OpenLen(x[1..][i..]) == 0 && CloseLen(x[1..][i..]) == 0 {
      assert x[1..][i..] == x[i + 1..];
    }
  }

  function Tags(c: seq<Token>): nat {
    if c == [] then 0 else (if c[0].Char? then 0 else 1) + Tags(c[1..])
  }

  /** A text has no tag exactly when cutting finds none. */
  lemma {:induction false} NoTagExactly(x: string)
    ensures NoTag(x) <==> Tags(Lex(x)) == 0
    ensures NoTag(x) ==> Lex(x) == Plain(x)
    decreases |x|
  {
    hide OpenLen, CloseLen;
    if x != [] {
      assert x[0..] == x;
      if OpenLen(x) == 0 && CloseLen(x) == 0 {
        NoTagExactly(x[1..]);
        PlainOne(x);
        if NoTag(x[1..]) {
          forall i | 0 < i < |x| ensures OpenLen(x[i..]) == 0 && CloseLen(x[i..]) == 0 {
            assert x[i..] == x[1..][i - 1..];
          }
        } else if NoTag(x) {
          NoTagRest(x);
        }
      }
    }
  }

  lemma HeadIsGenuine(x: string)
    requires x != []
    ensures Genuine([Head(x)])
  {
    hide OpenLen, CloseLen;
    TagAlone(x);
  }

  lemma RenderOne(t: Token, c: seq<Token>)
    ensures Render([t] + c) == TextOf(t) + Render(c)
    ensures Genuine([t] + c) <==> Genuine([t]) && Genuine(c)
  {
    hide OpenLen, CloseLen;
    assert ([t] + c)[1..] == c;
    assert t in [t] && forall u :: u in [t] + c <==> u == t || u in c;
  }

  lemma {:induction false} RenderLex(x: string)
    ensures Render(Lex(x)) == x && Genuine(Lex(x))
    decreases |x|
  {
    hide Head, HeadLen, OpenLen, CloseLen, Genuine, Render, TextOf;
    if x == [] {
      NothingRendered();
    } else {
      var n := HeadLen(x);
      RenderLex(x[n..]);
      HeadIsGenuine(x);
      RenderOne(Head(x), Lex(x[n..]));
      assert x == x[..n] + x[n..];
    }
  }

  lemma NothingRendered()
    ensures Render([]) == [] && Genuine([])
  {
  }

  // ---- the raw passes do to the text what the token passes do to its tokens ----

  lemma {:induction false} SkipClose(x: string, r: string)
    requires '<' !in x
    ensures AfterClose(x + r) == AfterClose(r)
  {
    hide CloseLen;
    if x == [] {
      assert x + r == r;
    } else {
      assert (x + r)[1..] == x[1..] + r && (x + r)[0] in x;
      SkipClose(x[1..], r);
    }
  }

  lemma {:induction false} FirstClose(s: string)
    ensures HasClose(Lex(s)) <==> AfterClose(s).At?
    ensures AfterClose(s).At? ==> Lex(AfterClose(s).rest) == TokensAfterClose(Lex(s))
    decreases |s|
  {
    hide OpenLen, CloseLen;
    if s != [] {
      OpenOrClose(s);
      if OpenLen(s) > 0 {
        var n := OpenLen(s);
        assert s[1..] == s[1..n] + s[n..];
        SkipClose(s[1..n], s[n..]);
        FirstClose(s[n..]);
      } else if CloseLen(s) == 0 {
        FirstClose(s[1..]);
      }
    }
  }

  lemma {:induction false} Pass1Skips(x: string, r: string)
    requires '<' !in x
    ensures Pass1(x + r) == x + Pass1(r)
  {
    hide OpenLen, AfterClose;
    if x == [] {
      assert x + r == r;
    } else {
      assert (x + r)[1..] == x[1..] + r && (x + r)[0] in x;
      Pass1Skips(x[1..], r);
    }
  }

  lemma KeepTag(s: string, n: nat)
    requires TagShape(s, n) && (OpenLen(s) == 0 || AfterClose(s[OpenLen(s)..]).Nowhere?)
    ensures Pass1(s) == s[..n] + Pass1(s[n..])
  {
    hide OpenLen, AfterClose;
    assert Pass1(s) == [s[0]] + Pass1(s[1..]);
    hide Pass1;
    var x, r := s[1..n], s[n..];
    assert s[1..] == x + r && s[..n] == [s[0]] + x;
    assert '<' !in x by { TagHasOneStart(s, n); }
    Pass1Skips(x, r);
  }

  lemma TagHasOneStart(s: string, n: nat)
    requires TagShape(s, n)
    ensures '<' !in s[1..n]
  {
  }

  lemma {:induction false} Pass1Is(s: string)
    ensures Pass1(s) == Render(ClosedBlocks(Lex(s)))
    decreases |s|
  {
    hide OpenLen, CloseLen, AfterClose, HasClose, TokensAfterClose;
    if s == [] {
    } else if OpenLen(s) > 0 {
      var n := OpenLen(s);
      FirstClose(s[n..]);
      if AfterClose(s[n..]).At? {
        Pass1Is(AfterClose(s[n..]).rest);
      } else {
        KeepTag(s, n);
        Pass1Is(s[n..]);
      }
    } else if CloseLen(s) > 0 {
      KeepTag(s, CloseLen(s));
      Pass1Is(s[CloseLen(s)..]);
    } else {
      Pass1Is(s[1..]);
    }
  }

  lemma {:induction false} Pass2Skips(x: string, r: string)
    requires '<' !in x
    ensures Pass2(x + r) == x + Pass2(r)
  {
    hide OpenLen;
    if x == [] {
      assert x + r == r;
    } else {
      assert (x + r)[1..] == x[1..] + r && (x + r)[0] in x;
      Pass2Skips(x[1..], r);
    }
  }

  lemma {:induction false} Pass2Is(s: string)
    ensures Pass2(s) == Render(BeforeOpen(Lex(s)))
    decreases |s|
  {
    hide OpenLen, CloseLen;
    if s != [] && OpenLen(s) == 0 {
      var n := if CloseLen(s) > 0 then CloseLen(s) else 1;
      if CloseLen(s) > 0 {
        assert s[1..] == s[1..n] + s[n..];
        Pass2Skips(s[1..n], s[n..]);
        assert s[..n] == [s[0]] + s[1..n];
      }
      Pass2Is(s[n..]);
    }
  }

  lemma {:induction false} Pass3Is(s: string)
    ensures Pass3(s) == Chars(Lex(s))
    decreases |s|
  {
    hide OpenLen, CloseLen;
    if s != [] {
      Pass3Is(s[if OpenLen(s) > 0 then OpenLen(s) else if CloseLen(s) > 0 then CloseLen(s) else 1..]);
    }
  }

  lemma {:induction false} ScanIs(s: string, inside: bool)
    ensures Scan(s, inside) == Visible(Lex(s), inside)
    decreases |s|
  {
    hide OpenLen, CloseLen;
    if s == [] {
    } else if OpenLen(s) > 0 {
      ScanIs(s[OpenLen(s)..], true);
    } else if CloseLen(s) > 0 {
      ScanIs(s[CloseLen(s)..], false);
    } else {
      ScanIs(s[1..], inside);
    }
  }

  // ---- text cut before its first opening tag is cut the same again ----

  lemma {:induction false} PrefixOfText(s: string)
    ensures Render(BeforeOpen(Lex(s))) <= s
    decreases |s|
  {
    hide Head, HeadLen, OpenLen, CloseLen;
    if s != [] {
      var n := HeadLen(s);
      PrefixOfText(s[n..]);
      var rest := BeforeOpen(Lex(s[n..]));
      assert s == s[..n] + s[n..];
      assert ([Head(s)] + Lex(s[n..]))[1..] == Lex(s[n..]);
      if !Head(s).Open? {
        assert BeforeOpen(Lex(s)) == [Head(s)] + rest;
        assert ([Head(s)] + rest)[1..] == rest;
      }
    }
  }

  lemma NoTagAtPrefix(x: string, s: string)
    requires x <= s && OpenLen(s) == 0 && CloseLen(s) == 0
    ensures OpenLen(x) == 0 && CloseLen(x) == 0
  {
    TagText(x, s[|x|..]);
    assert s == x + s[|x|..];
    hide TagShape;
    if OpenLen(x) > 0 { StartsPrefix(x, s); }
    if CloseLen(x) > 0 { StartsPrefix(x, s); }
  }

  lemma StartsPrefix(x: string, s: string)
    requires x <= s
    ensures OpenLen(x) > 0 ==> OpenLen(s) > 0
    ensures CloseLen(x) > 0 ==> CloseLen(s) > 0
  {
  }

  lemma {:induction false} CutAgain(s: string)
    ensures Lex(Render(BeforeOpen(Lex(s)))) == BeforeOpen(Lex(s))
    decreases |s|
  {
    hide OpenLen, CloseLen;
    if s != [] && OpenLen(s) == 0 {
      if CloseLen(s) > 0 {
        var n := CloseLen(s);
        CutAgain(s[n..]);
        TagAlone(s);
        LexTag(s[..n], Render(BeforeOpen(Lex(s[n..]))));
      } else {
        CutAgain(s[1..]);
        PrefixOfText(s);
        var x := Render(BeforeOpen(Lex(s)));
        assert x == [s[0]] + Render(BeforeOpen(Lex(s[1..])));
        NoTagAtPrefix(x, s);
      }
    }
  }
}
