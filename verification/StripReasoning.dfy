/** What stripReasoning keeps of raw text, and when a second application changes nothing. */
module StripReasoning {
  import opened Text
  import opened ReasoningTags
  import opened ReasoningPieces

  // ---- the whole replacement ----

  /** The tokens that the passes over tokens keep up to an unclosed opening tag: pieces of text, with every closed block
      cut out of them, and the stray closing tags between them. */
  function Pieces(s: string): seq<Token> {
    BeforeOpen(ClosedBlocks(Lex(s)))
  }

  lemma {:induction false} OnlyClosesBefore(c: seq<Token>)
    requires Genuine(c)
    ensures OnlyCloses(BeforeOpen(c)) && Genuine(BeforeOpen(c))
    ensures var z := Render(c[|BeforeOpen(c)|..]); Render(c) == Render(BeforeOpen(c)) + z && (z == [] || OpenLen(z) > 0)
  {
    hide OpenLen, CloseLen, TextOf, Render, Genuine, OnlyCloses;
    if c == [] {
      NothingRendered();
      NoOpens();
    } else {
      var t, rest := c[0], c[1..];
      assert c == [t] + rest;
      RenderOne(t, rest);
      if t.Open? {
        NothingRendered();
        NoOpens();
        OpenAhead(t, rest);
        assert c[0..] == c && [] + Render(c) == Render(c);
      } else {
        OnlyClosesBefore(rest);
        var b := BeforeOpen(rest);
        RenderOne(t, b);
        OneMoreClose(t, b);
        assert c[|[t] + b|..] == rest[|b|..];
        assert TextOf(t) + (Render(b) + Render(rest[|b|..])) == TextOf(t) + Render(b) + Render(rest[|b|..]);
      }
    }
  }

  lemma NoOpens()
    ensures OnlyCloses([])
  {
  }

  lemma OneMoreClose(t: Token, c: seq<Token>)
    ensures OnlyCloses([t] + c) <==> !t.Open? && OnlyCloses(c)
  {
    assert t in [t] + c;
    forall u | u in c ensures u in [t] + c {
    }
  }

  lemma OpenAhead(t: Token, rest: seq<Token>)
    requires t.Open? && Genuine([t])
    ensures OpenLen(TextOf(t) + Render(rest)) > 0
  {
    assert t in [t];
    TagText(t.text, Render(rest));
  }

  lemma {:induction false} BlocksAreGenuine(c: seq<Token>)
    requires Genuine(c)
    ensures Genuine(ClosedBlocks(c))
    decreases |c|
  {
    hide Genuine;
    if c != [] {
      assert c == [c[0]] + c[1..];
      RenderOne(c[0], c[1..]);
      if c[0].Open? && HasClose(c[1..]) {
        RestIsGenuine(c[1..]);
        BlocksAreGenuine(TokensAfterClose(c[1..]));
      } else {
        BlocksAreGenuine(c[1..]);
        RenderOne(c[0], ClosedBlocks(c[1..]));
      }
    }
  }

  lemma {:induction false} RestIsGenuine(c: seq<Token>)
    requires Genuine(c) && HasClose(c)
    ensures Genuine(TokensAfterClose(c))
  {
    hide Genuine;
    assert c == [c[0]] + c[1..];
    RenderOne(c[0], c[1..]);
    if !c[0].Close? { RestIsGenuine(c[1..]); }
  }

  /** What the three passes keep before trimming. */
  lemma PassesKeep(s: string)
    ensures Pass3(Pass2(Pass1(s))) == KeptOf(Pass1(s))
  {
    var t := Pass1(s);
    Pass2Is(t);
    Pass3Is(Pass2(t));
    CutAgain(t);
  }

  /** Before trimming, the passes keep what one scan shows, or lose at least one `<` of it. */
  lemma KeptOrLost(s: string)
    ensures PiecesClean(Pieces(s), []) ==> KeptOf(Pass1(s)) == Scan(s, false)
    ensures !PiecesClean(Pieces(s), []) ==> Lt(KeptOf(Pass1(s))) < Lt(Scan(s, false))
  {
    hide *;
    RenderLex(s);
    BlocksAreGenuine(Lex(s));
    var c := ClosedBlocks(Lex(s));
    OnlyClosesBefore(c);
    var z := Render(c[|BeforeOpen(c)|..]);
    PiecesIs(s);
    KeptExactly(Pieces(s), [], z);
    KeepsMeans(Pieces(s), z);
    Pass1Is(s);
    PassesAreOneScan(Lex(s));
    ScanIs(s, false);
  }

  lemma PiecesIs(s: string)
    ensures Pieces(s) == BeforeOpen(ClosedBlocks(Lex(s)))
  {
  }

  lemma KeepsMeans(c: seq<Token>, z: string)
    requires KeepsWhatIsClean(c, [], z)
    ensures PiecesClean(c, []) ==> KeptOf(Render(c) + z) == Chars(c)
    ensures !PiecesClean(c, []) ==> Lt(KeptOf(Render(c) + z)) < Lt(Chars(c))
  {
    hide KeptOf, Chars, Render, PiecesClean;
    assert [] + (Render(c) + z) == Render(c) + z && [] + Chars(c) == Chars(c);
  }

  // ---- trimming takes no tag and no part of one ----

  lemma NoLtInSpace(s: string)
    requires forall c :: c in s ==> IsSpace(c)
    ensures Lt(s) == 0
  {
    SpaceHasNoAngles(s);
    NoLt(s);
  }

  lemma LtTrim(s: string)
    ensures Lt(Trim(s)) == Lt(s)
  {
    hide IsSpace, Lt, TrimEnd, TrimStart;
    var t := TrimStart(s);
    TrimSplits(s);
    var a, b := s[..|s| - |t|], t[|Trim(s)|..];
    NoLtInSpace(a);
    NoLtInSpace(b);
    LtConcat(a + Trim(s), b);
    LtConcat(a, Trim(s));
  }

  lemma TagInMiddle(a: string, core: string, b: string, i: nat)
    requires i < |core|
    ensures OpenLen(core[i..]) > 0 ==> OpenLen((a + core + b)[|a| + i..]) > 0
    ensures CloseLen(core[i..]) > 0 ==> CloseLen((a + core + b)[|a| + i..]) > 0
  {
    hide OpenLen, CloseLen;
    assert (a + core + b)[|a| + i..] == core[i..] + b;
    StartsPrefix(core[i..], core[i..] + b);
  }

  lemma TagSpan(a: string, core: string, b: string, i: nat, n: nat)
    requires NoAngles(a) && NoAngles(b)
    requires i < |a + core + b| && TagShape((a + core + b)[i..], n)
    ensures |a| <= i && i + n <= |a + core|
  {
    var s := a + core + b;
    assert s[i..][0] == s[i] && s[i..][n - 1] == s[i + n - 1];
    assert forall k :: 0 <= k < |a| ==> s[k] == a[k];
    assert forall k :: |a + core| <= k < |s| ==> s[k] == b[k - |a + core|];
  }

  predicate NoAngles(s: string) {
    forall i :: 0 <= i < |s| ==> s[i] != '<' && s[i] != '>'
  }

  lemma TagNotInSpace(a: string, core: string, b: string, i: nat)
    requires NoAngles(a) && NoAngles(b)
    requires i < |a + core + b| && (OpenLen((a + core + b)[i..]) > 0 || CloseLen((a + core + b)[i..]) > 0)
    ensures |a| <= i < |a + core| && (OpenLen(core[i - |a|..]) > 0 || CloseLen(core[i - |a|..]) > 0)
  {
    hide OpenLen, CloseLen;
    var x := (a + core + b)[i..];
    var n := if OpenLen(x) > 0 then OpenLen(x) else CloseLen(x);
    TagSpan(a, core, b, i, n);
    hide TagShape;
    var j := i - |a|;
    TagAlone(x);
    assert core[j..] == x[..n] + core[j + n..];
    TagText(x[..n], core[j + n..]);
  }

  lemma SpaceHasNoAngles(a: string)
    requires forall c :: c in a ==> IsSpace(c)
    ensures NoAngles(a) && '<' !in a
  {
    hide IsSpace;
    AnglesAreNoSpace();
    assert forall i :: 0 <= i < |a| ==> IsSpace(a[i]);
  }

  lemma AnglesAreNoSpace()
    ensures !IsSpace('<') && !IsSpace('>')
  {
  }

  /** A text has a tag exactly when its trimmed core has. */
  lemma TrimKeepsTags(s: string)
    ensures NoTag(Trim(s)) <==> NoTag(s)
  {
    hide IsSpace, TrimEnd, TrimStart, OpenLen, CloseLen;
    var t := TrimStart(s);
    TrimSplits(s);
    var a, core, b := s[..|s| - |t|], Trim(s), t[|Trim(s)|..];
    SpaceHasNoAngles(a);
    SpaceHasNoAngles(b);
    if NoTag(s) {
      forall i | 0 <= i < |core| ensures OpenLen(core[i..]) == 0 && CloseLen(core[i..]) == 0 { TagInMiddle(a, core, b, i); }
    }
    if NoTag(core) {
      forall i | 0 <= i < |s| ensures OpenLen(s[i..]) == 0 && CloseLen(s[i..]) == 0 {
        if OpenLen(s[i..]) > 0 || CloseLen(s[i..]) > 0 { TagNotInSpace(a, core, b, i); }
      }
    }
  }

  // ---- the laws ----

  /** The result is the text that one left-to-right scan shows, trimmed, if and only if no piece of text assembles a tag
      where closed blocks were cut out of it. */
  lemma StripIsScanExactly(s: string)
    ensures Strip(s) == Trim(Scan(s, false)) <==> PiecesClean(Pieces(s), [])
  {
    hide *;
    StripIs(s);
    KeptOrLost(s);
    LtTrim(KeptOf(Pass1(s)));
    LtTrim(Scan(s, false));
  }

  lemma StripIs(s: string)
    ensures Strip(s) == Trim(KeptOf(Pass1(s)))
  {
    PassesKeep(s);
  }

  /** Text without tags is only trimmed. */
  lemma StripPlain(s: string)
    requires NoTag(s)
    ensures Strip(s) == Trim(s)
  {
    hide Trim, NoTag, Chars, Lex, Render;
    StripIs(s);
    NoTagExactly(s);
    CharsPlain(s);
    PlainKeepsBlocks(s);
    Pass1Is(s);
    RenderLex(s);
  }

  lemma {:induction false} PlainKeepsBlocks(x: string)
    ensures ClosedBlocks(Plain(x)) == Plain(x)
  {
    if x != [] {
      PlainOne(x);
      PlainKeepsBlocks(x[1..]);
      assert ([Char(x[0])] + Plain(x[1..]))[1..] == Plain(x[1..]);
    }
  }

  /** The texts between the closing tags of `x`, up to its first opening tag; the first continues `cur`. */
  function Between(x: string, cur: string): (parts: seq<string>)
    ensures parts != []
    decreases |x|
  {
    if x == [] || OpenLen(x) > 0 then [cur]
    else if CloseLen(x) > 0 then [cur] + Between(x[CloseLen(x)..], [])
    else Between(x[1..], cur + [x[0]])
  }

  function Joined(parts: seq<string>): string {
    if parts == [] then [] else parts[0] + Joined(parts[1..])
  }

  lemma KeptOne(x: string)
    requires x != []
    ensures OpenLen(x) > 0 ==> KeptOf(x) == []
    ensures OpenLen(x) == 0 && CloseLen(x) > 0 ==> KeptOf(x) == KeptOf(x[CloseLen(x)..])
    ensures OpenLen(x) == 0 && CloseLen(x) == 0 ==> KeptOf(x) == [x[0]] + KeptOf(x[1..])
  {
    hide OpenLen, CloseLen;
    var rest := Lex(x[HeadLen(x)..]);
    assert ([Head(x)] + rest)[1..] == rest;
    assert ([Head(x)] + BeforeOpen(rest))[1..] == BeforeOpen(rest);
    assert [] + Chars(BeforeOpen(rest)) == Chars(BeforeOpen(rest));
  }

  lemma JoinOne(part: string, parts: seq<string>)
    ensures Joined([part] + parts) == part + Joined(parts)
  {
    assert ([part] + parts)[1..] == parts;
  }

  /** Joining them is what the passes keep. */
  lemma {:induction false} JoinedIsKept(x: string, cur: string)
    ensures Joined(Between(x, cur)) == cur + KeptOf(x)
    decreases |x|
  {
    hide OpenLen, CloseLen, Joined, KeptOf;
    if x == [] {
      JoinOne(cur, []);
      JoinNothing();
      assert [cur] + [] == [cur];
    } else {
      KeptOne(x);
      if OpenLen(x) > 0 {
        JoinOne(cur, []);
        JoinNothing();
        assert [cur] + [] == [cur];
      } else if CloseLen(x) > 0 {
        JoinedIsKept(x[CloseLen(x)..], []);
        JoinOne(cur, Between(x[CloseLen(x)..], []));
        assert [] + KeptOf(x[CloseLen(x)..]) == KeptOf(x[CloseLen(x)..]);
      } else {
        JoinedIsKept(x[1..], cur + [x[0]]);
        assert cur + [x[0]] + KeptOf(x[1..]) == cur + ([x[0]] + KeptOf(x[1..]));
      }
    }
  }

  lemma JoinNothing()
    ensures Joined([]) == [] && KeptOf([]) == []
  {
  }

  /** No tag of `cur + x` starts within `cur`. */
  predicate NoneStartsIn(cur: string, x: string) {
    forall i :: 0 <= i < |cur| ==> OpenLen((cur + x)[i..]) == 0 && CloseLen((cur + x)[i..]) == 0
  }

  lemma CleanStart(cur: string, x: string)
    requires NoneStartsIn(cur, x)
    ensures NoTag(cur)
  {
    hide OpenLen, CloseLen;
    assert [] + cur + x == cur + x;
    forall i | 0 <= i < |cur| ensures OpenLen(cur[i..]) == 0 && CloseLen(cur[i..]) == 0 { TagInMiddle([], cur, x, i); }
  }

  lemma NoneStartsOne(cur: string, x: string)
    requires NoneStartsIn(cur, x) && x != [] && OpenLen(x) == 0 && CloseLen(x) == 0
    ensures NoneStartsIn(cur + [x[0]], x[1..])
  {
    hide OpenLen, CloseLen;
    assert cur + [x[0]] + x[1..] == cur + x;
    assert (cur + x)[|cur|..] == x;
  }

  /** None of these texts holds a tag: one can only come from joining them. */
  lemma {:induction false} BetweenIsClean(x: string, cur: string)
    requires NoneStartsIn(cur, x)
    ensures forall part :: part in Between(x, cur) ==> NoTag(part)
    decreases |x|
  {
    hide OpenLen, CloseLen, NoTag, NoneStartsIn;
    CleanStart(cur, x);
    if x != [] && OpenLen(x) == 0 {
      if CloseLen(x) > 0 {
        NoneStartsInNothing(x[CloseLen(x)..]);
        BetweenIsClean(x[CloseLen(x)..], []);
      } else {
        NoneStartsOne(cur, x);
        BetweenIsClean(x[1..], cur + [x[0]]);
      }
    }
  }

  lemma NoneStartsInNothing(x: string)
    ensures NoneStartsIn([], x)
  {
  }

  /** The second application changes nothing if and only if the texts between the closing tags of what the first
      replacement leaves, up to its first opening tag, assemble no tag when they are joined; none of them holds one by
      itself. Where no piece of text assembles a tag, it is if and only if the text that one scan shows holds none. */
  lemma StripTwiceExactly(s: string)
    ensures forall part :: part in Between(Pass1(s), []) ==> NoTag(part)
    ensures Strip(Strip(s)) == Strip(s) <==> NoTag(Joined(Between(Pass1(s), [])))
    ensures PiecesClean(Pieces(s), []) ==> (Strip(Strip(s)) == Strip(s) <==> NoTag(Scan(s, false)))
  {
    hide *;
    NoneStartsInNothing(Pass1(s));
    BetweenIsClean(Pass1(s), []);
    JoinedIsKept(Pass1(s), []);
    assert [] + KeptOf(Pass1(s)) == KeptOf(Pass1(s));
    StripIs(s);
    TrimKeepsTags(KeptOf(Pass1(s)));
    KeptOrLost(s);
    UnchangedExactly(Strip(s)) by { StripIsTrimmed(s); }
  }

  /** A trimmed text is left as it is if and only if it holds no tag. */
  lemma UnchangedExactly(r: string)
    requires Trimmed(r)
    ensures Strip(r) == r <==> NoTag(r)
  {
    hide *;
    if NoTag(r) {
      StripPlain(r);
      TrimTrimmed(r);
    } else {
      TagCosts(r);
    }
  }

  lemma TrimIsTrimmed(s: string)
    ensures Trimmed(Trim(s))
  {
    hide Trimmed;
  }

  lemma StripIsTrimmed(s: string)
    ensures Trimmed(Strip(s))
  {
    hide Trimmed;
  }

  lemma TrimTrimmed(t: string)
    requires Trimmed(t)
    ensures Trim(t) == t
  {
    hide Trim, Trimmed;
    TrimPadded("", t, "");
    assert "" + t + "" == t;
  }

  lemma {:induction false} BlocksCost(c: seq<Token>)
    ensures Lt(Chars(ClosedBlocks(c))) <= Lt(Chars(c)) && Tags(ClosedBlocks(c)) <= Tags(c)
    ensures Tags(ClosedBlocks(c)) == Tags(c) ==> ClosedBlocks(c) == c
    decreases |c|
  {
    hide Lt, Chars, Tags;
    if c != [] {
      var t, rest := c[0], c[1..];
      assert c == [t] + rest;
      CharsOne(t, rest);
      if t.Open? && HasClose(rest) {
        RestCosts(rest);
        BlocksCost(TokensAfterClose(rest));
      } else {
        BlocksCost(rest);
        CharsOne(t, ClosedBlocks(rest));
        if t.Char? {
          LtConcat([t.c], Chars(rest));
          LtConcat([t.c], Chars(ClosedBlocks(rest)));
        }
      }
    }
  }

  lemma {:induction false} RestCosts(c: seq<Token>)
    requires HasClose(c)
    ensures Lt(Chars(TokensAfterClose(c))) <= Lt(Chars(c)) && Tags(TokensAfterClose(c)) < Tags(c)
  {
    hide Lt, Chars, Tags;
    var t, rest := c[0], c[1..];
    assert c == [t] + rest;
    CharsOne(t, rest);
    if t.Char? { LtConcat([t.c], Chars(rest)); }
    if !t.Close? { RestCosts(rest); }
  }

  /** A text with a tag loses some of its `<` characters. */
  lemma TagCosts(r: string)
    requires !NoTag(r)
    ensures Strip(r) != r
  {
    hide *;
    var c := Lex(r);
    StripIs(r);
    LtTrim(KeptOf(Pass1(r)));
    NoTagExactly(r);
    LtLex(r);
    BlocksCost(c);
    Pass1Is(r);
    var t := Pass1(r);
    LtRender(ClosedBlocks(c)) by { RenderLex(r); BlocksAreGenuine(c); }
    PieceIsKept(t);
    if Tags(ClosedBlocks(c)) == Tags(c) {
      RenderLex(r);
      assert t == r;
    }
  }

  lemma {:induction false} LtRender(c: seq<Token>)
    requires Genuine(c)
    ensures Lt(Render(c)) == Lt(Chars(c)) + Tags(c)
  {
    hide Lt, Chars, Tags, Render, Genuine, TextOf, OpenLen, CloseLen;
    if c == [] {
      NothingRendered();
      NoChars();
      NoTagTokens();
    } else {
      var t, rest := c[0], c[1..];
      assert c == [t] + rest;
      RenderOne(t, rest);
      CharsOne(t, rest);
      LtRender(rest);
      LtConcat(TextOf(t), Render(rest));
      LtToken(t);
      if t.Char? { LtConcat([t.c], Chars(rest)); }
    }
  }

  lemma LtToken(t: Token)
    requires Genuine([t])
    ensures t.Char? ==> TextOf(t) == [t.c]
    ensures !t.Char? ==> Lt(TextOf(t)) == 1
  {
    hide Lt, OpenLen, CloseLen;
    assert t in [t];
    if !t.Char? {
      LtTag(t.text, |t.text|);
      assert t.text[..|t.text|] == t.text;
    }
  }

  /** One scan describes the result, and the result stays as it is when stripped again, if and only if the text the scan
      shows holds no tag. */
  lemma ScanIsFinalExactly(s: string)
    ensures Strip(s) == Trim(Scan(s, false)) && Strip(Strip(s)) == Strip(s) <==> NoTag(Scan(s, false))
  {
    hide *;
    var v := Scan(s, false);
    StripTwiceExactly(s);
    StripIsScanExactly(s);
    UnchangedExactly(Trim(v)) by { TrimIsTrimmed(v); }
    TrimKeepsTags(v);
    if NoTag(v) { CleanTextHasCleanPieces(s); }
  }

  lemma CleanTextHasCleanPieces(s: string)
    requires NoTag(Scan(s, false))
    ensures PiecesClean(Pieces(s), [])
  {
    hide NoTag, PiecesClean;
    PassesAreOneScan(Lex(s));
    ScanIs(s, false);
    assert [] + Chars(Pieces(s)) == Scan(s, false);
    PiecesOfClean(Pieces(s), []);
  }

  lemma NoTagPart(a: string, b: string)
    requires NoTag(a + b)
    ensures NoTag(a) && NoTag(b)
  {
    hide OpenLen, CloseLen;
    forall i | 0 <= i < |a| ensures OpenLen(a[i..]) == 0 && CloseLen(a[i..]) == 0 {
      assert [] + a + b == a + b;
      TagInMiddle([], a, b, i);
    }
    forall i | 0 <= i < |b| ensures OpenLen(b[i..]) == 0 && CloseLen(b[i..]) == 0 {
      assert a + b + [] == a + b;
      TagInMiddle(a, b, [], i);
    }
  }

  lemma {:induction false} PiecesOfClean(c: seq<Token>, cur: string)
    requires NoTag(cur + Chars(c))
    ensures PiecesClean(c, cur)
  {
    hide NoTag, Chars;
    if c == [] {
      NoChars();
      assert cur + [] == cur;
    } else {
      var t, rest := c[0], c[1..];
      assert c == [t] + rest;
      CharsOne(t, rest);
      if t.Char? {
        assert cur + [t.c] + Chars(rest) == cur + Chars(c);
        PiecesOfClean(rest, cur + [t.c]);
      } else {
        NoTagPart(cur, Chars(rest));
        assert [] + Chars(rest) == Chars(rest);
        PiecesOfClean(rest, []);
      }
    }
  }

  // ---- two texts where removal assembles a tag ----

  lemma TagNeedsAngles(x: string)
    ensures OpenLen(x) > 0 || CloseLen(x) > 0 ==> '<' in x && '>' in x
  {
    hide OpenLen, CloseLen;
    var n := if OpenLen(x) > 0 then OpenLen(x) else CloseLen(x);
    assert n > 0 ==> x[0] in x && x[n - 1] in x;
  }

  /** Without a `<`, or without a `>`, there is no tag. */
  lemma NoAngleNoTag(x: string)
    requires '<' !in x || '>' !in x
    ensures NoTag(x)
  {
    hide OpenLen, CloseLen;
    forall i | 0 <= i < |x| ensures OpenLen(x[i..]) == 0 && CloseLen(x[i..]) == 0 {
      TagNeedsAngles(x[i..]);
      assert forall c :: c in x[i..] ==> c in x;
    }
  }

  lemma NoLtNoClose(x: string)
    requires '<' !in x
    ensures AfterClose(x) == Nowhere && Pass1(x) == x && Scan(x, false) == x
  {
    assert x + [] == x;
    SkipClose(x, []);
    Pass1Skips(x, []);
    ScanSkips(x, []);
  }

  lemma {:induction false} ScanSkips(x: string, r: string)
    requires '<' !in x
    ensures Scan(x + r, false) == x + Scan(r, false)
  {
    hide OpenLen, CloseLen;
    if x == [] {
      assert x + r == r;
    } else {
      assert (x + r)[1..] == x[1..] + r && (x + r)[0] in x;
      ScanSkips(x[1..], r);
    }
  }

  /** A stray closing tag between two texts is dropped, even where that assembles a tag. */
  lemma StrayClose(a: string, text: string, b: string)
    requires CloseLen(text) == |text| > 0 && NoTag(a) && NoTag(b)
    ensures Strip(a + (text + b)) == Trim(a + b)
  {
    hide *;
    var s := a + (text + b);
    CutAtClose(a, text, b);
    NoTagExactly(a);
    NoTagExactly(b);
    PlainHasNoTags(a);
    PlainHasNoTags(b);
    OneMoreClose(Close(text), Plain(b));
    OnlyClosesConcat(Plain(a), [Close(text)] + Plain(b));
    NoOpenNoBlock(Lex(s));
    Pass1Is(s);
    RenderLex(s);
    PieceThenClose(a, text, b);
    PlainKept(b);
    StripIs(s);
  }

  lemma PlainKept(b: string)
    requires NoTag(b)
    ensures KeptOf(b) == b
  {
    PieceKept(b);
    CharsPlain(b);
  }

  lemma OnlyClosesConcat(a: seq<Token>, b: seq<Token>)
    requires OnlyCloses(a) && OnlyCloses(b)
    ensures OnlyCloses(a + b)
  {
  }

  lemma {:induction false} NoOpenNoBlock(c: seq<Token>)
    requires OnlyCloses(c)
    ensures ClosedBlocks(c) == c
  {
    if c != [] {
      assert c[0] in c && forall t :: t in c[1..] ==> t in c;
      NoOpenNoBlock(c[1..]);
      assert [c[0]] + c[1..] == c;
    }
  }

  /** Text that starts with an opening tag whose block never closes goes altogether. */
  lemma Unclosed(x: string)
    requires OpenLen(x) > 0 && AfterClose(x[OpenLen(x)..]).Nowhere?
    ensures Strip(x) == ""
  {
    hide OpenLen, CloseLen, AfterClose, Trim, KeptOf, Pass1;
    var n := OpenLen(x);
    KeepTag(x, n);
    TagAlone(x);
    TagText(x[..n], Pass1(x[n..]));
    KeptNothing(Pass1(x));
    StripIs(x);
    TrimTrimmed("");
  }

  lemma KeptNothing(z: string)
    requires OpenLen(z) > 0
    ensures KeptOf(z) == ""
  {
  }

  lemma CharFirst(x: char, c: seq<Token>)
    ensures ClosedBlocks([Char(x)] + c) == [Char(x)] + ClosedBlocks(c)
    ensures Render([Char(x)] + c) == [x] + Render(c) && Visible([Char(x)] + c, false) == [x] + Visible(c, false)
  {
    assert ([Char(x)] + c)[1..] == c;
  }

  lemma {:induction false} AfterPlain(a: string, c: seq<Token>)
    ensures ClosedBlocks(Plain(a) + c) == Plain(a) + ClosedBlocks(c)
    ensures Render(Plain(a) + c) == a + Render(c) && Visible(Plain(a) + c, false) == a + Visible(c, false)
    decreases |a|
  {
    hide Render, ClosedBlocks, Visible;
    if a == [] {
      assert Plain(a) + c == c && Plain(a) + ClosedBlocks(c) == ClosedBlocks(c);
    } else {
      var rest := Plain(a[1..]);
      PlainOne(a);
      AfterPlain(a[1..], c);
      CharFirst(a[0], rest + c);
      assert Plain(a) + c == [Char(a[0])] + (rest + c);
      assert [Char(a[0])] + (rest + ClosedBlocks(c)) == Plain(a) + ClosedBlocks(c);
      assert [a[0]] + (a[1..] + Render(c)) == a + Render(c);
      assert [a[0]] + (a[1..] + Visible(c, false)) == a + Visible(c, false);
    }
  }

  lemma EmptyBlock(o: string, t: string, c: seq<Token>)
    ensures ClosedBlocks([Open(o)] + ([Close(t)] + c)) == ClosedBlocks(c)
    ensures Visible([Open(o)] + ([Close(t)] + c), false) == Visible(c, false)
  {
    assert ([Open(o)] + ([Close(t)] + c))[1..] == [Close(t)] + c && ([Close(t)] + c)[1..] == c;
  }

  /** A closed block between two texts is cut out, even where that assembles a tag. */
  lemma BlockIsCut(a: string, o: string, t: string, b: string)
    requires OpenLen(o) == |o| > 0 && CloseLen(t) == |t| > 0 && NoTag(a) && NoTag(b)
    ensures Pass1(a + (o + (t + b))) == a + b && Scan(a + (o + (t + b)), false) == a + b
  {
    hide *;
    var s := a + (o + (t + b));
    TagStarts(o, t + b);
    LexSplit(a, o + (t + b));
    LexTag(o, t + b);
    LexTag(t, b);
    NoTagExactly(a);
    NoTagExactly(b);
    AfterPlain(a, [Open(o)] + ([Close(t)] + Plain(b)));
    EmptyBlock(o, t, Plain(b));
    AfterPlain(b, []);
    assert Plain(b) + [] == Plain(b) && b + [] == b;
    NothingKept();
    AfterPlain(a, ClosedBlocks(Plain(b)));
    Pass1Is(s);
    ScanIs(s, false);
  }

  lemma TagStarts(o: string, r: string)
    requires OpenLen(o) == |o| > 0
    ensures o + r != [] && (o + r)[0] == '<'
  {
  }

  lemma NothingKept()
    ensures ClosedBlocks([]) == [] && Render([]) == [] && Visible([], false) == []
  {
  }

  lemma TheTags()
    ensures OpenLen("<think>") == 7 && CloseLen("</think>") == 8
  {
  }

  /** A closing tag inside an opening one: stripping leaves an opening tag, and stripping again leaves nothing. */
  lemma ATagIsLeft()
    ensures Strip("<th</think>ink>secret") == "<think>secret"
    ensures Strip(Strip("<th</think>ink>secret")) == ""
  {
    hide *;
    ATagIsAssembled();
    AnUnclosedTagIsTaken();
  }

  lemma AnUnclosedTagIsTaken()
    ensures Strip("<think>secret") == ""
  {
    hide *;
    TheTags();
    NoLtNoClose("secret");
    TagText("<think>", "secret");
    assert "<think>" + "secret" == "<think>secret" && "<think>secret"[7..] == "secret";
    Unclosed("<think>secret");
  }

  lemma ATagIsAssembled()
    ensures Strip("<th</think>ink>secret") == "<think>secret"
  {
    hide *;
    assert "<th</think>ink>secret" == "<th" + ("</think>" + "ink>secret");
    NoAngleNoTag("<th");
    NoAngleNoTag("ink>secret");
    TheTags();
    StrayClose("<th", "</think>", "ink>secret");
    assert "<th" + "ink>secret" == "<think>secret";
    TrimsToItself("<think>secret");
  }

  lemma TrimsToItself(x: string)
    requires x != [] && x[0] == '<' && (x[|x| - 1] == 't' || x[|x| - 1] == 'x')
    ensures Trim(x) == x
  {
    hide Trim;
    TrimTrimmed(x);
  }

  /** A closed block inside an opening tag: the second pass takes the opening tag that the first assembled for an
      unclosed one, and what one scan would show is lost. */
  lemma ATextIsLost()
    ensures Strip("<th<think></think>ink>x") == "" && Trim(Scan("<th<think></think>ink>x", false)) == "<think>x"
  {
    hide *;
    assert "<th<think></think>ink>x" == "<th" + ("<think>" + ("</think>" + "ink>x"));
    NoAngleNoTag("<th");
    NoAngleNoTag("ink>x");
    TheTags();
    BlockIsCut("<th", "<think>", "</think>", "ink>x");
    assert "<th" + "ink>x" == "<think>x" && "<think>" + "x" == "<think>x";
    StripIs("<th<think></think>ink>x");
    TagText("<think>", "x");
    KeptNothing("<think>x");
    EmptyIsTrimmed();
    TrimsToItself("<think>x");
  }

  lemma EmptyIsTrimmed()
    ensures Trim("") == ""
  {
    hide Trim;
    TrimTrimmed("");
  }
}
