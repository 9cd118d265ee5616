/** Where removing tags from raw text leaves a new tag behind, found by counting `<` characters. */
module ReasoningPieces {
  import opened Text
  import opened ReasoningTags

  // ---- counting what is lost ----

  /** The number of `<` characters. */
  function Lt(s: string): nat {
    if s == [] then 0 else (if s[0] == '<' then 1 else 0) + Lt(s[1..])
  }

  lemma {:induction false} LtConcat(a: string, b: string)
    ensures Lt(a + b) == Lt(a) + Lt(b)
  {
    if a == [] { assert a + b == b; } else { assert (a + b)[1..] == a[1..] + b; LtConcat(a[1..], b); }
  }

  lemma {:induction false} NoLt(s: string)
    requires '<' !in s
    ensures Lt(s) == 0
  {
    if s != [] {
      assert s[0] in s;
      NoLt(s[1..]);
    }
  }

  lemma LtTag(s: string, n: nat)
    requires TagShape(s, n)
    ensures Lt(s[..n]) == 1
  {
    assert s[..n][1..] == s[1..n];
    NoLt(s[1..n]);
  }

  lemma HeadLt(s: string)
    requires s != []
    ensures Lt(s[..HeadLen(s)]) == if Head(s).Char? then Lt([Head(s).c]) else 1
  {
    hide OpenLen, CloseLen, Lt;
    if OpenLen(s) > 0 {
      LtTag(s, OpenLen(s));
    } else if CloseLen(s) > 0 {
      LtTag(s, CloseLen(s));
    } else {
      assert s[..1] == [s[0]];
    }
  }

  /** Every tag in a text costs its characters one `<`. */
  lemma {:induction false} LtLex(s: string)
    ensures Lt(s) == Lt(Chars(Lex(s))) + Tags(Lex(s))
    decreases |s|
  {
    hide Head, HeadLen, Lt, Chars, Tags;
    if s == [] {
      NoChars();
      NoTagTokens();
      LtNothing();
    } else {
      var n := HeadLen(s);
      LtLex(s[n..]);
      HeadLt(s);
      assert s == s[..n] + s[n..];
      LtConcat(s[..n], s[n..]);
      CharsOne(Head(s), Lex(s[n..]));
      if Head(s).Char? { LtConcat([Head(s).c], Chars(Lex(s[n..]))); }
    }
  }

  lemma NoTagTokens()
    ensures Tags([]) == 0
  {
  }

  lemma NoChars()
    ensures Chars([]) == []
  {
  }

  lemma CharsOne(t: Token, c: seq<Token>)
    ensures Chars([t] + c) == if t.Char? then [t.c] + Chars(c) else Chars(c)
    ensures Tags([t] + c) == (if t.Char? then 0 else 1) + Tags(c)
  {
    assert ([t] + c)[1..] == c;
  }

  lemma LtNothing()
    ensures Lt([]) == 0
  {
  }

  lemma {:induction false} LtBeforeOpen(c: seq<Token>)
    ensures Lt(Chars(BeforeOpen(c))) <= Lt(Chars(c))
    ensures Tags(c) == 0 ==> BeforeOpen(c) == c
  {
    hide Lt, Chars;
    if c == [] || c[0].Open? {
      NoChars();
      LtNothing();
    } else {
      LtBeforeOpen(c[1..]);
      var rest := BeforeOpen(c[1..]);
      assert c == [c[0]] + c[1..];
      CharsOne(c[0], rest);
      CharsOne(c[0], c[1..]);
      if c[0].Char? {
        LtConcat([c[0].c], Chars(rest));
        LtConcat([c[0].c], Chars(c[1..]));
      }
    }
  }

  lemma {:induction false} CharsPlain(x: string)
    ensures Chars(Plain(x)) == x && BeforeOpen(Plain(x)) == Plain(x)
  {
    if x != [] {
      PlainOne(x);
      CharsPlain(x[1..]);
      assert ([Char(x[0])] + Plain(x[1..]))[1..] == Plain(x[1..]);
    }
  }

  /** What is kept of one piece of text: all of it exactly when it has no tag. */
  lemma PieceKept(x: string)
    ensures Lt(Chars(BeforeOpen(Lex(x)))) <= Lt(x)
    ensures Lt(Chars(BeforeOpen(Lex(x)))) == Lt(x) <==> NoTag(x)
    ensures NoTag(x) ==> BeforeOpen(Lex(x)) == Plain(x)
  {
    hide Lt, NoTag;
    LtLex(x);
    LtBeforeOpen(Lex(x));
    NoTagExactly(x);
    CharsPlain(x);
  }

  // ---- where removed stretches leave a new tag behind ----

  /** The pieces of text between the tags, from `cur` on, have no tag. */
  predicate PiecesClean(c: seq<Token>, cur: string) {
    if c == [] then NoTag(cur)
    else if c[0].Char? then PiecesClean(c[1..], cur + [c[0].c])
    else NoTag(cur) && PiecesClean(c[1..], [])
  }

  predicate OnlyCloses(c: seq<Token>) {
    forall t :: t in c ==> !t.Open?
  }

  lemma {:induction false} BeforeOpenConcat(a: seq<Token>, b: seq<Token>)
    ensures BeforeOpen(a + b) == if OnlyCloses(a) then a + BeforeOpen(b) else BeforeOpen(a)
  {
    hide *;
    if a == [] {
      assert a + b == b;
      NothingBefore(BeforeOpen(b));
      NothingOnlyCloses();
    } else {
      var t, rest := a[0], a[1..];
      BeforeOpenConcat(rest, b);
      BeforeOpenMore(t, rest, b);
      assert a == [t] + rest;
    }
  }

  lemma BeforeOpenMore(t: Token, rest: seq<Token>, b: seq<Token>)
    requires BeforeOpen(rest + b) == if OnlyCloses(rest) then rest + BeforeOpen(b) else BeforeOpen(rest)
    ensures BeforeOpen([t] + rest + b) ==
      if OnlyCloses([t] + rest) then [t] + rest + BeforeOpen(b) else BeforeOpen([t] + rest)
  {
    hide *;
    Regroup([t], rest, b);
    Regroup([t], rest, BeforeOpen(b));
    OnlyClosesOne(t, rest);
    BeforeOpenOne(t, rest);
    BeforeOpenOne(t, rest + b);
  }

  lemma NothingOnlyCloses()
    ensures OnlyCloses([])
  {
  }

  lemma OnlyClosesOne(t: Token, rest: seq<Token>)
    ensures OnlyCloses([t] + rest) <==> !t.Open? && OnlyCloses(rest)
  {
  }

  lemma BeforeOpenOne(t: Token, rest: seq<Token>)
    ensures BeforeOpen([t] + rest) == if t.Open? then [] else [t] + BeforeOpen(rest)
  {
    assert ([t] + rest)[1..] == rest;
  }

  lemma Regroup<T>(a: seq<T>, b: seq<T>, c: seq<T>)
    ensures a + b + c == a + (b + c)
  {
  }

  lemma NothingBefore<T>(x: seq<T>)
    ensures [] + x == x
  {
  }

  lemma {:induction false} CharsConcat(a: seq<Token>, b: seq<Token>)
    ensures Chars(a + b) == Chars(a) + Chars(b)
  {
    hide Chars;
    if a == [] {
      assert a + b == b;
      NoChars();
    } else {
      CharsConcat(a[1..], b);
      CharsMore(a[0], a[1..], b);
      assert a == [a[0]] + a[1..];
    }
  }

  lemma CharsMore(t: Token, rest: seq<Token>, b: seq<Token>)
    requires Chars(rest + b) == Chars(rest) + Chars(b)
    ensures Chars([t] + rest + b) == Chars([t] + rest) + Chars(b)
  {
    hide Chars;
    assert [t] + rest + b == [t] + (rest + b);
    CharsOne(t, rest);
    CharsOne(t, rest + b);
  }

  lemma BeforeOpenOf(a: seq<Token>)
    ensures OnlyCloses(a) ==> BeforeOpen(a) == a
  {
    BeforeOpenConcat(a, []);
    assert a + [] == a;
  }

  /** What the second and third pass keep of a text whose tags before the first opening one are `c`'s. */
  function KeptOf(x: string): string {
    Chars(BeforeOpen(Lex(x)))
  }

  lemma EndKept(cur: string, z: string)
    requires z == [] || OpenLen(z) > 0
    ensures BeforeOpen(Lex(cur + z)) == BeforeOpen(Lex(cur))
  {
    LexSplit(cur, z);
    BeforeOpenConcat(Lex(cur), Lex(z));
    BeforeOpenOf(Lex(cur));
    hide OpenLen, CloseLen;
    if z != [] { assert BeforeOpen(Lex(z)) == []; }
  }

  lemma CutAtClose(cur: string, text: string, r: string)
    requires CloseLen(text) == |text| > 0
    ensures Lex(cur + (text + r)) == Lex(cur) + ([Close(text)] + Lex(r))
  {
    hide OpenLen, CloseLen, Lex;
    assert (text + r)[0] == '<' by { CloseStarts(text); }
    LexSplit(cur, text + r);
    LexTag(text, r);
  }

  lemma KeepAtClose(a: seq<Token>, text: string, b: seq<Token>)
    ensures Chars(BeforeOpen(a + ([Close(text)] + b))) ==
      if OnlyCloses(a) then Chars(a) + Chars(BeforeOpen(b)) else Chars(BeforeOpen(a))
  {
    hide Chars, OnlyCloses;
    var t := Close(text);
    BeforeOpenConcat(a, [t] + b);
    assert ([t] + b)[1..] == b;
    CharsConcat(a, [t] + BeforeOpen(b));
    CharsOne(t, BeforeOpen(b));
  }

  /** One piece and the closing tag after it. */
  lemma PieceThenClose(cur: string, text: string, r: string)
    requires CloseLen(text) == |text| > 0
    ensures Lt(KeptOf(cur + (text + r))) <= Lt(KeptOf(cur)) + Lt(KeptOf(r))
    ensures NoTag(cur) ==> KeptOf(cur + (text + r)) == cur + KeptOf(r)
  {
    hide Lt, NoTag, OpenLen, Lex, CloseLen, Chars, BeforeOpen, OnlyCloses;
    var a, b := Lex(cur), Lex(r);
    CutAtClose(cur, text, r);
    KeepAtClose(a, text, b);
    BeforeOpenOf(a);
    LtConcat(Chars(a), KeptOf(r));
    if NoTag(cur) {
      NoTagExactly(cur);
      CharsPlain(cur);
      PlainHasNoTags(cur);
    }
  }

  lemma CloseStarts(text: string)
    requires CloseLen(text) == |text| > 0
    ensures text[0] == '<'
  {
  }

  lemma PlainHasNoTags(x: string)
    ensures OnlyCloses(Plain(x))
  {
  }

  /** Rendering tokens without opening tags, after the text `cur`, and reading them again loses a `<` wherever a piece
      assembles a tag, and nothing otherwise. */
  ghost predicate KeepsWhatIsClean(c: seq<Token>, cur: string, z: string) {
    var kept := KeptOf(cur + (Render(c) + z));
    && Lt(kept) <= Lt(cur) + Lt(Chars(c))
    && (Lt(kept) == Lt(cur) + Lt(Chars(c)) <==> PiecesClean(c, cur))
    && (PiecesClean(c, cur) ==> kept == cur + Chars(c))
  }

  lemma KeepsEnd(cur: string, z: string)
    requires z == [] || OpenLen(z) > 0
    ensures KeepsWhatIsClean([], cur, z)
  {
    hide Lt, NoTag, OpenLen, Lex, BeforeOpen, Chars;
    NoChars();
    assert Render([]) + z == z && cur + [] == cur;
    LtNothing();
    EndKept(cur, z);
    PieceKept(cur);
    CharsPlain(cur);
  }

  lemma PiecesOne(t: Token, rest: seq<Token>, cur: string)
    ensures PiecesClean([t] + rest, cur) ==
      if t.Char? then PiecesClean(rest, cur + [t.c]) else NoTag(cur) && PiecesClean(rest, [])
  {
    hide NoTag;
    assert ([t] + rest)[1..] == rest;
  }

  lemma SameTextChar(t: Token, rest: seq<Token>, cur: string, z: string)
    requires t.Char?
    ensures cur + (Render([t] + rest) + z) == cur + [t.c] + (Render(rest) + z)
    ensures cur + [t.c] + Chars(rest) == cur + Chars([t] + rest)
    ensures Lt(cur + [t.c]) + Lt(Chars(rest)) == Lt(cur) + Lt(Chars([t] + rest))
  {
    hide *;
    RenderThenChar(t, rest, z);
    CharsOne(t, rest);
    Regroup(cur, [t.c], Render(rest) + z);
    Regroup(cur, [t.c], Chars(rest));
    LtConcat(cur, [t.c]);
    LtConcat([t.c], Chars(rest));
  }

  lemma RenderThenChar(t: Token, rest: seq<Token>, z: string)
    requires t.Char?
    ensures Render([t] + rest) + z == [t.c] + (Render(rest) + z)
  {
    hide Render;
    RenderOne(t, rest);
    Regroup([t.c], Render(rest), z);
  }

  lemma KeepsChar(t: Token, rest: seq<Token>, cur: string, z: string)
    requires t.Char? && KeepsWhatIsClean(rest, cur + [t.c], z)
    ensures KeepsWhatIsClean([t] + rest, cur, z)
  {
    hide Lt, KeptOf, Chars, Render, PiecesClean;
    SameTextChar(t, rest, cur, z);
    PiecesOne(t, rest, cur);
  }

  lemma SameTextClose(t: Token, rest: seq<Token>, z: string)
    requires t.Close?
    ensures Render([t] + rest) + z == t.text + (Render(rest) + z) && [] + (Render(rest) + z) == Render(rest) + z
    ensures Chars([t] + rest) == Chars(rest) == [] + Chars(rest) && Lt([]) == 0
  {
    hide *;
    RenderThen(t, rest, z);
    CharsOne(t, rest);
    NothingBefore(Chars(rest));
    NothingBefore(Render(rest) + z);
    LtNothing();
  }

  lemma RenderThen(t: Token, rest: seq<Token>, z: string)
    requires t.Close?
    ensures Render([t] + rest) + z == t.text + (Render(rest) + z)
  {
    hide Render;
    RenderOne(t, rest);
    Regroup(t.text, Render(rest), z);
  }

  lemma KeepsClose(t: Token, rest: seq<Token>, cur: string, z: string)
    requires t.Close? && CloseLen(t.text) == |t.text| > 0 && KeepsWhatIsClean(rest, [], z)
    ensures KeepsWhatIsClean([t] + rest, cur, z)
  {
    hide Lt, NoTag, KeptOf, Chars, Render, CloseLen, PiecesClean;
    SameTextClose(t, rest, z);
    PieceThenClose(cur, t.text, Render(rest) + z);
    LtConcat(cur, KeptOf(Render(rest) + z));
    PieceIsKept(cur);
    PiecesOne(t, rest, cur);
  }

  lemma PieceIsKept(x: string)
    ensures Lt(KeptOf(x)) <= Lt(x)
    ensures Lt(KeptOf(x)) == Lt(x) <==> NoTag(x)
  {
    hide Lt, NoTag;
    PieceKept(x);
  }

  lemma {:induction false} KeptExactly(c: seq<Token>, cur: string, z: string)
    requires Genuine(c) && OnlyCloses(c) && (z == [] || OpenLen(z) > 0)
    ensures KeepsWhatIsClean(c, cur, z)
    decreases |c|
  {
    hide KeepsWhatIsClean, OpenLen, CloseLen, Genuine, OnlyCloses;
    if c == [] {
      KeepsEnd(cur, z);
    } else {
      var t, rest := c[0], c[1..];
      assert c == [t] + rest;
      RestGenuine(c);
      if t.Char? {
        KeptExactly(rest, cur + [t.c], z);
        KeepsChar(t, rest, cur, z);
      } else {
        KeptExactly(rest, [], z);
        KeepsClose(t, rest, cur, z);
      }
    }
  }

  lemma RestGenuine(c: seq<Token>)
    requires c != [] && Genuine(c) && OnlyCloses(c)
    ensures Genuine(c[1..]) && OnlyCloses(c[1..]) && !c[0].Open?
    ensures c[0].Close? ==> CloseLen(c[0].text) == |c[0].text| > 0
  {
    hide OpenLen, CloseLen;
    assert c[0] in c;
    forall t | t in c[1..] ensures t in c {
    }
  }
}
