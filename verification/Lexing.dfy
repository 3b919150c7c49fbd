/** The splitter's lexer pinned down without its code: the tokens of a text are the only way to cut
    it into pieces of the right shapes that each end where, and no sooner than, they must. */
module Lexing {
  import opened Splitter
  import opened SplitLaws

  /* ---- what begins a token, in characters ---- */

  /** The first n characters are two dollar signs with only letters and underscores between them. */
  predicate HasTag(s: string, n: nat) {
    && 2 <= n <= |s| && s[0] == '$' && s[n - 1] == '$'
    && forall i :: 0 < i < n - 1 ==> ('A' <= s[i] <= 'Z') || ('a' <= s[i] <= 'z') || s[i] == '_'
  }

  ghost predicate IsTagged(s: string) {
    exists n :: HasTag(s, n)
  }

  ghost predicate Begins(s: string, kind: Kind)
    requires s != []
  {
    var dashes := |s| > 1 && s[0] == '-' && s[1] == '-';
    match kind
    case Comment => dashes
    case Quoted => s[0] == '\''
    case Dollar => IsTagged(s)
    case Semicolon => s[0] == ';'
    case Plain => !dashes && s[0] != '\'' && !IsTagged(s) && s[0] != ';'
  }

  /** The tag at the start of a text is the only one. */
  lemma TagLengthIs(s: string, n: nat)
    requires n > 0
    ensures TagLength(s) == n <==> HasTag(s, n)
  {
    if s != [] && s[0] == '$' {
      var k := TagRun(s[1..]);
      assert forall i :: 0 < i <= k ==> IsTagChar(s[i]) by {
        assert forall i :: 0 < i <= k ==> s[i] == s[1..][i - 1];
      }
      assert 1 + k < |s| ==> s[1..][k] == s[1 + k] && !IsTagChar(s[1 + k]);
      if HasTag(s, n) {
        assert !IsTagChar(s[n - 1]);
        assert n - 1 > k;
        if n - 1 > k + 1 { assert IsTagChar(s[k + 1]); }
      }
    }
  }

  /** The kind of the first token, in characters. */
  lemma KindIs(s: string, kind: Kind)
    requires s != []
    ensures KindOf(s) == kind <==> Begins(s, kind)
  {
    assert Starts(s, "--") <==> Begins(s, Comment) by {
      if |s| > 1 { assert s[..2] == [s[0], s[1]]; }
    }
    assert TagLength(s) > 0 <==> Begins(s, Dollar) by {
      if TagLength(s) > 0 { TagLengthIs(s, TagLength(s)); }
      if IsTagged(s) {
        var n :| HasTag(s, n);
        TagLengthIs(s, n);
      }
    }
    hide TagLength, Starts;
  }

  /* ---- no token is too long ---- */

  /** Only the last character may be c. */
  predicate OnlyLast(c: char, text: string) {
    forall k :: 0 <= k < |text| - 1 ==> text[k] != c
  }

  /** The tag opens the text, and no copy of it begins after that and before the closing one. */
  ghost predicate IsBody(text: string, tag: string) {
    && Starts(text, tag)
    && forall k :: |tag| <= k < |text| - |tag| ==> !Starts(text[k..], tag)
  }

  /** A comment does not go on behind a newline, a quoted text behind its second quote, or a dollar
      body behind the next copy of its tag; everything else is one character. */
  ghost predicate Shape(t: Token) {
    match t.kind
    case Comment => Starts(t.text, "--") && OnlyLast('\n', t.text)
    case Quoted => t.text != [] && t.text[0] == '\'' && OnlyLast('\'', t.text[1..])
    case Dollar => exists n :: n == TagLength(t.text) && n >= 2 && IsBody(t.text, t.text[..n])
    case Semicolon => t.text == ";"
    case Plain => |t.text| == 1 && t.text[0] != '\'' && t.text[0] != ';'
  }

  lemma CommentShape(s: string)
    requires s != [] && KindOf(s) == Comment
    ensures Shape(Next(s))
  {
    FindIsFirst('\n', s);
    var n := Find('\n', s);
    assert s[..2] == "--" && s[0] == '-' && s[1] == '-';
    hide Find;
    assert Next(s).text[..2] == s[..2];
  }

  lemma QuotedShape(s: string)
    requires s != [] && KindOf(s) == Quoted
    ensures Shape(Next(s))
  {
    FindIsFirst('\'', s[1..]);
    var n := Length(s);
    assert n <= Find('\'', s[1..]) + 2;
    hide Find, Length, KindOf;
    assert s[..n][1..] == s[1..][..n - 1];
  }

  /** The tag stays the tag of a longer or shorter piece of the same text. */
  lemma {:induction false} TagRunPrefix(u: string, m: nat)
    requires TagRun(u) < m <= |u|
    ensures TagRun(u[..m]) == TagRun(u)
  {
    if u != [] && IsTagChar(u[0]) {
      TagRunPrefix(u[1..], m - 1);
      hide IsTagChar;
      assert u[..m][1..] == u[1..][..m - 1];
    }
  }

  lemma TagPrefix(s: string, m: nat)
    requires TagLength(s) > 0 && TagLength(s) <= m <= |s|
    ensures TagLength(s[..m]) == TagLength(s) && s[..m][..TagLength(s)] == s[..TagLength(s)]
  {
    TagRunPrefix(s[1..], m - 1);
    hide TagRun;
    assert s[..m][1..] == s[1..][..m - 1];
  }

  lemma NotIn(s: string, m: nat, k: nat, tag: string)
    requires k + |tag| <= m <= |s| && !Starts(s[k..], tag)
    ensures !Starts(s[..m][k..], tag)
  {
    var n := |tag|;
    assert s[..m][k..][..n] == s[k..k + n];
    assert s[k..][..n] == s[k..k + n];
  }

  lemma BodyIsBody(s: string, n: nat, m: nat)
    requires 2 <= n <= m <= |s| && m == n + BodyLength(s[..n], s[n..])
    ensures IsBody(s[..m], s[..n])
  {
    var tag := s[..n];
    FindTextIsFirst(tag, s[n..]);
    forall k | n <= k < m - n
      ensures !Starts(s[..m][k..], tag)
    {
      assert s[n..][k - n..] == s[k..];
      hide Starts, FindText;
      NotIn(s, m, k, tag);
    }
    hide FindText;
    assert s[..m][..n] == tag;
  }

  lemma DollarShape(s: string)
    requires s != [] && KindOf(s) == Dollar
    ensures Shape(Next(s))
  {
    var n := TagLength(s);
    assert n >= 2;
    var m := Length(s);
    hide KindOf, TagLength, BodyLength;
    TagPrefix(s, m);
    BodyIsBody(s, n, m);
  }

  /* ---- no token is too short ---- */

  /** A comment ends with its newline, a quoted text with its second quote, a dollar body with
      another copy of its tag. */
  predicate Terminated(t: Token) {
    var n := |t.text|;
    match t.kind
    case Comment => n > 0 && t.text[n - 1] == '\n'
    case Quoted => n > 1 && t.text[n - 1] == '\''
    case Dollar => var tag := TagLength(t.text); 2 * tag <= n && t.text[n - tag..] == t.text[..tag]
    case _ => true
  }

  lemma CommentEnds(s: string)
    requires s != [] && KindOf(s) == Comment && Length(s) < |s|
    ensures Terminated(Next(s))
  {
    FindIsFirst('\n', s);
    hide Find;
  }

  lemma QuotedEnds(s: string)
    requires s != [] && KindOf(s) == Quoted && Length(s) < |s|
    ensures Terminated(Next(s))
  {
    FindIsFirst('\'', s[1..]);
    hide Find;
  }

  lemma DollarEnds(s: string)
    requires s != [] && KindOf(s) == Dollar && Length(s) < |s|
    ensures Terminated(Next(s))
  {
    var n := TagLength(s);
    assert n >= 2;
    var m := Length(s);
    var tag, u := s[..n], s[n..];
    FindTextIsFirst(tag, u);
    var i := FindText(tag, u);
    assert m == n + BodyLength(tag, u);
    hide KindOf, TagLength, FindText, Length;
    TagPrefix(s, m);
    assert m == n + i + n;
    assert u[i..] == s[n + i..];
    assert s[..m][n + i..] == s[n + i..][..n];
  }

  lemma NextIsShaped(s: string)
    requires s != []
    ensures Shape(Next(s)) && (Rest(s) != [] ==> Terminated(Next(s)))
  {
    match KindOf(s) {
      case Comment =>
        CommentShape(s);
        if Length(s) < |s| { CommentEnds(s); }
      case Quoted =>
        QuotedShape(s);
        if Length(s) < |s| { QuotedEnds(s); }
      case Dollar =>
        DollarShape(s);
        if Length(s) < |s| { DollarEnds(s); }
      case Semicolon =>
      case Plain =>
    }
  }

  /* ---- so each has one possible length ---- */

  /** The first c in u + r, when c may only end u, and must if anything follows. */
  lemma EndAt(c: char, u: string, r: string)
    requires OnlyLast(c, u) && (r != [] ==> u != [] && u[|u| - 1] == c)
    ensures var i := Find(c, u + r); i == |u| - 1 || (r == [] && i == |u|)
  {
    var i := Find(c, u + r);
    FindIsFirst(c, u + r);
    hide Find;
    assert r != [] ==> (u + r)[|u| - 1] == c;
    if i < |u| { assert (u + r)[i] == u[i]; }
  }

  lemma CommentLength(t: Token, r: string)
    requires t.kind == Comment && Shape(t) && KindOf(t.text + r) == Comment && (r != [] ==> Terminated(t))
    ensures Length(t.text + r) == |t.text|
  {
    var s := t.text + r;
    assert Length(s) == Cap(Find('\n', s) + 1, s);
    hide Find, KindOf, Length;
    EndAt('\n', t.text, r);
  }

  lemma QuotedLength(t: Token, r: string)
    requires t.kind == Quoted && Shape(t) && KindOf(t.text + r) == Quoted && (r != [] ==> Terminated(t))
    ensures Length(t.text + r) == |t.text|
  {
    var u := t.text[1..];
    assert (t.text + r)[1..] == u + r;
    assert Length(t.text + r) == Cap(Find('\'', u + r) + 2, t.text + r);
    hide Find, KindOf, Length;
    EndAt('\'', u, r);
  }

  lemma {:induction false} TagRunGrows(u: string, r: string)
    requires TagRun(u) < |u|
    ensures TagRun(u + r) == TagRun(u)
  {
    if IsTagChar(u[0]) {
      TagRunGrows(u[1..], r);
      hide IsTagChar;
      assert (u + r)[1..] == u[1..] + r;
    }
  }

  lemma TagGrows(s: string, r: string)
    requires TagLength(s) > 0
    ensures TagLength(s + r) == TagLength(s)
  {
    TagRunGrows(s[1..], r);
    hide TagRun;
    assert (s + r)[1..] == s[1..] + r;
  }

  /** A copy of the tag behind the opening one is the closing one. */
  lemma CopyIsLast(text: string, r: string, n: nat, k: nat)
    requires 2 <= n <= |text| && IsBody(text, text[..n]) && n <= k && k + n <= |text|
    requires Starts((text + r)[k..], text[..n])
    ensures k == |text| - n && text[k..] == text[..n]
  {
    var tag := text[..n];
    assert (text + r)[k..][..n] == (text + r)[k..k + n];
    assert (text + r)[k..k + n] == text[k..k + n];
    if k < |text| - n {
      assert text[k..][..n] == text[k..k + n];
      assert Starts(text[k..], tag);
      assert false;
    }
  }

  lemma ClosingIsThere(text: string, r: string, n: nat)
    requires 2 <= n && 2 * n <= |text| && text[|text| - n..] == text[..n]
    ensures Starts((text + r)[n..][|text| - 2 * n..], text[..n])
  {
    var k := |text| - n;
    assert (text + r)[n..][k - n..] == (text + r)[k..];
    assert (text + r)[k..][..n] == text[k..];
  }

  lemma DollarLengthIs(t: Token, r: string)
    requires t.kind == Dollar && Shape(t) && KindOf(t.text + r) == Dollar && (r != [] ==> Terminated(t))
    ensures Length(t.text + r) == |t.text|
  {
    var n := TagLength(t.text);
    var s, tag := t.text + r, t.text[..n];
    TagGrows(t.text, r);
    assert s[..n] == tag;
    var i := FindText(tag, s[n..]);
    assert Length(s) == n + Cap(i + n, s[n..]);
    hide KindOf, TagLength, Length;
    BodyEnds(t, r, n, i);
  }

  /** Where the next copy of the tag begins behind the opening one. */
  lemma NextCopy(text: string, r: string, n: nat, i: nat, closed: bool)
    requires 2 <= n <= |text| && IsBody(text, text[..n]) && i == FindText(text[..n], (text + r)[n..])
    requires closed == (2 * n <= |text| && text[|text| - n..] == text[..n]) && (r != [] ==> closed)
    ensures closed ==> i == |text| - 2 * n
    ensures !closed ==> i == |text| - n
  {
    var tag, u := text[..n], (text + r)[n..];
    FindTextIsFirst(tag, u);
    FindTextFits(tag, u);
    hide FindText, IsBody, Starts;
    if closed { ClosingIsThere(text, r, n); }
    if i < |u| && n + i + n <= |text| {
      assert u[i..] == (text + r)[n + i..];
      CopyIsLast(text, r, n, n + i);
    }
  }

  lemma BodyEnds(t: Token, r: string, n: nat, i: nat)
    requires t.kind == Dollar && n == TagLength(t.text) && 2 <= n <= |t.text| && IsBody(t.text, t.text[..n])
    requires r != [] ==> Terminated(t)
    requires i == FindText(t.text[..n], (t.text + r)[n..])
    ensures n + Cap(i + n, (t.text + r)[n..]) == |t.text|
  {
    var text := t.text;
    var closed := 2 * n <= |text| && text[|text| - n..] == text[..n];
    assert Terminated(t) == closed;
    hide FindText, IsBody, TagLength, Terminated;
    NextCopy(text, r, n, i, closed);
  }

  lemma ShapeFixesLength(t: Token, r: string)
    requires Shape(t) && t.text != [] && KindOf(t.text + r) == t.kind && (r != [] ==> Terminated(t))
    ensures Length(t.text + r) == |t.text|
  {
    match t.kind
    case Comment => CommentLength(t, r);
    case Quoted => QuotedLength(t, r);
    case Dollar => DollarLengthIs(t, r);
    case Semicolon =>
    case Plain =>
  }

  /* ---- the theorem ---- */

  /** Each piece is of the kind that begins where it begins, has the shape of its kind, and is
      terminated unless it is the last. */
  ghost predicate Lexed(ts: seq<Token>) {
    ts == [] ||
    (&& ts[0].text != [] && Sources(ts) != [] && Begins(Sources(ts), ts[0].kind)
     && Shape(ts[0]) && (Sources(ts[1..]) != [] ==> Terminated(ts[0]))
     && Lexed(ts[1..]))
  }

  /** The tokens of s are pieces of s, and the only ones, that make it up in order and are each of
      the right kind and shape: a comment ends at its first newline, a quoted text at its second
      quote, a dollar body at the next copy of its tag, and only the last piece of a text may lack
      its end. */
  lemma {:induction false} TokensAreTheOnlyLexing(s: string, ts: seq<Token>)
    ensures ts == Tokens(s) <==> Lexed(ts) && Sources(ts) == s
    decreases |s|
  {
    if ts == Tokens(s) { TokensAreLexed(s); }
    if Lexed(ts) && Sources(ts) == s { LexedAreTokens(s, ts); }
  }

  lemma {:induction false} TokensAreLexed(s: string)
    ensures Lexed(Tokens(s)) && Sources(Tokens(s)) == s
    decreases |s|
  {
    TokensAreLossless(s);
    if s != [] {
      TokensAreLexed(Rest(s));
      NextIsShaped(s);
      assert |Next(s).text| >= 1;
      KindIs(s, KindOf(s));
      hide KindOf, Length, Shape, Terminated, Begins;
      assert Tokens(s)[1..] == Tokens(Rest(s));
    }
  }

  lemma {:induction false} LexedAreTokens(s: string, ts: seq<Token>)
    requires Lexed(ts) && Sources(ts) == s
    ensures ts == Tokens(s)
    decreases |s|
  {
    hide KindOf, Length, Shape, Terminated, Begins;
    if ts != [] {
      var t, r := ts[0], Sources(ts[1..]);
      KindIs(s, t.kind);
      assert s == t.text + r;
      ShapeFixesLength(t, r);
      assert s[..|t.text|] == t.text && s[|t.text|..] == r;
      LexedAreTokens(r, ts[1..]);
      hide Lexed, Sources;
      TokensFirst(s);
      assert ts == [t] + ts[1..];
    }
  }
}
