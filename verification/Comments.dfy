/** What taking the comments out of a text does to its lexing, and with it to the round trip. */
module Comments {
  import opened Splitter
  import opened SplitLaws
  import opened Lexing
  import opened RoundTrips

  function KeptTokens(ts: seq<Token>): seq<Token> {
    if ts == [] then [] else (if ts[0].kind == Comment then [] else [ts[0]]) + KeptTokens(ts[1..])
  }

  /** The text without its comments. */
  function Uncommented(s: string): string {
    Text(Tokens(s))
  }

  /** No dollar sign that stands alone begins a tag once the comments behind it are gone. */
  predicate NoNewTag(ts: seq<Token>) {
    ts == [] || ((ts[0] == Token(Plain, "$") ==> TagLength(Text(ts)) == 0) && NoNewTag(ts[1..]))
  }

  lemma KeptFirst(t: Token, ts: seq<Token>)
    ensures KeptTokens([t] + ts) == if t.kind == Comment then KeptTokens(ts) else [t] + KeptTokens(ts)
    ensures NoNewTag([t] + ts) <==> (t == Token(Plain, "$") ==> TagLength(Text([t] + ts)) == 0) && NoNewTag(ts)
  {
    hide TagLength, Text;
    assert ([t] + ts)[1..] == ts;
  }

  /** The text of a step of the lexer, without comments. */
  lemma UncommentedFirst(s: string)
    requires s != []
    ensures Uncommented(s) == if KindOf(s) == Comment then Uncommented(Rest(s)) else Next(s).text + Uncommented(Rest(s))
  {
    hide KindOf, Length, Tokens, Text;
    TokensFirst(s);
    TextFirst(Next(s), Tokens(Rest(s)));
    assert [] + Text(Tokens(Rest(s))) == Text(Tokens(Rest(s)));
  }

  lemma {:induction false} UncommentedBegins(s: string)
    ensures s != [] && KindOf(s) != Comment ==> Uncommented(s) != [] && Uncommented(s)[0] == s[0]
    ensures s == [] ==> Uncommented(s) == []
  {
    if s != [] && KindOf(s) != Comment {
      UncommentedFirst(s);
      NextAndRest(s);
      hide KindOf, Length, Uncommented;
      assert Next(s).text[0] == s[0];
    }
  }

  /** A text that begins with a dash or a comment was not behind a plain dash. */
  lemma AfterDash(s: string)
    requires |s| > 1 && KindOf(s) == Plain && s[0] == '-'
    ensures s[1] != '-' && KindOf(s[1..]) != Comment
  {
    assert s[..2] == [s[0], s[1]];
    assert |s| > 2 ==> s[1..][..2][0] == s[1];
  }

  lemma DashStays(s: string)
    requires s != [] && KindOf(s) == Plain && s[0] == '-'
    ensures var u := Uncommented(Rest(s)); u == [] || u[0] != '-'
  {
    assert Rest(s) == s[1..];
    UncommentedBegins(s[1..]);
    if |s| > 1 { AfterDash(s); }
    hide KindOf, Length, Uncommented;
  }

  lemma PlainKind(c: char, u: string)
    requires c != '\'' && c != ';' && (c == '-' ==> u == [] || u[0] != '-')
    ensures KindOf([c] + u) == if TagLength([c] + u) > 0 then Dollar else Plain
  {
    hide TagRun, TagLength;
    var s := [c] + u;
    if u != [] { assert s[..2] == [c, u[0]]; }
  }

  lemma OtherKind(t: Token, u: string)
    requires t.kind in {Quoted, Dollar, Semicolon} && Shape(t)
    ensures KindOf(t.text + u) == t.kind
  {
    var s := t.text + u;
    assert !Starts(s, "--") by { if |s| >= 2 { assert s[..2][0] == s[0]; } }
    if t.kind == Dollar { TagGrows(t.text, u); }
    hide TagLength, IsBody;
  }

  /** A token keeps its kind in front of the uncommented rest, unless it is a lone dollar sign that
      begins a tag there. */
  lemma KindStays(s: string)
    requires s != [] && KindOf(s) != Comment
    ensures var u := Uncommented(s);
            KindOf(u) == KindOf(s) <==> (Next(s) == Token(Plain, "$") ==> TagLength(u) == 0)
  {
    NextIsShaped(s);
    UncommentedFirst(s);
    var t, u := Next(s), Uncommented(Rest(s));
    if t.kind == Plain {
      if s[0] == '-' { DashStays(s); }
      assert t.text == [s[0]];
      PlainKind(s[0], u);
      NoTagWithout(s[0], u);
    } else {
      OtherKind(t, u);
    }
  }

  lemma NoTagWithout(c: char, u: string)
    ensures c != '$' ==> TagLength([c] + u) == 0
  {
  }

  lemma TokensOfNothing()
    ensures Tokens(Uncommented([])) == KeptTokens(Tokens([])) && NoNewTag(Tokens([]))
  {
  }

  lemma NewTagStep(s: string)
    requires s != []
    ensures NoNewTag(Tokens(s)) <==>
              (Next(s) == Token(Plain, "$") ==> TagLength(Uncommented(s)) == 0) && NoNewTag(Tokens(Rest(s)))
    ensures var kept := KeptTokens(Tokens(Rest(s)));
            KeptTokens(Tokens(s)) == if Next(s).kind == Comment then kept else [Next(s)] + kept
  {
    hide KindOf, Length, TagLength, NoNewTag, KeptTokens;
    TokensFirst(s);
    KeptFirst(Next(s), Tokens(Rest(s)));
  }

  lemma SameBehind<T>(t: T, x: seq<T>, y: seq<T>)
    ensures [t] + x == [t] + y <==> x == y
  {
    assert ([t] + x)[1..] == x && ([t] + y)[1..] == y;
  }

  /** Taking the comments out leaves the lexing of everything else as it is if and only if no lone
      dollar sign begins a tag in what remains. */
  lemma {:induction false} LexingSurvivesIff(s: string)
    ensures Tokens(Uncommented(s)) == KeptTokens(Tokens(s)) <==> NoNewTag(Tokens(s))
    decreases |s|
  {
    hide *;
    if s == [] {
      TokensOfNothing();
    } else {
      NextAndRest(s);
      UncommentedFirst(s);
      NewTagStep(s);
      LexingSurvivesIff(Rest(s));
      if KindOf(s) != Comment {
        KindStays(s);
        NextIsShaped(s);
        OneStep(s);
        SameBehind(Next(s), Tokens(Uncommented(Rest(s))), KeptTokens(Tokens(Rest(s))));
      }
    }
  }

  lemma OneStep(s: string)
    requires s != [] && KindOf(s) != Comment
    requires Uncommented(s) == Next(s).text + Uncommented(Rest(s)) && |Next(s).text| >= 1
    requires Shape(Next(s)) && (Rest(s) != [] ==> Terminated(Next(s)))
    ensures KindOf(Uncommented(s)) == KindOf(s) ==>
              Tokens(Uncommented(s)) == [Next(s)] + Tokens(Uncommented(Rest(s)))
    ensures KindOf(Uncommented(s)) != KindOf(s) ==>
              Tokens(Uncommented(s)) != [] && Tokens(Uncommented(s))[0] != Next(s)
  {
    var t, u := Next(s), Uncommented(Rest(s));
    UncommentedBegins(Rest(s));
    assert t.kind == KindOf(s);
    hide Shape, Terminated, Uncommented;
    var w := t.text + u;
    if KindOf(w) == t.kind {
      ShapeFixesLength(t, u);
      hide KindOf, Length;
      assert w[..|t.text|] == t.text && w[|t.text|..] == u;
      TokensFirst(w);
    } else {
      hide KindOf, Length;
      TokensFirst(w);
    }
  }

  /* ---- so comments that open no tag do no harm ---- */

  lemma {:induction false} GroupKeeps(ts: seq<Token>, buf: string)
    ensures Group(KeptTokens(ts), buf) == Group(ts, buf)
    decreases |ts|
  {
    hide Emit;
    if ts != [] {
      var rest := KeptTokens(ts[1..]);
      match ts[0].kind
      case Semicolon =>
        GroupKeeps(ts[1..], []);
        GroupCuts(ts[0], rest, buf);
      case Comment =>
        GroupKeeps(ts[1..], buf);
        assert [] + rest == rest;
      case _ =>
        GroupKeeps(ts[1..], buf + ts[0].text);
        GroupKept(ts[0], rest, buf);
    }
  }

  lemma {:induction false} NoCommentsKept(s: string)
    requires forall t :: t in Tokens(s) ==> t.kind != Comment
    ensures CommentFree(s)
    decreases |s|
  {
    if s != [] {
      TokensFirst(s);
      NextAndRest(s);
      hide KindOf, Length, Tokens;
      assert Next(s) in [Next(s)] + Tokens(Rest(s));
      NoCommentsKept(Rest(s));
    }
  }

  lemma {:induction false} KeptHaveNoComment(ts: seq<Token>)
    ensures forall t :: t in KeptTokens(ts) ==> t.kind != Comment
  {
    if ts != [] { KeptHaveNoComment(ts[1..]); }
  }

  /** If no lone dollar sign begins a tag once the comments are gone, the text splits like the text
      without them, and makes the round trip. It is a lone dollar sign before a comment, then, that
      every failure of the round trip needs. */
  lemma HarmlessComments(sql: string)
    requires NoNewTag(Tokens(sql))
    ensures CommentFree(Uncommented(sql)) && Statements(Uncommented(sql)) == Statements(sql)
    ensures Statements(Join(Statements(sql))) == Statements(sql)
  {
    var u := Uncommented(sql);
    LexingSurvivesIff(sql);
    GroupKeeps(Tokens(sql), []);
    KeptHaveNoComment(Tokens(sql));
    hide Uncommented, Tokens, Group, KeptTokens, NoNewTag;
    NoCommentsKept(u);
    RoundTrip(u);
  }

  /* ---- the exact condition, on the tokens ---- */

  /** The texts between the semicolon tokens, without comments and blank ones. */
  function NonBlank(segments: seq<seq<Token>>): seq<string> {
    if segments == [] then []
    else (if Strip(Text(segments[0])) == [] then [] else [Text(segments[0])]) + NonBlank(segments[1..])
  }

  function Stretches(ts: seq<Token>): seq<string> {
    NonBlank(Segments(ts))
  }

  ghost predicate Stripped(statements: seq<string>, stretches: seq<string>) {
    |statements| == |stretches| && forall k :: 0 <= k < |statements| ==> statements[k] == Strip(stretches[k])
  }

  lemma {:induction false} EmittedAreStripped(segments: seq<seq<Token>>)
    ensures Stripped(Emitted(segments), NonBlank(segments))
  {
    hide Strip, Text;
    if segments != [] {
      EmittedAreStripped(segments[1..]);
      var st, later := Text(segments[0]), NonBlank(segments[1..]);
      if Strip(st) == [] {
        assert [] + later == later;
        assert [] + Emitted(segments[1..]) == Emitted(segments[1..]);
      } else {
        OneMoreStripped(st, Emitted(segments[1..]), later);
      }
    }
  }

  lemma OneMoreStripped(st: string, statements: seq<string>, stretches: seq<string>)
    requires Stripped(statements, stretches)
    ensures Stripped([Strip(st)] + statements, [st] + stretches)
  {
    hide Strip;
  }

  lemma LeadingSpaceIff(s: string)
    requires s != [] && IsSpace(s[0])
    ensures Clean(s) <==> Clean(s[1..])
    ensures Whole(s) <==> Whole(s[1..])
  {
    assert !Starts(s, "--") by { if |s| >= 2 { assert s[..2][0] == s[0]; } }
    assert KindOf(s) == Plain && Rest(s) == s[1..];
  }

  lemma {:induction false} LStripIff(s: string)
    ensures Clean(LStrip(s)) <==> Clean(s)
    ensures Whole(LStrip(s)) <==> Whole(s)
  {
    hide Clean, Whole, IsSpace;
    if s != [] && IsSpace(s[0]) {
      LeadingSpaceIff(s);
      LStripIff(s[1..]);
    }
  }

  lemma LoneSpace(c: char)
    requires IsSpace(c)
    ensures Whole([c]) && Clean([c])
  {
    LeadingSpaceIff([c]);
    assert [c][1..] == [];
  }

  lemma {:induction false} TrailingSpaceBack(p: string, c: char)
    requires IsSpace(c)
    ensures Clean(p) ==> Clean(p + [c])
    ensures Whole(p) ==> Whole(p + [c])
    decreases |p|
  {
    if p == [] {
      LoneSpace(c);
      assert p + [c] == [c];
    } else if KindOf(p) != Comment {
      var s := p + [c];
      assert Calm([c]);
      hide IsSpace, KindOf, Length, Closed, Calm;
      KindIn(p, [c]);
      LengthIn(p, [c]);
      if Closed(p) {
        Cutting(p, Length(p), [c]);
        TrailingSpaceBack(Rest(p), c);
      } else {
        if Length(s) < |s| { ClosedIfShort(s); }
        assert Rest(s) == [];
      }
    }
  }

  lemma {:induction false} RStripIff(s: string)
    ensures Clean(RStrip(s)) <==> Clean(s)
    ensures Whole(RStrip(s)) <==> Whole(s)
  {
    hide IsSpace, Clean, Whole;
    if s != [] && IsSpace(s[|s| - 1]) {
      var p, c := s[..|s| - 1], s[|s| - 1];
      assert s == p + [c];
      TrailingSpace(p, c);
      TrailingSpaceBack(p, c);
      RStripIff(p);
    }
  }

  lemma StripIff(s: string)
    ensures Clean(Strip(s)) <==> Clean(s)
    ensures Whole(Strip(s)) <==> Whole(s)
  {
    hide Clean, Whole, LStrip, RStrip;
    LStripIff(s);
    RStripIff(LStrip(s));
  }

  lemma StableIff(statements: seq<string>, stretches: seq<string>)
    requires Stripped(statements, stretches)
    ensures Stable(statements) <==> Stable(stretches)
  {
    hide Clean, Whole, Strip;
    forall k | 0 <= k < |statements|
      ensures Whole(statements[k]) == Whole(stretches[k]) && Clean(statements[k]) == Clean(stretches[k])
    {
      StripIff(stretches[k]);
    }
  }

  /** The round trip holds if and only if the stretches of the text between its free semicolons, with
      their comments taken out, have every quote and dollar body terminated, the last one at least no
      comment and no free semicolon. */
  lemma RoundTripIffStretches(sql: string)
    ensures Statements(Join(Statements(sql))) == Statements(sql) <==> Stable(Stretches(Tokens(sql)))
  {
    hide *;
    StretchesAre(sql);
    RoundTripIff(sql);
    StableIff(Statements(sql), Stretches(Tokens(sql)));
  }

  lemma StretchesAre(sql: string)
    ensures Stripped(Statements(sql), Stretches(Tokens(sql)))
  {
    hide Strip, Text, Segments, Emitted, NonBlank, Stripped, Tokens, Statements;
    StatementsAreSegments(sql);
    EmittedAreStripped(Segments(Tokens(sql)));
  }
}
