/** What the splitter promises: every statement is trimmed and comes from one stretch of the text
    between semicolons; and, without comments, splitting and joining undo each other. */
module SplitLaws {
  import opened Splitter

  /* ---- statements are the stretches between semicolon tokens ---- */

  /** The position of the first semicolon token, or the length. */
  function Cut(ts: seq<Token>): (k: nat)
    ensures k <= |ts| && (k < |ts| ==> ts[k].kind == Semicolon)
    ensures forall i :: 0 <= i < k ==> ts[i].kind != Semicolon
  {
    if ts == [] || ts[0].kind == Semicolon then 0 else 1 + Cut(ts[1..])
  }

  /** The stretches of tokens between semicolons. */
  function Segments(ts: seq<Token>): (r: seq<seq<Token>>)
    ensures |r| >= 1
    decreases |ts|
  {
    var k := Cut(ts);
    if k == |ts| then [ts] else [ts[..k]] + Segments(ts[k + 1..])
  }

  function Rejoined(segments: seq<seq<Token>>): seq<Token>
    requires |segments| >= 1
  {
    if |segments| == 1 then segments[0]
    else segments[0] + [Token(Semicolon, ";")] + Rejoined(segments[1..])
  }

  function Kept(t: Token): string {
    if t.kind == Comment then [] else t.text
  }

  /** The text of a stretch: everything but its comments. */
  function Text(ts: seq<Token>): string {
    if ts == [] then [] else Kept(ts[0]) + Text(ts[1..])
  }

  function Emitted(segments: seq<seq<Token>>): seq<string> {
    if segments == [] then [] else Emit(Text(segments[0])) + Emitted(segments[1..])
  }

  predicate Uncut(segment: seq<Token>) {
    forall t :: t in segment ==> t.kind != Semicolon
  }

  ghost predicate SemicolonsAreSo(ts: seq<Token>) {
    forall t :: t in ts && t.kind == Semicolon ==> t.text == ";"
  }

  lemma {:induction false} TokensSemicolons(s: string)
    ensures SemicolonsAreSo(Tokens(s))
    decreases |s|
  {
    if s != [] { TokensSemicolons(Rest(s)); }
  }

  /** The stretches, put back together with semicolons, are all the tokens. */
  lemma {:induction false} SegmentsRejoin(ts: seq<Token>)
    requires SemicolonsAreSo(ts)
    ensures Rejoined(Segments(ts)) == ts
    decreases |ts|
  {
    var k := Cut(ts);
    hide Cut, Rejoined;
    if k < |ts| {
      AroundCut(ts, k);
      SegmentsRejoin(ts[k + 1..]);
      RejoinCut(ts[..k], Segments(ts[k + 1..]));
    } else {
      RejoinOne(ts);
    }
  }

  lemma AroundCut(ts: seq<Token>, k: nat)
    requires SemicolonsAreSo(ts) && k < |ts| && ts[k].kind == Semicolon
    ensures SemicolonsAreSo(ts[k + 1..]) && ts == ts[..k] + [Token(Semicolon, ";")] + ts[k + 1..]
  {
    assert ts[k] in ts;
    assert ts[k] == Token(Semicolon, ";");
  }

  lemma RejoinOne(segment: seq<Token>)
    ensures Rejoined([segment]) == segment
  {
  }

  lemma {:induction false} SegmentsAreUncut(ts: seq<Token>)
    ensures forall seg :: seg in Segments(ts) ==> Uncut(seg)
    decreases |ts|
  {
    var k := Cut(ts);
    assert Uncut(ts[..k]);
    hide Cut, Uncut;
    if k < |ts| { SegmentsAreUncut(ts[k + 1..]); } else { assert ts[..k] == ts; }
  }

  lemma RejoinCut(first: seq<Token>, rest: seq<seq<Token>>)
    requires |rest| >= 1
    ensures Rejoined([first] + rest) == first + [Token(Semicolon, ";")] + Rejoined(rest)
  {
    assert ([first] + rest)[1..] == rest;
  }

  lemma GroupSkips(ts: seq<Token>, buf: string)
    requires ts != [] && ts[0].kind != Semicolon
    ensures Group(ts, buf) == Group(ts[1..], buf + Kept(ts[0]))
  {
    hide Emit;
    assert buf + [] == buf;
  }

  lemma TextGrows(ts: seq<Token>, k: nat, buf: string)
    requires 0 < k <= |ts|
    ensures (buf + Kept(ts[0])) + Text(ts[1..][..k - 1]) == buf + Text(ts[..k])
  {
    assert ts[..k][1..] == ts[1..][..k - 1];
    assert Text(ts[..k]) == Kept(ts[0]) + Text(ts[1..][..k - 1]);
  }

  lemma {:induction false} GroupToCut(ts: seq<Token>, buf: string)
    ensures var k := Cut(ts);
            Group(ts, buf) == Emit(buf + Text(ts[..k])) + if k == |ts| then [] else Group(ts[k + 1..], [])
    decreases |ts|
  {
    var k := Cut(ts);
    if k == 0 {
      assert ts[..k] == [] && buf + [] == buf;
    } else {
      assert Cut(ts[1..]) == k - 1;
      hide Cut, Group, Text, Emit, Kept;
      GroupToCut(ts[1..], buf + Kept(ts[0]));
      GroupSkips(ts, buf);
      TextGrows(ts, k, buf);
      assert k < |ts| ==> ts[k + 1..] == ts[1..][k..];
    }
  }

  lemma EmittedNothing()
    ensures Emitted([]) == []
  {
  }

  lemma EmittedFirst(first: seq<Token>, rest: seq<seq<Token>>)
    ensures Emitted([first] + rest) == Emit(Text(first)) + Emitted(rest)
  {
    hide Emit, Text;
    assert ([first] + rest)[1..] == rest;
  }

  lemma {:induction false} GroupIsEmitted(ts: seq<Token>)
    ensures Group(ts, []) == Emitted(Segments(ts))
    decreases |ts|
  {
    hide Group, Emit, Text, Emitted;
    var k := Cut(ts);
    GroupToCut(ts, []);
    assert [] + Text(ts[..k]) == Text(ts[..k]);
    if k < |ts| {
      EmittedFirst(ts[..k], Segments(ts[k + 1..]));
      GroupIsEmitted(ts[k + 1..]);
    } else {
      EmittedFirst(ts, []);
      EmittedNothing();
      assert ts[..k] == ts && [ts] + [] == [ts];
    }
  }

  /** The statements are the trimmed texts of the stretches between semicolon tokens, in order, the
      blank ones left out; and the stretches, with the semicolons, are the whole text. */
  lemma StatementsAreSegments(s: string)
    ensures var segments := Segments(Tokens(s));
            && Statements(s) == Emitted(segments)
            && (forall seg :: seg in segments ==> Uncut(seg))
            && Sources(Rejoined(segments)) == s
  {
    GroupIsEmitted(Tokens(s));
    TokensSemicolons(s);
    SegmentsRejoin(Tokens(s));
    SegmentsAreUncut(Tokens(s));
    TokensAreLossless(s);
  }

  /* ---- trimming ---- */

  lemma {:induction false} LStripTrims(s: string)
    ensures var r := LStrip(s); r != [] ==> !IsSpace(r[0])
  {
    if s != [] && IsSpace(s[0]) { LStripTrims(s[1..]); }
  }

  lemma {:induction false} RStripTrims(s: string)
    ensures var r := RStrip(s); (r != [] ==> !IsSpace(r[|r| - 1]) && r[0] == s[0])
    decreases |s|
  {
    if s != [] && IsSpace(s[|s| - 1]) { RStripTrims(s[..|s| - 1]); }
  }

  lemma StripTrims(s: string)
    ensures Trimmed(Strip(s)) && Strip(Strip(s)) == Strip(s)
  {
    var l := LStrip(s);
    LStripTrims(s);
    RStripTrims(l);
    hide LStrip, RStrip, IsSpace;
    TrimmedStays(Strip(s));
  }

  ghost predicate AllSpaces(s: string) {
    forall i :: 0 <= i < |s| ==> IsSpace(s[i])
  }

  lemma {:induction false} LStripDrops(s: string)
    ensures AllSpaces(s[..|s| - |LStrip(s)|])
  {
    if s != [] && IsSpace(s[0]) {
      LStripDrops(s[1..]);
      var n := |s| - |LStrip(s)|;
      assert forall i :: 0 < i < n ==> s[..n][i] == s[1..][..n - 1][i - 1];
    }
  }

  lemma {:induction false} RStripDrops(s: string)
    ensures AllSpaces(s[|RStrip(s)|..])
  {
    if s != [] && IsSpace(s[|s| - 1]) {
      var init := s[..|s| - 1];
      RStripDrops(init);
      assert s[|RStrip(s)|..] == init[|RStrip(s)|..] + [s[|s| - 1]];
    }
  }

  /** Trimming takes away spaces at both ends, all of them and nothing else. */
  lemma StripIs(s: string) returns (before: string, after: string)
    ensures s == before + Strip(s) + after && AllSpaces(before) && AllSpaces(after) && Trimmed(Strip(s))
  {
    hide IsSpace, AllSpaces;
    var l := LStrip(s);
    before, after := s[..|s| - |l|], l[|RStrip(l)|..];
    LStripDrops(s);
    RStripDrops(l);
    StripTrims(s);
    hide LStrip, RStrip, Trimmed;
    ThreeParts(s, before, l, Strip(s), after);
  }

  lemma ThreeParts(s: string, before: string, l: string, mid: string, after: string)
    requires |l| <= |s| && before == s[..|s| - |l|] && l == s[|s| - |l|..]
    requires |mid| <= |l| && mid == l[..|mid|] && after == l[|mid|..]
    ensures s == before + mid + after
  {
    assert l == mid + after;
    assert s == before + l;
  }

  lemma TrimmedStays(s: string)
    requires Trimmed(s)
    ensures Strip(s) == s
  {
    hide IsSpace;
  }

  predicate Tidy(st: string) {
    st != [] && Trimmed(st) && Strip(st) == st
  }

  /** No statement is empty, and none begins or ends with a space. */
  lemma StatementsAreTrimmed(s: string)
    ensures forall st :: st in Statements(s) ==> Tidy(st)
  {
    GroupsAreTrimmed(Tokens(s), []);
  }

  lemma EmitIsTidy(buf: string)
    ensures forall st :: st in Emit(buf) ==> Tidy(st)
  {
    StripTrims(buf);
    hide Strip;
  }

  lemma {:induction false} GroupsAreTrimmed(ts: seq<Token>, buf: string)
    ensures forall st :: st in Group(ts, buf) ==> Tidy(st)
    decreases |ts|
  {
    EmitIsTidy(buf);
    hide Strip, Tidy, Emit;
    if ts != [] {
      match ts[0].kind
      case Semicolon => GroupsAreTrimmed(ts[1..], []);
      case Comment => GroupsAreTrimmed(ts[1..], buf);
      case _ => GroupsAreTrimmed(ts[1..], buf + ts[0].text);
    }
  }

  /* ---- the first token does not depend on what follows it ---- */

  /** Text that cannot change how the text before it is read: it begins with no dash, dollar or tag
      character. */
  predicate Calm(r: string) {
    r == [] || (r[0] != '-' && r[0] != '$' && !IsTagChar(r[0]))
  }

  /** The first token of s is not an unterminated quote or dollar body. */
  predicate Closed(s: string)
    requires s != []
  {
    match KindOf(s)
    case Quoted => Find('\'', s[1..]) < |s| - 1
    case Dollar => FindText(s[..TagLength(s)], s[TagLength(s)..]) < |s| - TagLength(s)
    case _ => true
  }

  lemma {:induction false} FindIn(c: char, u: string, r: string)
    ensures Find(c, u) < |u| <==> Find(c, u + r) < |u|
    ensures Find(c, u) < |u| ==> Find(c, u + r) == Find(c, u)
  {
    if u != [] && u[0] != c {
      FindIn(c, u[1..], r);
      assert (u + r)[1..] == u[1..] + r;
    }
  }

  lemma {:induction false} FindTextIn(p: string, u: string, r: string)
    requires p != []
    ensures FindText(p, u) < |u| <==> FindText(p, u + r) + |p| <= |u|
    ensures FindText(p, u) < |u| ==> FindText(p, u + r) == FindText(p, u)
  {
    if u != [] {
      assert |p| <= |u| ==> (u + r)[..|p|] == u[..|p|];
      if !Starts(u, p) {
        FindTextIn(p, u[1..], r);
        assert (u + r)[1..] == u[1..] + r;
      }
    }
  }

  lemma {:induction false} TagRunIn(u: string, r: string)
    requires Calm(r)
    ensures TagRun(u + r) == TagRun(u)
  {
    if u == [] {
      assert u + r == r;
    } else {
      TagRunIn(u[1..], r);
      hide IsTagChar, Calm;
      assert (u + r)[1..] == u[1..] + r;
    }
  }

  lemma KindIn(s: string, r: string)
    requires s != [] && Calm(r)
    ensures TagLength(s + r) == TagLength(s) && KindOf(s + r) == KindOf(s)
  {
    TagLengthIn(s, r);
    hide TagLength;
    DashesIn(s, r);
    hide Starts;
  }

  lemma TagLengthIn(s: string, r: string)
    requires s != [] && Calm(r)
    ensures TagLength(s + r) == TagLength(s)
  {
    TagRunIn(s[1..], r);
    hide TagRun, IsTagChar;
    assert (s + r)[1..] == s[1..] + r;
  }

  lemma DashesIn(s: string, r: string)
    requires s != [] && Calm(r)
    ensures Starts(s + r, "--") <==> Starts(s, "--")
  {
    if |s| >= 2 {
      assert (s + r)[..2] == s[..2];
    } else {
      assert |s + r| >= 2 ==> (s + r)[1] == r[0] && (s + r)[1] != '-';
    }
  }

  /** Whether the first token is closed within s, and then how long it is, is the same with and
      without calm text behind s. */
  lemma LengthIn(s: string, r: string)
    requires s != [] && Calm(r) && KindOf(s) != Comment
    ensures KindOf(s + r) == KindOf(s)
    ensures Closed(s) <==> Closed(s + r) && Length(s + r) <= |s|
    ensures Closed(s) ==> Length(s + r) == Length(s)
    ensures !Closed(s) ==> Length(s) == |s|
  {
    KindIn(s, r);
    match KindOf(s)
    case Quoted =>
      FindIn('\'', s[1..], r);
      assert (s + r)[1..] == s[1..] + r;
    case Dollar =>
      DollarIn(s, r);
    case _ =>
  }

  lemma DollarIn(s: string, r: string)
    requires s != [] && Calm(r) && KindOf(s) == Dollar && KindOf(s + r) == Dollar
    requires TagLength(s + r) == TagLength(s)
    ensures Closed(s) <==> Closed(s + r) && Length(s + r) <= |s|
    ensures Closed(s) ==> Length(s + r) == Length(s)
    ensures !Closed(s) ==> Length(s) == |s|
  {
    var n := TagLength(s);
    assert n >= 2;
    hide KindOf, FindText, TagLength;
    var tag := s[..n];
    var u := s[n..];
    assert (s + r)[..n] == tag;
    assert (s + r)[n..] == u + r;
    hide Calm;
    FindTextIn(tag, u, r);
    FindTextFits(tag, u);
    FindTextFits(tag, u + r);
  }

  lemma FindTextFits(p: string, s: string)
    requires p != []
    ensures FindText(p, s) < |s| ==> FindText(p, s) + |p| <= |s|
  {
    FindTextIsFirst(p, s);
  }

  /* ---- texts of one statement ---- */

  predicate CommentFree(s: string)
    decreases |s|
  {
    s == [] || (KindOf(s) != Comment && CommentFree(Rest(s)))
  }

  /** Neither a comment nor a semicolon token. */
  predicate Clean(s: string)
    decreases |s|
  {
    s == [] || (KindOf(s) != Comment && KindOf(s) != Semicolon && Clean(Rest(s)))
  }

  /** Clean, and every quote and dollar body is terminated. */
  predicate Whole(s: string)
    decreases |s|
  {
    s == [] || (KindOf(s) != Comment && KindOf(s) != Semicolon && Closed(s) && Whole(Rest(s)))
  }

  lemma {:induction false} WholeIsClean(s: string)
    requires Whole(s)
    ensures Clean(s)
    decreases |s|
  {
    if s != [] { WholeIsClean(Rest(s)); }
  }

  /** The first token goes into the current statement. */
  lemma FirstJoins(s: string, buf: string)
    requires s != [] && KindOf(s) != Comment && KindOf(s) != Semicolon
    ensures Group(Tokens(s), buf) == Group(Tokens(Rest(s)), buf + Next(s).text)
  {
    hide KindOf, Length;
    GroupKept(Next(s), Tokens(Rest(s)), buf);
  }

  lemma Regroup(buf: string, s: string)
    requires s != []
    ensures (buf + Next(s).text) + Rest(s) == buf + s
  {
    var n := Length(s);
    hide Length, KindOf;
    assert s == s[..n] + s[n..];
  }

  lemma {:induction false} CleanGroup(s: string, buf: string)
    requires Clean(s)
    ensures Group(Tokens(s), buf) == Emit(buf + s)
    decreases |s|
  {
    hide KindOf, Length, Emit;
    if s == [] {
      assert buf + [] == buf;
    } else {
      hide Tokens, Group;
      CleanGroup(Rest(s), buf + Next(s).text);
      FirstJoins(s, buf);
      Regroup(buf, s);
    }
  }

  /** A clean text is one statement. */
  lemma CleanIsOne(s: string)
    requires Clean(s)
    ensures Statements(s) == Emit(s)
  {
    CleanGroup(s, []);
    assert [] + s == s;
  }

  lemma {:induction false} WholeGroup(s: string, r: string, buf: string)
    requires Whole(s) && Calm(r)
    ensures Group(Tokens(s + r), buf) == Group(Tokens(r), buf + s)
    decreases |s|
  {
    hide Calm, KindOf, Length, Tokens, Group, Closed;
    if s == [] {
      assert s + r == r && buf + [] == buf;
    } else {
      WholeStep(s, r, buf);
      WholeGroup(Rest(s), r, buf + Next(s).text);
      Regroup(buf, s);
    }
  }

  lemma SemicolonFirst(s: string)
    requires s != [] && s[0] == ';'
    ensures KindOf(s) == Semicolon && Length(s) == 1
  {
    assert !Starts(s, "--") by {
      if |s| >= 2 { assert s[..2][0] == s[0]; }
    }
  }

  lemma GroupCuts(t: Token, ts: seq<Token>, buf: string)
    requires t.kind == Semicolon
    ensures Group([t] + ts, buf) == Emit(buf) + Group(ts, [])
  {
    hide Emit;
    assert ([t] + ts)[1..] == ts;
  }

  lemma CutStep(rest: string, buf: string)
    ensures Group(Tokens(";" + rest), buf) == Emit(buf) + Statements(rest)
  {
    var r := ";" + rest;
    SemicolonFirst(r);
    hide KindOf, Length, Group, Emit;
    assert r[1..] == rest;
    GroupCuts(Next(r), Tokens(rest), buf);
  }

  lemma WholeStep(s: string, r: string, buf: string)
    requires s != [] && Whole(s) && Calm(r)
    ensures Group(Tokens(s + r), buf) == Group(Tokens(Rest(s) + r), buf + Next(s).text)
  {
    LengthIn(s, r);
    hide KindOf, Length, Closed, Calm, Group, Tokens;
    FirstJoins(s + r, buf);
    Cutting(s, Length(s), r);
  }

  lemma Cutting(s: string, n: nat, r: string)
    requires n <= |s|
    ensures (s + r)[..n] == s[..n] && (s + r)[n..] == s[n..] + r
  {
  }

  /** The law of the splitter: a whole text before a semicolon is split off, whatever follows. */
  lemma SplitLaw(s: string, rest: string)
    requires Whole(s)
    ensures Statements(s + ";" + rest) == Emit(s) + Statements(rest)
  {
    hide Calm, Tokens, Group, Emit, Whole;
    BeforeSemicolon(s, rest);
    WholeGroup(s, ";" + rest, []);
    assert [] + s == s;
    CutStep(rest, s);
  }

  /* ---- trimming a text of one statement ---- */

  lemma LeadingSpace(s: string)
    requires s != [] && IsSpace(s[0])
    ensures Clean(s) ==> Clean(s[1..])
    ensures Whole(s) ==> Whole(s[1..])
  {
    assert KindOf(s) == Comment || (KindOf(s) == Plain && Rest(s) == s[1..]);
  }

  lemma {:induction false} LStripKeeps(s: string)
    ensures Clean(s) ==> Clean(LStrip(s))
    ensures Whole(s) ==> Whole(LStrip(s))
  {
    hide Clean, Whole, IsSpace;
    if s != [] && IsSpace(s[0]) {
      LeadingSpace(s);
      LStripKeeps(s[1..]);
    }
  }

  /** A terminated quote or dollar body does not end in a space. */
  lemma ClosedEnd(s: string)
    requires s != [] && KindOf(s) != Comment && Closed(s) && Length(s) == |s| > 1
    ensures !IsSpace(s[|s| - 1])
  {
    var last := |s| - 1;
    match KindOf(s)
    case Quoted =>
      FindIsFirst('\'', s[1..]);
      assert s[last] == '\'';
    case Dollar => DollarEnd(s);
    case _ => assert false;
  }

  lemma DollarEnd(s: string)
    requires s != [] && KindOf(s) == Dollar && Closed(s) && Length(s) == |s|
    ensures s[|s| - 1] == '$'
  {
    var n := TagLength(s);
    assert 2 <= n <= |s| && s[n - 1] == '$';
    var tag, u := s[..n], s[n..];
    FindTextIsFirst(tag, u);
    FindTextFits(tag, u);
    var k := FindText(tag, u);
    hide FindText, TagLength, KindOf;
    assert k + n == |u|;
    assert u[k..][..n] == tag;
    assert u[k..][n - 1] == tag[n - 1];
  }

  lemma {:induction false} TrailingSpace(p: string, c: char)
    requires IsSpace(c)
    ensures Clean(p + [c]) ==> Clean(p)
    ensures Whole(p + [c]) ==> Whole(p)
    decreases |p|
  {
    if p != [] {
      var s := p + [c];
      assert Calm([c]);
      KindIn(p, [c]);
      if KindOf(p) != Comment {
        LengthIn(p, [c]);
        if Closed(s) && Length(s) == |s| { ClosedEnd(s); }
        hide IsSpace, KindOf, Length, Closed, Calm;
        if Closed(p) {
          assert Rest(s) == Rest(p) + [c];
          TrailingSpace(Rest(p), c);
        }
      }
    }
  }

  lemma {:induction false} RStripKeeps(s: string)
    ensures Clean(s) ==> Clean(RStrip(s))
    ensures Whole(s) ==> Whole(RStrip(s))
  {
    if s != [] && IsSpace(s[|s| - 1]) {
      var p := s[..|s| - 1];
      TrailingSpace(p, s[|s| - 1]);
      assert s == p + [s[|s| - 1]];
      hide IsSpace, Clean, Whole;
      RStripKeeps(p);
    }
  }

  lemma StripKeeps(s: string)
    ensures Clean(s) ==> Clean(Strip(s))
    ensures Whole(s) ==> Whole(Strip(s))
  {
    LStripKeeps(s);
    RStripKeeps(LStrip(s));
  }

  /* ---- the first statement of a text without comments ---- */

  datatype Split = One | More(first: string, rest: string)

  predicate Splits(s: string, at: Split) {
    match at
    case One => Clean(s)
    case More(first, rest) => s == first + ";" + rest && Whole(first) && CommentFree(rest)
  }

  /** A text without comments is clean, or a whole text, a semicolon and a text without comments. */
  lemma {:induction false} FirstStatement(s: string) returns (at: Split)
    requires CommentFree(s)
    ensures Splits(s, at)
    decreases |s|
  {
    if s == [] { return One; }
    if KindOf(s) == Semicolon {
      assert s == [] + ";" + Rest(s);
      return More([], Rest(s));
    }
    var later := FirstStatement(Rest(s));
    if later.One? { return One; }
    at := More(Next(s).text + later.first, later.rest);
    Prepend(s, later.first, later.rest);
  }

  lemma Reassociate(t: string, first: string, rest: string)
    ensures t + (first + ";" + rest) == (t + first) + ";" + rest
    ensures (t + first) + ";" + rest == (t + first) + (";" + rest)
    ensures (t + first)[|t|..] == first
  {
  }

  lemma Prepend(s: string, first: string, rest: string)
    requires s != [] && KindOf(s) != Comment && KindOf(s) != Semicolon
    requires Rest(s) == first + ";" + rest && Whole(first)
    ensures s == (Next(s).text + first) + ";" + rest && Whole(Next(s).text + first)
  {
    var t, r := Next(s).text, ";" + rest;
    var p := t + first;
    assert s == t + Rest(s) && |t| == Length(s);
    Reassociate(t, first, rest);
    assert Calm(r);
    hide KindOf, Length, Closed, Calm;
    assert s == p + r;
    KindIn(p, r);
    LengthIn(p, r);
    ClosedIfShort(s);
    assert Rest(p) == first;
  }

  lemma ClosedIfShort(s: string)
    requires s != [] && KindOf(s) != Comment && Length(s) < |s|
    ensures Closed(s)
  {
    assert s + [] == s;
    assert Calm([]);
    hide KindOf, Length, Closed;
    LengthIn(s, []);
  }

  /* ---- the laws ---- */

  /** The text behind the last free semicolon, without its comments. */
  function Tail(s: string): string {
    var segments := Segments(Tokens(s));
    Text(segments[|segments| - 1])
  }

  lemma {:induction false} WholeTokens(s: string, r: string)
    requires Whole(s) && Calm(r)
    ensures Tokens(s + r) == Tokens(s) + Tokens(r) && Uncut(Tokens(s))
    decreases |s|
  {
    hide Calm, KindOf, Length, Closed;
    if s == [] {
      assert s + r == r;
    } else {
      LengthIn(s, r);
      WholeTokens(Rest(s), r);
      Cutting(s, Length(s), r);
      assert Tokens(s) == [Next(s)] + Tokens(Rest(s));
      assert Tokens(s + r) == [Next(s)] + Tokens(Rest(s) + r);
    }
  }

  lemma CutAt(ts: seq<Token>, n: nat)
    requires n < |ts| && ts[n].kind == Semicolon && forall i :: 0 <= i < n ==> ts[i].kind != Semicolon
    ensures Cut(ts) == n
  {
    var k := Cut(ts);
    hide Cut;
  }

  lemma SegmentsAtCut(a: seq<Token>, t: Token, b: seq<Token>)
    requires Uncut(a) && t.kind == Semicolon
    ensures Segments(a + ([t] + b)) == [a] + Segments(b)
  {
    var ts := a + ([t] + b);
    CutAt(ts, |a|);
    hide Cut, Uncut;
    Around(a, t, b);
  }

  lemma Around(a: seq<Token>, t: Token, b: seq<Token>)
    ensures var ts := a + ([t] + b);
            ts[..|a|] == a && ts[|a| + 1..] == b
  {
  }

  lemma SemicolonTokens(rest: string) returns (t: Token)
    ensures t.kind == Semicolon && Tokens(";" + rest) == [t] + Tokens(rest)
  {
    var r := ";" + rest;
    SemicolonFirst(r);
    hide KindOf, Length;
    assert r[1..] == rest;
    t := Next(r);
  }

  lemma TailBehind(first: string, rest: string)
    requires Whole(first)
    ensures Tail(first + ";" + rest) == Tail(rest)
  {
    hide Tokens, Calm, Whole, Segments, Text;
    BeforeSemicolon(first, rest);
    WholeTokens(first, ";" + rest);
    var t := SemicolonTokens(rest);
    SegmentsAtCut(Tokens(first), t, Tokens(rest));
  }

  lemma BeforeSemicolon(s: string, rest: string)
    ensures s + ";" + rest == s + (";" + rest) && Calm(";" + rest)
  {
  }

  lemma TokensFirst(s: string)
    requires s != []
    ensures Tokens(s) == [Next(s)] + Tokens(Rest(s)) && s == Next(s).text + Rest(s)
  {
    hide KindOf;
    var n := Length(s);
    assert s == s[..n] + s[n..];
  }

  lemma TextFirst(t: Token, ts: seq<Token>)
    ensures Text([t] + ts) == Kept(t) + Text(ts)
    ensures t.kind != Semicolon && Uncut(ts) ==> Uncut([t] + ts)
  {
    hide Kept;
    assert ([t] + ts)[1..] == ts;
  }

  lemma {:induction false} CleanTokens(s: string)
    requires Clean(s)
    ensures Uncut(Tokens(s)) && Text(Tokens(s)) == s
    decreases |s|
  {
    hide KindOf, Length;
    if s != [] {
      hide Tokens, Text, Uncut;
      CleanTokens(Rest(s));
      TokensFirst(s);
      TextFirst(Next(s), Tokens(Rest(s)));
    }
  }

  lemma CleanTail(s: string)
    requires Clean(s)
    ensures Tail(s) == s
  {
    CleanTokens(s);
    hide Tokens, Text, Clean;
    assert Cut(Tokens(s)) == |Tokens(s)|;
  }

  /** Every statement that a semicolon ends, of any text without comments, is split off again in
      front of any text: split(st + ";" + rest) == [st] + split(rest). Those are all but the last,
      and the last too if only blanks follow the last semicolon. */
  lemma {:induction false} StatementLaw(sql: string, k: nat, rest: string)
    requires CommentFree(sql) && k < |Statements(sql)|
    requires k + 1 < |Statements(sql)| || Strip(Tail(sql)) == []
    ensures var st := Statements(sql)[k];
            Statements(st + ";" + rest) == [st] + Statements(rest)
    decreases |sql|
  {
    hide Strip, Statements, Clean, CommentFree, Whole, Tail;
    var at := FirstStatement(sql);
    if at.One? {
      CleanIsOne(sql);
      CleanTail(sql);
    } else {
      SplitLaw(at.first, at.rest);
      TailBehind(at.first, at.rest);
      if Strip(at.first) == [] {
        assert [] + Statements(at.rest) == Statements(at.rest);
        StatementLaw(at.rest, k, rest);
      } else if k > 0 {
        StatementLaw(at.rest, k - 1, rest);
      } else {
        StrippedLaw(at.first, rest);
      }
    }
  }

  lemma StrippedLaw(s: string, rest: string)
    requires Whole(s) && Strip(s) != []
    ensures Statements(Strip(s) + ";" + rest) == [Strip(s)] + Statements(rest)
  {
    StripKeeps(s);
    StripTrims(s);
    SplitLaw(Strip(s), rest);
  }

  /** An open quote or dollar body takes a semicolon behind it in. */
  lemma {:induction false} OpenTakesSemicolon(s: string)
    requires Clean(s) && !Whole(s)
    ensures Clean(s + ";")
    decreases |s|
  {
    var r := ";";
    assert Calm(r);
    hide Calm, KindOf, Length, Closed;
    LengthIn(s, r);
    if Closed(s) {
      Cutting(s, Length(s), r);
      OpenTakesSemicolon(Rest(s));
    } else {
      if Length(s + r) < |s + r| { ClosedIfShort(s + r); }
      assert Rest(s + r) == [];
    }
  }

  /** The law is exact: a trimmed text of one statement is split off in front of every text if and
      only if all its quotes and dollar bodies are terminated. */
  lemma SplitLawIffWhole(s: string)
    requires s != [] && Trimmed(s) && Clean(s)
    ensures (forall rest :: Statements(s + ";" + rest) == [s] + Statements(rest)) <==> Whole(s)
  {
    TrimmedStays(s);
    if Whole(s) {
      forall rest
        ensures Statements(s + ";" + rest) == [s] + Statements(rest)
      {
        SplitLaw(s, rest);
      }
    } else {
      OpenTakesSemicolon(s);
      CleanIsOne(s + ";");
      TrimmedStays(s + ";");
      assert s + ";" + [] == s + ";";
      hide Statements, Strip, Clean, Whole, IsSpace;
      assert Statements(s + ";" + [])[0] != s;
    }
  }

  function Join(statements: seq<string>): string {
    if statements == [] then []
    else if |statements| == 1 then statements[0]
    else statements[0] + ";" + Join(statements[1..])
  }

  /** The round trip: without comments, joining the statements with semicolons and splitting again
      gives the same statements. */
  lemma {:induction false} RoundTrip(sql: string)
    requires CommentFree(sql)
    ensures Statements(Join(Statements(sql))) == Statements(sql)
    decreases |sql|
  {
    var at := FirstStatement(sql);
    if at.One? {
      RoundTripOne(sql);
    } else {
      RoundTrip(at.rest);
      RoundTripMore(at.first, at.rest);
    }
  }

  lemma RoundTripOne(s: string)
    requires Clean(s)
    ensures Statements(Join(Statements(s))) == Statements(s)
  {
    var st := Strip(s);
    CleanIsOne(s);
    StripKeeps(s);
    CleanIsOne(st);
    StripTrims(s);
    hide Strip, Statements, Clean;
    if st == [] {
      assert Statements(s) == [];
      assert Statements([]) == [];
    }
  }

  lemma RoundTripMore(first: string, rest: string)
    requires Whole(first) && Statements(Join(Statements(rest))) == Statements(rest)
    ensures var all := Statements(first + ";" + rest);
            Statements(Join(all)) == all
  {
    hide Strip, Statements, Clean, Whole, Join;
    var st, later := Strip(first), Statements(rest);
    SplitLaw(first, rest);
    StripKeeps(first);
    StripTrims(first);
    if st != [] {
      assert Emit(st) == [st];
      JoinMore(st, later);
      if later == [] {
        WholeIsClean(st);
        CleanIsOne(st);
      } else {
        SplitLaw(st, Join(later));
      }
    } else {
      assert Emit(first) + later == later;
    }
  }

  lemma JoinOne(st: string)
    ensures Join([st]) == st
  {
  }

  lemma JoinMore(st: string, later: seq<string>)
    ensures Join([st] + later) == if later == [] then st else st + ";" + Join(later)
  {
    assert ([st] + later)[1..] == later;
  }

  lemma FirstGroup(t: Token, r: string, buf: string)
    requires t.text != [] && t.kind != Semicolon
    requires KindOf(t.text + r) == t.kind && Length(t.text + r) == |t.text|
    ensures Group(Tokens(t.text + r), buf) == Group(Tokens(r), buf + Kept(t))
  {
    var s := t.text + r;
    assert s[..|t.text|] == t.text && s[|t.text|..] == r;
    hide KindOf, Length, Kept;
    assert Tokens(s) == [t] + Tokens(r);
    GroupSkips([t] + Tokens(r), buf);
  }

  lemma LoneDollarKind(s: string)
    requires |s| >= 2 && s[0] == '$' && s[1] != '$' && !IsTagChar(s[1])
    ensures KindOf(s) == Plain && Length(s) == 1
  {
    assert TagRun(s[1..]) == 0 && s[1..][0] == s[1];
    assert TagLength(s) == 0;
    hide TagLength;
    assert s[..2][0] == s[0];
  }

  lemma LoneDollar(r: string, buf: string)
    requires r != [] && r[0] != '$' && !IsTagChar(r[0])
    ensures Group(Tokens("$" + r), buf) == Group(Tokens(r), buf + "$")
  {
    LoneDollarKind("$" + r);
    hide KindOf, Length;
    FirstGroup(Token(Plain, "$"), r, buf);
  }

  lemma EmptyComment(r: string, buf: string)
    ensures Group(Tokens("--\n" + r), buf) == Group(Tokens(r), buf)
  {
    var s := "--\n" + r;
    assert s[..2] == "--";
    FindIsFirst('\n', s);
    assert s[0] == '-' && s[1] == '-' && s[2] == '\n';
    FirstGroup(Token(Comment, "--\n"), r, buf);
    assert buf + [] == buf;
  }

  lemma {:induction false} OpenDollar(b: string)
    requires forall i :: 0 <= i < |b| ==> b[i] != '$'
    ensures Clean("$$" + b)
  {
    var s := "$$" + b;
    assert s[1..][0] == '$' && TagRun(s[1..]) == 0;
    assert TagLength(s) == 2 && s[..2] == "$$" && s[2..] == b;
    NoDollar(b);
    assert Length(s) == |s|;
  }

  lemma {:induction false} NoDollar(b: string)
    requires forall i :: 0 <= i < |b| ==> b[i] != '$'
    ensures FindText("$$", b) == |b|
  {
    if b != [] {
      NoDollar(b[1..]);
      assert |b| >= 2 ==> b[..2][0] == b[0];
    }
  }

  /** A comment is dropped with its newline, which can open a dollar body that was not there: then
      the round trip does not survive the comment. Here b is any clean, trimmed text without dollars. */
  lemma CommentsCanBreakRoundTrip(b: string)
    requires b != [] && Trimmed(b) && Clean(b) && forall i :: 0 <= i < |b| ==> b[i] != '$'
    ensures var sql := "$" + ("--\n" + ("$" + (";" + b)));
            && Statements(sql) == ["$$", b]
            && Join(["$$", b]) == "$$;" + b
            && Statements("$$;" + b) == ["$$;" + b]
  {
    hide *;
    CommentedSplit(b);
    OpenedSplit(b);
    JoinOne(b);
    JoinMore("$$", [b]);
    assert ["$$"] + [b] == ["$$", b];
    assert "$$" + ";" + b == "$$;" + b;
  }

  lemma OpenedSplit(b: string)
    requires b != [] && Trimmed(b) && forall i :: 0 <= i < |b| ==> b[i] != '$'
    ensures Statements("$$;" + b) == ["$$;" + b]
  {
    var s := "$$;" + b;
    hide Clean, Strip, Statements;
    OpenDollar(";" + b);
    assert "$$" + (";" + b) == s;
    CleanIsOne(s);
    TrimmedStays(s);
  }

  lemma CommentedSplit(b: string)
    requires b != [] && Trimmed(b) && Clean(b)
    ensures Statements("$" + ("--\n" + ("$" + (";" + b)))) == ["$$", b]
  {
    hide Tokens, Group, Clean, Strip;
    assert [] + "$" == "$" && "$" + "$" == "$$" && ["$$"] + [b] == ["$$", b];
    LoneDollar("--\n" + ("$" + (";" + b)), []);
    EmptyComment("$" + (";" + b), "$");
    LoneDollar(";" + b, "$");
    CutStep(b, "$$");
    CleanIsOne(b);
    TrimmedStays(b);
    TrimmedStays("$$");
  }
}
