/** The SQL splitter of the migration runner (app/settle/migrate.py, split_statements): a lexer
    and a grouping of its tokens as the specification, and the hand-written loop that meets it. */
module Splitter {
  import opened Common

  /* ---- characters and searching ---- */

  /** What str.strip removes. */
  predicate IsSpace(c: char) {
    var n := c as int;
    (9 <= n <= 13) || (28 <= n <= 32) || n == 0x85 || n == 0xA0 || n == 0x1680 || (0x2000 <= n <= 0x200A)
    || n == 0x2028 || n == 0x2029 || n == 0x202F || n == 0x205F || n == 0x3000
  }

  predicate IsTagChar(c: char) {
    ('A' <= c <= 'Z') || ('a' <= c <= 'z') || c == '_'
  }

  function LStrip(s: string): (r: string)
    ensures |r| <= |s| && r == s[|s| - |r|..]
  {
    if s != [] && IsSpace(s[0]) then LStrip(s[1..]) else s
  }

  function RStrip(s: string): (r: string)
    ensures |r| <= |s| && r == s[..|r|]
  {
    if s != [] && IsSpace(s[|s| - 1]) then RStrip(s[..|s| - 1]) else s
  }

  function Strip(s: string): string {
    RStrip(LStrip(s))
  }

  /** No space at either end. */
  predicate Trimmed(s: string) {
    s == [] || (!IsSpace(s[0]) && !IsSpace(s[|s| - 1]))
  }

  /** The first position of c, or the length. */
  function Find(c: char, s: string): (i: nat)
    ensures i <= |s|
  {
    if s == [] || s[0] == c then 0 else 1 + Find(c, s[1..])
  }

  lemma {:induction false} FindIsFirst(c: char, s: string)
    ensures var i := Find(c, s); (i < |s| ==> s[i] == c) && forall k :: 0 <= k < i ==> s[k] != c
  {
    if s != [] && s[0] != c { FindIsFirst(c, s[1..]); }
  }

  predicate Starts(s: string, p: string) {
    |p| <= |s| && s[..|p|] == p
  }

  /** The first position where p starts, or the length. */
  function FindText(p: string, s: string): (i: nat)
    ensures i <= |s|
  {
    if s == [] || Starts(s, p) then 0 else 1 + FindText(p, s[1..])
  }

  /** FindText is right: p starts there, and nowhere before. */
  lemma {:induction false} FindTextIsFirst(p: string, s: string)
    requires p != []
    ensures var i := FindText(p, s);
            (i < |s| ==> Starts(s[i..], p)) && forall k :: 0 <= k < i ==> !Starts(s[k..], p)
  {
    if s != [] && !Starts(s, p) {
      FindTextIsFirst(p, s[1..]);
      var i := FindText(p, s);
      assert s[i..] == s[1..][i - 1..];
      forall k | 0 <= k < i
        ensures !Starts(s[k..], p)
      {
        if k == 0 { assert s[k..] == s; } else { assert s[k..] == s[1..][k - 1..]; }
      }
    }
    assert s[0..] == s;
  }

  /** The length of the dollar tag at the start of s, or 0 if there is none. */
  function TagLength(s: string): (n: nat)
    ensures n == 0 || (2 <= n <= |s| && s[0] == '$' && s[n - 1] == '$')
  {
    if s == [] || s[0] != '$' then 0
    else
      var k := TagRun(s[1..]);
      if 1 + k < |s| && s[1 + k] == '$' then k + 2 else 0
  }

  function TagRun(s: string): (k: nat)
    ensures k <= |s| && (forall i :: 0 <= i < k ==> IsTagChar(s[i])) && (k < |s| ==> !IsTagChar(s[k]))
  {
    if s == [] || !IsTagChar(s[0]) then 0 else 1 + TagRun(s[1..])
  }

  /* ---- the lexer ---- */

  datatype Kind = Comment | Quoted | Dollar | Plain | Semicolon

  datatype Token = Token(kind: Kind, text: string)

  function KindOf(s: string): Kind
    requires s != []
  {
    if Starts(s, "--") then Comment
    else if s[0] == '\'' then Quoted
    else if TagLength(s) > 0 then Dollar
    else if s[0] == ';' then Semicolon
    else Plain
  }

  function Cap(n: nat, s: string): nat {
    if n <= |s| then n else |s|
  }

  /** A dollar body runs to the end of the next copy of its tag, or to the end of the text. */
  function BodyLength(tag: string, s: string): (n: nat)
    ensures n <= |s|
  {
    Cap(FindText(tag, s) + |tag|, s)
  }

  /** The length of the first token of s. A comment takes its newline with it; an unterminated quote
      or dollar body takes the rest. */
  function Length(s: string): (n: nat)
    requires s != []
    ensures 1 <= n <= |s|
  {
    match KindOf(s)
    case Comment => Cap(Find('\n', s) + 1, s)
    case Quoted => Cap(Find('\'', s[1..]) + 2, s)
    case Dollar => TagLength(s) + BodyLength(s[..TagLength(s)], s[TagLength(s)..])
    case Semicolon => 1
    case Plain => 1
  }

  function Next(s: string): Token
    requires s != []
  {
    Token(KindOf(s), s[..Length(s)])
  }

  function Rest(s: string): (r: string)
    requires s != []
    ensures |r| < |s|
  {
    s[Length(s)..]
  }

  function Tokens(s: string): seq<Token>
    decreases |s|
  {
    if s == [] then [] else [Next(s)] + Tokens(Rest(s))
  }

  function Sources(ts: seq<Token>): string {
    if ts == [] then [] else ts[0].text + Sources(ts[1..])
  }

  /** Lexing loses nothing: every character is in exactly one token, in order. */
  lemma {:induction false} TokensAreLossless(s: string)
    ensures Sources(Tokens(s)) == s
    decreases |s|
  {
    if s != [] {
      TokensAreLossless(Rest(s));
      assert s == Next(s).text + Rest(s);
    }
  }

  /* ---- grouping ---- */

  function Emit(buf: string): seq<string> {
    if Strip(buf) == [] then [] else [Strip(buf)]
  }

  /** Statements are cut at semicolon tokens; `buf` is the text of the current one so far, which
      leaves comments out. */
  function Group(ts: seq<Token>, buf: string): seq<string>
    decreases |ts|
  {
    if ts == [] then Emit(buf)
    else
      match ts[0].kind
      case Semicolon => Emit(buf) + Group(ts[1..], [])
      case Comment => Group(ts[1..], buf)
      case _ => Group(ts[1..], buf + ts[0].text)
  }

  function Statements(s: string): seq<string> {
    Group(Tokens(s), [])
  }

  /* ---- the code ---- */

  /** str.startswith(p, i). */
  predicate StartsAt(sql: string, i: nat, p: string)
    requires i <= |sql|
  {
    Starts(sql[i..], p)
  }

  /** str.find(c, i), with the length for "not found". */
  function FindFrom(c: char, sql: string, i: nat): (j: nat)
    requires i <= |sql|
    ensures i <= j <= |sql|
  {
    i + Find(c, sql[i..])
  }

  /** The dollar tag at position i. */
  function TagAt(sql: string, i: nat): (tag: Option<string>)
    requires i <= |sql|
    ensures tag.Some? ==> tag.value != [] && i + |tag.value| <= |sql|
  {
    var n := TagLength(sql[i..]);
    if n > 0 then Some(sql[i..][..n]) else None
  }

  method SplitStatements(sql: string) returns (out: seq<string>)
    ensures out == Statements(sql)
  {
    out := [];
    var buf, i, n := "", 0, |sql|;
    var dollar: Option<string> := None;
    hide ToCome, StartsAt, FindFrom, TagAt, Strip;
    Begins(sql);
    while i < n
      invariant 0 <= i <= n == |sql|
      invariant dollar.Some? ==> |dollar.value| > 0
      invariant ToCome(dollar, sql, i, buf, out) == Statements(sql)
      decreases n - i
    {
      var c := sql[i];
      if dollar.Some? {
        if StartsAt(sql, i, dollar.value) {
          DollarCloses(dollar.value, sql, i, buf, out);
          buf, i := buf + dollar.value, i + |dollar.value|;
          dollar := None;
          continue;
        }
        DollarGoesOn(dollar.value, sql, i, buf, out);
      } else if StartsAt(sql, i, "--") {
        CommentStep(sql, i, buf, out);
        var j := FindFrom('\n', sql, i);
        i := if j == n then n else j + 1;
        continue;
      } else if c == '\'' {
        QuoteStep(sql, i, buf, out);
        var j := FindFrom('\'', sql, i + 1);
        j := if j == n then n - 1 else j;
        buf := buf + sql[i..j + 1];
        i := j + 1;
        continue;
      } else if c == '$' && TagAt(sql, i).Some? {
        dollar := TagAt(sql, i);
        DollarOpens(sql, i, dollar.value, buf, out);
        buf, i := buf + dollar.value, i + |dollar.value|;
        continue;
      } else if c == ';' {
        SemicolonStep(sql, i, buf, out);
        var stmt := Strip(buf);
        out := out + if stmt != [] then [stmt] else [];
        buf := "";
        i := i + 1;
        continue;
      } else {
        PlainStep(sql, i, buf, out);
      }
      buf := buf + [c];
      i := i + 1;
    }
    Ends(dollar, sql, buf, out);
    var tail := Strip(buf);
    out := out + if tail != [] then [tail] else [];
  }

  /** What the loop will have put out in the end, from where it stands. */
  ghost function ToCome(dollar: Option<string>, sql: string, i: nat, buf: string, out: seq<string>): seq<string>
    requires i <= |sql|
  {
    match dollar
    case None => out + Group(Tokens(sql[i..]), buf)
    case Some(tag) =>
      var end := i + BodyLength(tag, sql[i..]);
      out + Group(Tokens(sql[end..]), buf + sql[i..end])
  }

  /* ---- the steps of the loop, one lemma per branch ---- */

  lemma Begins(sql: string)
    ensures ToCome(None, sql, 0, "", []) == Statements(sql)
  {
    assert sql[0..] == sql;
  }

  lemma Ends(dollar: Option<string>, sql: string, buf: string, out: seq<string>)
    ensures ToCome(dollar, sql, |sql|, buf, out) == out + if Strip(buf) != [] then [Strip(buf)] else []
  {
    assert sql[|sql|..] == [];
    assert buf + [] == buf;
  }

  lemma TokenStep(sql: string, i: nat, end: nat)
    requires i < end <= |sql| && Length(sql[i..]) == end - i
    ensures Tokens(sql[i..]) == [Token(KindOf(sql[i..]), sql[i..end])] + Tokens(sql[end..])
  {
    hide KindOf, Length;
    Slices(sql, i, end);
  }

  lemma Slices(sql: string, i: nat, end: nat)
    requires i <= end <= |sql|
    ensures sql[i..][..end - i] == sql[i..end] && sql[i..][end - i..] == sql[end..]
  {
  }

  lemma CommentStep(sql: string, i: nat, buf: string, out: seq<string>)
    requires i < |sql| && StartsAt(sql, i, "--")
    ensures var j := FindFrom('\n', sql, i);
            ToCome(None, sql, i, buf, out) == ToCome(None, sql, if j == |sql| then |sql| else j + 1, buf, out)
  {
    hide Tokens, Find;
    var j := FindFrom('\n', sql, i);
    TokenStep(sql, i, if j == |sql| then |sql| else j + 1);
  }

  /** A token that belongs to the statement. */
  lemma TextStep(sql: string, i: nat, end: nat, buf: string, out: seq<string>)
    requires i < end <= |sql| && Length(sql[i..]) == end - i
    requires KindOf(sql[i..]) != Comment && KindOf(sql[i..]) != Semicolon
    ensures ToCome(None, sql, i, buf, out) == ToCome(None, sql, end, buf + sql[i..end], out)
  {
    hide Tokens, Group, Length, KindOf;
    TokenStep(sql, i, end);
    GroupKept(Token(KindOf(sql[i..]), sql[i..end]), Tokens(sql[end..]), buf);
  }

  lemma QuoteStep(sql: string, i: nat, buf: string, out: seq<string>)
    requires i < |sql| && !StartsAt(sql, i, "--") && sql[i] == '\''
    ensures var j := FindFrom('\'', sql, i + 1);
            var end := if j == |sql| then |sql| else j + 1;
            i < end && ToCome(None, sql, i, buf, out) == ToCome(None, sql, end, buf + sql[i..end], out)
  {
    hide *;
    var j := FindFrom('\'', sql, i + 1);
    QuoteLength(sql, i);
    TextStep(sql, i, if j == |sql| then |sql| else j + 1, buf, out);
  }

  lemma QuoteLength(sql: string, i: nat)
    requires i < |sql| && !StartsAt(sql, i, "--") && sql[i] == '\''
    ensures var j := FindFrom('\'', sql, i + 1);
            Length(sql[i..]) == (if j == |sql| then |sql| else j + 1) - i && KindOf(sql[i..]) == Quoted
  {
    hide Find;
    assert sql[i..][1..] == sql[i + 1..];
  }

  lemma SemicolonStep(sql: string, i: nat, buf: string, out: seq<string>)
    requires i < |sql| && !StartsAt(sql, i, "--") && sql[i] == ';'
    ensures ToCome(None, sql, i, buf, out) ==
            ToCome(None, sql, i + 1, "", out + if Strip(buf) != [] then [Strip(buf)] else [])
  {
    hide Tokens, Strip;
    TokenStep(sql, i, i + 1);
  }

  lemma PlainStep(sql: string, i: nat, buf: string, out: seq<string>)
    requires i < |sql| && !StartsAt(sql, i, "--") && sql[i] != '\'' && sql[i] != ';'
    requires sql[i] == '$' ==> TagAt(sql, i) == None
    ensures ToCome(None, sql, i, buf, out) == ToCome(None, sql, i + 1, buf + [sql[i]], out)
  {
    hide Tokens;
    TokenStep(sql, i, i + 1);
    assert sql[i..i + 1] == [sql[i]];
  }

  lemma DollarOpens(sql: string, i: nat, tag: string, buf: string, out: seq<string>)
    requires i < |sql| && !StartsAt(sql, i, "--") && sql[i] == '$' && TagAt(sql, i) == Some(tag)
    requires i + |tag| <= |sql|
    ensures ToCome(None, sql, i, buf, out) == ToCome(Some(tag), sql, i + |tag|, buf + tag, out)
  {
    var end := DollarLength(sql, i, tag);
    DollarToken(sql, i, tag, end, buf, out);
  }

  lemma DollarToken(sql: string, i: nat, tag: string, end: nat, buf: string, out: seq<string>)
    requires i < i + |tag| <= end <= |sql| && tag == sql[i..i + |tag|]
    requires Length(sql[i..]) == end - i && KindOf(sql[i..]) == Dollar
    requires end == i + |tag| + BodyLength(tag, sql[i + |tag|..])
    ensures ToCome(None, sql, i, buf, out) == ToCome(Some(tag), sql, i + |tag|, buf + tag, out)
  {
    hide Length, KindOf, BodyLength, Tokens, Group;
    TokenStep(sql, i, end);
    GroupKept(Token(Dollar, sql[i..end]), Tokens(sql[end..]), buf);
    Prefixed(buf, tag, sql, i, end);
  }

  lemma GroupKept(t: Token, ts: seq<Token>, buf: string)
    requires t.kind != Semicolon && t.kind != Comment
    ensures Group([t] + ts, buf) == Group(ts, buf + t.text)
  {
    hide Emit;
    assert ([t] + ts)[1..] == ts;
  }

  lemma Prefixed(buf: string, tag: string, sql: string, i: nat, end: nat)
    requires i + |tag| <= end <= |sql| && tag == sql[i..i + |tag|]
    ensures (buf + tag) + sql[i + |tag|..end] == buf + sql[i..end]
  {
    assert sql[i..end] == tag + sql[i + |tag|..end];
  }

  lemma DollarLength(sql: string, i: nat, tag: string) returns (end: nat)
    requires i < |sql| && !StartsAt(sql, i, "--") && sql[i] == '$' && TagAt(sql, i) == Some(tag)
    ensures var at := i + |tag|; at <= end <= |sql| && end == at + BodyLength(tag, sql[at..])
    ensures Length(sql[i..]) == end - i && KindOf(sql[i..]) == Dollar && tag == sql[i..i + |tag|]
  {
    hide Tokens, TagLength, BodyLength;
    assert sql[i..][|tag|..] == sql[i + |tag|..];
    end := i + |tag| + BodyLength(tag, sql[i + |tag|..]);
  }

  lemma DollarCloses(tag: string, sql: string, i: nat, buf: string, out: seq<string>)
    requires |tag| > 0 && i < |sql| && StartsAt(sql, i, tag)
    ensures i + |tag| <= |sql| && ToCome(Some(tag), sql, i, buf, out) == ToCome(None, sql, i + |tag|, buf + tag, out)
  {
    hide Tokens, Group;
    assert sql[i..][..|tag|] == sql[i..i + |tag|];
  }

  lemma DollarGoesOn(tag: string, sql: string, i: nat, buf: string, out: seq<string>)
    requires |tag| > 0 && i < |sql| && !StartsAt(sql, i, tag)
    ensures ToCome(Some(tag), sql, i, buf, out) == ToCome(Some(tag), sql, i + 1, buf + [sql[i]], out)
  {
    hide Tokens, Group;
    assert sql[i..][1..] == sql[i + 1..];
    var end := i + BodyLength(tag, sql[i..]);
    assert FindText(tag, sql[i..]) == 1 + FindText(tag, sql[i + 1..]);
    hide FindText, StartsAt;
    assert (buf + [sql[i]]) + sql[i + 1..end] == buf + sql[i..end];
  }
}
