/** Exactly when splitting and joining undo each other, on every text: comments do not always
    spoil it, and when they do it shows in the statements. */
module RoundTrips {
  import opened Splitter
  import opened SplitLaws

  /** The characters of the statements, and one for the semicolon or the end behind each. */
  function Weight(statements: seq<string>): nat {
    if statements == [] then 0 else |statements[0]| + 1 + Weight(statements[1..])
  }

  lemma {:induction false} WeightAppend(a: seq<string>, b: seq<string>)
    ensures Weight(a + b) == Weight(a) + Weight(b)
  {
    if a == [] {
      assert a + b == b;
    } else {
      WeightAppend(a[1..], b);
      assert (a + b)[1..] == a[1..] + b;
    }
  }

  lemma StripIsPart(s: string)
    ensures |Strip(s)| <= |s|
    ensures |Strip(s)| == |s| ==> Strip(s) == s
  {
    var l := LStrip(s);
    assert |l| == |s| ==> l == s;
    assert |RStrip(l)| == |l| ==> RStrip(l) == l;
  }

  lemma EmitWeight(buf: string)
    ensures Weight(Emit(buf)) <= |buf| + 1
    ensures Weight(Emit(buf)) == |buf| + 1 ==> Strip(buf) == buf && buf != [] && Emit(buf) == [buf]
  {
    StripIsPart(buf);
    hide Strip;
    assert Strip(buf) != [] ==> Weight([Strip(buf)]) == |Strip(buf)| + 1;
  }

  lemma NextAndRest(s: string)
    requires s != []
    ensures |Next(s).text| + |Rest(s)| == |s| && |Next(s).text| >= 1 && Next(s).kind == KindOf(s)
  {
  }

  lemma CommentFreeStep(s: string)
    requires s != []
    ensures CommentFree(s) <==> KindOf(s) != Comment && CommentFree(Rest(s))
  {
  }

  lemma NothingLeft(buf: string)
    ensures Group(Tokens([]), buf) == Emit(buf) && CommentFree([])
  {
  }

  /** Splitting adds no weight, and a comment loses some. */
  lemma {:induction false} SplitWeight(s: string, buf: string)
    ensures Weight(Group(Tokens(s), buf)) <= |buf| + |s| + 1
    ensures Weight(Group(Tokens(s), buf)) == |buf| + |s| + 1 ==> CommentFree(s)
    decreases |s|
  {
    hide *;
    EmitWeight(buf);
    if s == [] {
      NothingLeft(buf);
    } else {
      NextAndRest(s);
      CommentFreeStep(s);
      match KindOf(s)
      case Semicolon =>
        SplitWeight(Rest(s), []);
        TokensFirst(s);
        GroupCuts(Next(s), Tokens(Rest(s)), buf);
        WeightAppend(Emit(buf), Group(Tokens(Rest(s)), []));
      case Comment =>
        SplitWeight(Rest(s), buf);
        CommentDrops(s, buf);
      case _ =>
        SplitWeight(Rest(s), buf + Next(s).text);
        FirstJoins(s, buf);
    }
  }

  lemma CommentDrops(s: string, buf: string)
    requires s != [] && KindOf(s) == Comment
    ensures Group(Tokens(s), buf) == Group(Tokens(Rest(s)), buf)
  {
    hide KindOf, Length, Emit;
    TokensFirst(s);
    assert Tokens(s)[1..] == Tokens(Rest(s));
    hide Tokens;
  }

  lemma {:induction false} JoinWeight(statements: seq<string>)
    requires statements != []
    ensures |Join(statements)| + 1 == Weight(statements)
  {
    if |statements| == 1 {
      assert Weight(statements[1..]) == 0;
    } else {
      JoinWeight(statements[1..]);
    }
  }

  /** Every statement but the last has all its quotes and dollar bodies terminated, and none holds
      a comment or a free semicolon. */
  predicate Stable(statements: seq<string>) {
    && (forall k :: 0 <= k < |statements| - 1 ==> Whole(statements[k]))
    && (statements != [] ==> Clean(statements[|statements| - 1]))
  }

  ghost predicate AllTidy(statements: seq<string>) {
    forall st :: st in statements ==> Tidy(st)
  }

  lemma TidyEmits(st: string)
    requires Tidy(st)
    ensures Emit(st) == [st]
  {
  }

  /** Stable statements survive joining and splitting. */
  lemma {:induction false} StableSurvives(statements: seq<string>)
    requires AllTidy(statements) && Stable(statements)
    ensures Statements(Join(statements)) == statements
  {
    hide Tidy, Whole, Clean, Statements, Emit;
    if statements == [] {
      NoText();
    } else {
      var st, later := statements[0], statements[1..];
      assert st in statements;
      TidyEmits(st);
      assert statements == [st] + later;
      if later == [] {
        CleanIsOne(st);
      } else {
        assert Stable(later);
        StableSurvives(later);
        SplitLaw(st, Join(later));
      }
    }
  }

  lemma NoText()
    ensures Statements([]) == []
  {
  }

  /** What survives joining and splitting is stable: a comment, an extra cut or a trimmed space
      would have lost weight. */
  lemma {:induction false} SurvivorsAreStable(statements: seq<string>)
    requires Statements(Join(statements)) == statements
    ensures Stable(statements)
  {
    if statements != [] {
      var text := Join(statements);
      JoinWeight(statements);
      SplitWeight(text, []);
      hide Join, Whole, Clean, Statements, CommentFree;
      assert CommentFree(text) by { WeightMeets(text, statements); }
      var at := FirstStatement(text);
      if at.One? {
        OneSurvives(text, statements);
      } else {
        FirstSurvives(at.first, at.rest, statements);
        SurvivorsAreStable(statements[1..]);
        StableMore(statements);
      }
    }
  }

  lemma WeightMeets(text: string, statements: seq<string>)
    requires Statements(text) == statements && |text| + 1 == Weight(statements)
    ensures CommentFree(text)
  {
    SplitWeight(text, []);
  }

  lemma OneSurvives(text: string, statements: seq<string>)
    requires Clean(text) && Statements(text) == statements != [] && |text| + 1 == Weight(statements)
    ensures Stable(statements)
  {
    CleanIsOne(text);
    hide Clean, Whole, Statements;
    EmitWeight(text);
  }

  lemma FirstSurvives(first: string, rest: string, statements: seq<string>)
    requires Whole(first) && first + ";" + rest == Join(statements) && statements != []
    requires Statements(Join(statements)) == statements
    ensures |statements| > 1 && Whole(statements[0]) && Statements(Join(statements[1..])) == statements[1..]
  {
    hide Whole, Statements, Weight, Emit;
    JoinWeight(statements);
    SplitLaw(first, rest);
    EmitWeight(first);
    SplitWeightAll(rest);
    WeightAppend(Emit(first), Statements(rest));
    assert Emit(first) == [first];
    assert statements == [first] + Statements(rest);
    var later := statements[1..];
    assert later == Statements(rest);
    assert later != [] by { WeightOfNone(later, rest); }
    assert Join(statements) == first + ";" + Join(later);
    SameRest(first, rest, Join(later));
  }

  lemma SplitWeightAll(s: string)
    ensures Weight(Statements(s)) <= |s| + 1
  {
    SplitWeight(s, []);
  }

  lemma WeightOfNone(later: seq<string>, rest: string)
    requires Weight(later) == |rest| + 1
    ensures later != []
  {
  }

  lemma SameRest(first: string, rest: string, rest': string)
    requires first + ";" + rest == first + ";" + rest'
    ensures rest == rest'
  {
    var a, b := first + ";" + rest, first + ";" + rest';
    assert rest == a[|first| + 1..] && rest' == b[|first| + 1..];
  }

  lemma StableMore(statements: seq<string>)
    requires |statements| > 1 && Whole(statements[0]) && Stable(statements[1..])
    ensures Stable(statements)
  {
    hide Whole, Clean;
    var later := statements[1..];
    forall k | 0 <= k < |statements| - 1
      ensures Whole(statements[k])
    {
      if k > 0 { assert statements[k] == later[k - 1]; }
    }
    assert statements[|statements| - 1] == later[|later| - 1];
  }

  /** The round trip holds for exactly the texts, with or without comments, whose statements are
      stable: on all of them but the last every quote and dollar body is terminated, and the last
      holds neither a comment nor a free semicolon. */
  lemma RoundTripIff(sql: string)
    ensures Statements(Join(Statements(sql))) == Statements(sql) <==> Stable(Statements(sql))
  {
    var statements := Statements(sql);
    StatementsAreTrimmed(sql);
    assert AllTidy(statements);
    hide *;
    if Stable(statements) { StableSurvives(statements); }
    if Statements(Join(statements)) == statements { SurvivorsAreStable(statements); }
  }

  /* ---- comments in front ---- */

  /** Comments come only before everything else, as in a file header. */
  predicate CommentsFirst(s: string)
    decreases |s|
  {
    CommentFree(s) || (s != [] && KindOf(s) == Comment && CommentsFirst(Rest(s)))
  }

  /** A text whose comments are all in its header splits like the text without it, and makes the
      round trip. */
  lemma {:induction false} HeaderRoundTrip(sql: string) returns (body: string)
    requires CommentsFirst(sql)
    ensures CommentFree(body) && Statements(sql) == Statements(body)
    ensures |body| <= |sql| && body == sql[|sql| - |body|..]
    ensures Statements(Join(Statements(sql))) == Statements(sql)
    decreases |sql|
  {
    hide KindOf, Length, Tokens, Group;
    if CommentFree(sql) {
      RoundTrip(sql);
      body := sql;
    } else {
      CommentDrops(sql, []);
      body := HeaderRoundTrip(Rest(sql));
    }
  }
}
