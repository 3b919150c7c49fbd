/** Migration files as the runner reads them, and how one application of a file ends
    (app/settle/migrate.py, apply_file), whatever becomes of each command. */
module MigrationFiles {
  import opened Common
  import opened Splitter
  import opened Runner

  /* ---- files as texts ---- */

  const NO_TX := "-- migrate:no-transaction"
  const LOCK_NOT_AVAILABLE := "55P03"

  /** str.upper, exact on what it maps to the letters of BEGIN and COMMIT. */
  function Upper(s: string): (u: string)
    ensures |u| == |s|
  {
    if s == [] then [] else
      var c := s[0];
      [if 'a' <= c <= 'z' then (c as int - 32) as char else if c as int == 0x131 then 'I' else c] + Upper(s[1..])
  }

  predicate IsBracket(statement: string) {
    Upper(statement) == "BEGIN" || Upper(statement) == "COMMIT"
  }

  function Unbracketed(statements: seq<string>): seq<string> {
    if statements == [] then []
    else (if IsBracket(statements[0]) then [] else [statements[0]]) + Unbracketed(statements[1..])
  }

  lemma {:induction false} UnbracketedSnoc(statements: seq<string>, k: nat)
    requires k < |statements|
    ensures var before := Unbracketed(statements[..k]);
            Unbracketed(statements[..k + 1]) == if IsBracket(statements[k]) then before else before + [statements[k]]
    decreases k
  {
    if k > 0 {
      UnbracketedSnoc(statements[1..], k - 1);
      assert statements[..k][1..] == statements[1..][..k - 1];
      assert statements[..k + 1][1..] == statements[1..][..k];
    } else {
      assert statements[..1][1..] == [];
    }
  }

  /** Equal but for the case of letters; a dotless i has the capital I too. */
  predicate SameLetter(c: char, capital: char)
    requires 'A' <= capital <= 'Z'
  {
    c == capital || c as int == capital as int + 32 || (capital == 'I' && c as int == 0x131)
  }

  predicate SameWord(s: string, word: string)
    requires forall i :: 0 <= i < |word| ==> 'A' <= word[i] <= 'Z'
  {
    |s| == |word| && forall i :: 0 <= i < |s| ==> SameLetter(s[i], word[i])
  }

  lemma {:induction false} UpperIs(s: string, word: string)
    requires forall i :: 0 <= i < |word| ==> 'A' <= word[i] <= 'Z'
    ensures Upper(s) == word <==> SameWord(s, word)
  {
    if s != [] && word != [] {
      UpperIs(s[1..], word[1..]);
      assert Upper(s)[1..] == Upper(s[1..]);
      assert word == [word[0]] + word[1..];
      assert Upper(s)[0] == word[0] <==> SameLetter(s[0], word[0]);
      if SameWord(s, word) {
        assert forall i :: 0 <= i < |s[1..]| ==> SameLetter(s[1..][i], word[1..][i]);
      }
      if SameLetter(s[0], word[0]) && SameWord(s[1..], word[1..]) {
        forall i | 0 <= i < |s|
          ensures SameLetter(s[i], word[i])
        {
          if i > 0 { assert SameLetter(s[1..][i - 1], word[1..][i - 1]); }
        }
      }
    }
  }

  /** A transactional file's BEGIN and COMMIT are left out in whatever case they are written. */
  lemma BracketIff(statement: string)
    ensures IsBracket(statement) <==> SameWord(statement, "BEGIN") || SameWord(statement, "COMMIT")
  {
    UpperIs(statement, "BEGIN");
    UpperIs(statement, "COMMIT");
  }

  datatype Source = Source(name: string, text: string)

  function Version(name: string): string {
    if |name| < 4 then name else name[..4]
  }

  /** The version of a file named NNNN_rest is NNNN. */
  lemma VersionIs(digits: string, rest: string)
    requires |digits| == 4
    ensures Version(digits + "_" + rest) == digits
  {
  }

  /** How the runner reads a file: inside its own transaction it leaves out the file's BEGIN and COMMIT. */
  function Load(src: Source): File<string> {
    var noTx := Starts(LStrip(src.text), NO_TX);
    var statements := Statements(src.text);
    File(Version(src.name), noTx, if noTx then statements else Unbracketed(statements))
  }

  function LoadAll(sources: seq<Source>): seq<File<string>> {
    seq(|sources|, i requires 0 <= i < |sources| => Load(sources[i]))
  }

  /** The to-do list, as sources. */
  function PendingSources(sources: seq<Source>, applied: set<string>): seq<Source> {
    if sources == [] then []
    else (if Version(sources[0].name) in applied then [] else [sources[0]]) + PendingSources(sources[1..], applied)
  }

  lemma LoadVersion(src: Source)
    ensures Load(src).version == Version(src.name)
  {
    hide Statements, LStrip;
  }

  lemma LoadFirst(sources: seq<Source>)
    requires sources != []
    ensures LoadAll(sources) == [Load(sources[0])] + LoadAll(sources[1..])
  {
    hide Load;
  }

  lemma {:induction false} PendingLoaded(sources: seq<Source>, applied: set<string>)
    ensures LoadAll(PendingSources(sources, applied)) == Pending(LoadAll(sources), applied)
  {
    hide Load, Version;
    if sources != [] {
      hide LoadAll, Pending;
      var src := sources[0];
      var later := PendingSources(sources[1..], applied);
      PendingLoaded(sources[1..], applied);
      LoadFirst(sources);
      LoadVersion(src);
      PendingOne(Load(src), LoadAll(sources[1..]), applied);
      if Version(src.name) in applied {
        assert [] + later == later;
      } else {
        LoadFirst([src] + later);
        assert ([src] + later)[1..] == later;
      }
    }
  }

  /* ---- one application of a file ---- */

  /** How one command to the server ends: it completes if it can, raises an error, or the runner dies.
      An error that the server answered has a code; without an answer the code is empty. */
  datatype Outcome<D> = Fine | Error(sqlstate: string, left: D) | Crash(left: D)

  /** What happens to one application of a file. `landed` says whether the last step, the record of
      the version and its commit, took effect although it did not end well. */
  datatype Fate<D> = Fate(connect: Outcome<D>, drop: Outcome<D>, statement: nat -> Outcome<D>,
                          record: Outcome<D>, landed: bool)

  /** The version is recorded: the record ended well, or took effect and its answer was lost. */
  predicate Recorded<D>(fate: Fate<D>) {
    fate.record.Fine? || (fate.landed && (fate.record.Error? ==> fate.record.sqlstate == ""))
  }

  datatype Ran = Applied | Failed(sqlstate: string) | Crashed

  const OTHER_ERROR := "other"

  function Raised<D>(o: Outcome<D>): Ran {
    match o
    case Fine => Failed(OTHER_ERROR)
    case Error(sqlstate, _) => Failed(sqlstate)
    case Crash(_) => Crashed
  }

  /** How the statements from the k-th on end: None if all go well, else what the first that does
      not go well raises. `skip` leaves the brackets out. */
  function StatementsEnd<D>(e: Engine<D, string>, d: D, statements: seq<string>, fate: Fate<D>, skip: bool, k: nat)
    : Option<Ran>
    requires k <= |statements|
    decreases |statements| - k
  {
    if k == |statements| then None
    else if skip && IsBracket(statements[k]) then StatementsEnd(e, d, statements, fate, skip, k + 1)
    else
      var next := e.exec(d, statements[k]);
      if !fate.statement(k).Fine? || next == None then Some(Raised(fate.statement(k)))
      else StatementsEnd(e, next.value, statements, fate, skip, k + 1)
  }

  function IsNoTx(src: Source): bool {
    Starts(LStrip(src.text), NO_TX)
  }

  /** How everything before the record of the version ends. */
  function BodyEnd<D>(e: Engine<D, string>, d: D, src: Source, fate: Fate<D>): Option<Ran> {
    if !fate.connect.Fine? then Some(Raised(fate.connect))
    else if IsNoTx(src) then
      if !fate.drop.Fine? then Some(Raised(fate.drop))
      else StatementsEnd(e, e.dropInvalid(d), Statements(src.text), fate, false, 0)
    else StatementsEnd(e, d, Statements(src.text), fate, true, 0)
  }

  function Ending<D>(body: Option<Ran>, fate: Fate<D>): Ran {
    if body.Some? then body.value else if fate.record.Fine? then Applied else Raised(fate.record)
  }

  /** How an application of the file ends. */
  function Verdict<D>(e: Engine<D, string>, d: D, src: Source, fate: Fate<D>): Ran {
    Ending(BodyEnd(e, d, src, fate), fate)
  }

  /** Every command up to the record is answered well. */
  ghost predicate Smooth<D>(src: Source, fate: Fate<D>) {
    && fate.connect.Fine?
    && (IsNoTx(src) ==> fate.drop.Fine?)
    && SmoothFrom(Statements(src.text), fate, !IsNoTx(src), 0)
  }

  ghost predicate SmoothFrom<D>(statements: seq<string>, fate: Fate<D>, skip: bool, k: nat) {
    forall i :: k <= i < |statements| ==> fate.statement(i).Fine? || (skip && IsBracket(statements[i]))
  }

  lemma {:induction false} StatementsEndWell<D>(e: Engine<D, string>, d: D, statements: seq<string>, fate: Fate<D>,
                                                skip: bool, k: nat)
    requires k <= |statements|
    ensures StatementsEnd(e, d, statements, fate, skip, k) == None <==>
            && SmoothFrom(statements, fate, skip, k)
            && Exec(e, d, if skip then Unbracketed(statements[k..]) else statements[k..]).Some?
    decreases |statements| - k
  {
    if k < |statements| {
      hide IsBracket;
      assert statements[k..][1..] == statements[k + 1..];
      var next := e.exec(d, statements[k]);
      if skip && IsBracket(statements[k]) {
        StatementsEndWell(e, d, statements, fate, skip, k + 1);
        assert [] + Unbracketed(statements[k + 1..]) == Unbracketed(statements[k + 1..]);
      } else {
        assert skip ==> Unbracketed(statements[k..]) == [statements[k]] + Unbracketed(statements[k + 1..]);
        if next.Some? { StatementsEndWell(e, next.value, statements, fate, skip, k + 1); }
      }
    }
  }

  /** An application succeeds exactly when every command is answered well and the file's statements
      can be executed. */
  lemma AppliedIff<D>(e: Engine<D, string>, d: D, src: Source, fate: Fate<D>)
    ensures BodyEnd(e, d, src, fate) == None <==> Smooth(src, fate) && Effect(e, d, Load(src)).Some?
    ensures Verdict(e, d, src, fate) == Applied <==>
              Smooth(src, fate) && fate.record.Fine? && Effect(e, d, Load(src)).Some?
  {
    var statements := Statements(src.text);
    assert statements[0..] == statements;
    if fate.connect.Fine? {
      StatementsEndWell(e, if IsNoTx(src) then e.dropInvalid(d) else d, statements, fate, !IsNoTx(src), 0);
    }
    NeverAppliedEarly(e, d, src, fate);
  }

  lemma {:induction false} RaisedBy<D>(e: Engine<D, string>, d: D, statements: seq<string>, fate: Fate<D>,
                                         skip: bool, k: nat)
    requires k <= |statements|
    ensures StatementsEnd(e, d, statements, fate, skip, k) != Some(Applied)
    decreases |statements| - k
  {
    if k < |statements| {
      hide IsBracket;
      var next := e.exec(d, statements[k]);
      RaisedBy(e, d, statements, fate, skip, k + 1);
      if next.Some? { RaisedBy(e, next.value, statements, fate, skip, k + 1); }
    }
  }

  lemma NeverAppliedEarly<D>(e: Engine<D, string>, d: D, src: Source, fate: Fate<D>)
    ensures BodyEnd(e, d, src, fate) != Some(Applied)
  {
    hide Statements, IsNoTx, StatementsEnd;
    RaisedBy(e, e.dropInvalid(d), Statements(src.text), fate, false, 0);
    RaisedBy(e, d, Statements(src.text), fate, true, 0);
  }

  /** The state an application leaves: it did everything and recorded the version, or it left what an
      unfinished application may leave and recorded nothing. */
  ghost predicate Leaves<D>(e: Engine<D, string>, before: Database<D>, f: File<string>, recorded: bool,
                            after: Database<D>)
  {
    if recorded then CleanFile(e, before, f) == Some(after) else Interrupted(e, before, f, after)
  }

  /** Whether it recorded the version. */
  predicate Records<D>(e: Engine<D, string>, d: D, src: Source, fate: Fate<D>) {
    BodyEnd(e, d, src, fate) == None && Recorded(fate)
  }

  lemma SuccessRecords<D>(e: Engine<D, string>, d: D, src: Source, fate: Fate<D>)
    ensures Verdict(e, d, src, fate) == Applied ==> Records(e, d, src, fate)
    ensures Verdict(e, d, src, fate).Failed? && Verdict(e, d, src, fate).sqlstate != "" ==> !Records(e, d, src, fate)
  {
    NeverAppliedEarly(e, d, src, fate);
    hide BodyEnd;
  }

  /* ---- what a failing application answers, from what its commands answer ---- */

  function Prefix(statements: seq<string>, skip: bool, k: nat): seq<string>
    requires k <= |statements|
  {
    if skip then Unbracketed(statements[..k]) else statements[..k]
  }

  /** The first k statements, on contents d, were answered well and could be executed. */
  ghost predicate Well<D>(e: Engine<D, string>, d: D, statements: seq<string>, fate: Fate<D>, skip: bool, k: nat) {
    && k <= |statements|
    && (forall i :: 0 <= i < k ==> fate.statement(i).Fine? || (skip && IsBracket(statements[i])))
    && Exec(e, d, Prefix(statements, skip, k)).Some?
  }

  /** Statement k is executed, behind statements that went well. */
  ghost predicate GetsTo<D>(e: Engine<D, string>, d: D, statements: seq<string>, fate: Fate<D>, skip: bool, k: nat) {
    k < |statements| && Well(e, d, statements, fate, skip, k) && !(skip && IsBracket(statements[k]))
  }

  /** The contents on which the file's statements begin. */
  function Begun<D>(e: Engine<D, string>, d: D, src: Source): D {
    if IsNoTx(src) then e.dropInvalid(d) else d
  }

  /** The connection is there and the invalid indexes were dropped. */
  ghost predicate Ready<D>(src: Source, fate: Fate<D>) {
    fate.connect.Fine? && (IsNoTx(src) ==> fate.drop.Fine?)
  }

  /** o is the answer of the first command that is not answered well: the connection, the drop of the
      invalid indexes, a statement, or the record, all before it having gone well. */
  ghost predicate Hits<D>(e: Engine<D, string>, d: D, src: Source, fate: Fate<D>, o: Outcome<D>) {
    var statements := Statements(src.text);
    && !o.Fine?
    && (|| o == fate.connect
        || (fate.connect.Fine? && IsNoTx(src) && o == fate.drop)
        || (Ready(src, fate) && HitsStatement(e, Begun(e, d, src), statements, fate, !IsNoTx(src), o))
        || (Ready(src, fate) && Well(e, Begun(e, d, src), statements, fate, !IsNoTx(src), |statements|)
            && o == fate.record))
  }

  ghost predicate HitsStatement<D>(e: Engine<D, string>, d: D, statements: seq<string>, fate: Fate<D>, skip: bool,
                                   o: Outcome<D>)
  {
    exists k :: HitsAt(e, d, statements, fate, skip, k, o)
  }

  ghost predicate HitsAt<D>(e: Engine<D, string>, d: D, statements: seq<string>, fate: Fate<D>, skip: bool, k: nat,
                            o: Outcome<D>)
  {
    GetsTo(e, d, statements, fate, skip, k) && o == fate.statement(k)
  }

  /** The application runs into a lock timeout. */
  ghost predicate TimesOut<D(!new)>(e: Engine<D, string>, d: D, src: Source, fate: Fate<D>) {
    exists o: Outcome<D> :: Hits(e, d, src, fate, o) && IsLockTimeout(o)
  }

  predicate IsLockTimeout<D>(o: Outcome<D>) {
    o.Error? && o.sqlstate == "55P03"
  }

  lemma PrefixSnoc(statements: seq<string>, skip: bool, k: nat)
    requires k < |statements|
    ensures Prefix(statements, skip, k + 1) ==
            if skip && IsBracket(statements[k]) then Prefix(statements, skip, k)
            else Prefix(statements, skip, k) + [statements[k]]
  {
    if skip { UnbracketedSnoc(statements, k); }
  }

  /** One statement that goes well. */
  lemma WellStep<D>(e: Engine<D, string>, d: D, statements: seq<string>, fate: Fate<D>, skip: bool, k: nat)
    requires k < |statements| && Well(e, d, statements, fate, skip, k + 1)
    ensures Well(e, d, statements, fate, skip, k)
    ensures StatementsEnd(e, Exec(e, d, Prefix(statements, skip, k)).value, statements, fate, skip, k) ==
            StatementsEnd(e, Exec(e, d, Prefix(statements, skip, k + 1)).value, statements, fate, skip, k + 1)
  {
    hide IsBracket, Prefix, Exec;
    PrefixSnoc(statements, skip, k);
    ExecAppend(e, d, Prefix(statements, skip, k), statements[k]);
  }

  /** What the statements come to does not depend on the first k that went well. */
  lemma {:induction false} EndBehind<D>(e: Engine<D, string>, d: D, statements: seq<string>, fate: Fate<D>,
                                        skip: bool, k: nat)
    requires Well(e, d, statements, fate, skip, k)
    ensures StatementsEnd(e, d, statements, fate, skip, 0) ==
            StatementsEnd(e, Exec(e, d, Prefix(statements, skip, k)).value, statements, fate, skip, k)
    decreases k
  {
    if k == 0 {
      NoPrefix(statements, skip);
    } else {
      WellStep(e, d, statements, fate, skip, k - 1);
      hide Well, StatementsEnd, Prefix, Exec;
      EndBehind(e, d, statements, fate, skip, k - 1);
    }
  }

  lemma NoPrefix(statements: seq<string>, skip: bool)
    ensures Prefix(statements, skip, 0) == []
  {
  }

  /** The first statement that does not go well, behind k that did. */
  lemma {:induction false} FirstBad<D>(e: Engine<D, string>, d: D, statements: seq<string>, fate: Fate<D>,
                                       skip: bool, k: nat) returns (j: nat)
    requires Well(e, d, statements, fate, skip, k)
    requires var mid := Exec(e, d, Prefix(statements, skip, k)).value;
             StatementsEnd(e, mid, statements, fate, skip, k).Some?
    ensures GetsTo(e, d, statements, fate, skip, j)
    ensures var mid := Exec(e, d, Prefix(statements, skip, k)).value;
            StatementsEnd(e, mid, statements, fate, skip, k) == Some(Raised(fate.statement(j)))
    ensures fate.statement(j).Fine? ==>
              e.exec(Exec(e, d, Prefix(statements, skip, j)).value, statements[j]) == None
    decreases |statements| - k
  {
    var mid := Exec(e, d, Prefix(statements, skip, k)).value;
    PrefixSnoc(statements, skip, k);
    hide IsBracket, Prefix, Exec;
    ExecAppend(e, d, Prefix(statements, skip, k), statements[k]);
    if skip && IsBracket(statements[k]) {
      j := FirstBad(e, d, statements, fate, skip, k + 1);
    } else if !fate.statement(k).Fine? || e.exec(mid, statements[k]) == None {
      j := k;
    } else {
      j := FirstBad(e, d, statements, fate, skip, k + 1);
    }
  }

  /** What a command that is not answered well makes of the application. */
  function Reported<D>(o: Outcome<D>): Ran
    requires !o.Fine?
  {
    if o.Error? then Failed(o.sqlstate) else Crashed
  }

  /** The failure law: the application ends as the first command that is not answered well does, an
      error with its own code. */
  lemma HitIsReported<D>(e: Engine<D, string>, d: D, src: Source, fate: Fate<D>, o: Outcome<D>)
    requires Hits(e, d, src, fate, o)
    ensures Verdict(e, d, src, fate) == Reported(o)
  {
    var statements, start, skip := Statements(src.text), Begun(e, d, src), !IsNoTx(src);
    hide Statements, IsNoTx, IsBracket, Prefix;
    if Ready(src, fate) {
      if HitsStatement(e, start, statements, fate, skip, o) {
        var k :| HitsAt(e, start, statements, fate, skip, k, o);
        EndBehind(e, start, statements, fate, skip, k);
      } else if Well(e, start, statements, fate, skip, |statements|) && o == fate.record {
        EndBehind(e, start, statements, fate, skip, |statements|);
      }
    }
  }

  /** A statement that is answered but cannot be executed is no lock timeout and no lost answer. */
  lemma BadStatementIsOther<D>(e: Engine<D, string>, d: D, src: Source, fate: Fate<D>, k: nat)
    requires Ready(src, fate) && GetsTo(e, Begun(e, d, src), Statements(src.text), fate, !IsNoTx(src), k)
    requires fate.statement(k).Fine?
    requires e.exec(Exec(e, Begun(e, d, src), Prefix(Statements(src.text), !IsNoTx(src), k)).value,
                    Statements(src.text)[k]) == None
    ensures var r := Verdict(e, d, src, fate);
            r.Failed? && r.sqlstate != LOCK_NOT_AVAILABLE && r.sqlstate != ""
  {
    EndBehind(e, Begun(e, d, src), Statements(src.text), fate, !IsNoTx(src), k);
    hide Statements, IsNoTx, IsBracket, Prefix;
  }

  /** An application answers a lock timeout exactly if it runs into one. */
  lemma TimesOutIff<D(!new)>(e: Engine<D, string>, d: D, src: Source, fate: Fate<D>)
    ensures Verdict(e, d, src, fate) == Failed(LOCK_NOT_AVAILABLE) <==> TimesOut(e, d, src, fate)
  {
    if TimesOut(e, d, src, fate) {
      var o: Outcome<D> :| Hits(e, d, src, fate, o) && IsLockTimeout(o);
      HitIsReported(e, d, src, fate, o);
    }
    if Verdict(e, d, src, fate) == Failed(LOCK_NOT_AVAILABLE) {
      var o := WhatWasHit(e, d, src, fate);
      assert Hits(e, d, src, fate, o) && IsLockTimeout(o);
    }
  }

  lemma WhatWasHit<D>(e: Engine<D, string>, d: D, src: Source, fate: Fate<D>) returns (o: Outcome<D>)
    requires Verdict(e, d, src, fate) == Failed(LOCK_NOT_AVAILABLE)
    ensures Hits(e, d, src, fate, o) && IsLockTimeout(o)
  {
    var statements, start, skip := Statements(src.text), Begun(e, d, src), !IsNoTx(src);
    hide Statements, IsNoTx, IsBracket, Prefix, Well, HitsStatement, StatementsEnd;
    if !fate.connect.Fine? { return fate.connect; }
    if !skip && !fate.drop.Fine? { return fate.drop; }
    if StatementsEnd(e, start, statements, fate, skip, 0).Some? {
      o := StatementHit(e, start, statements, fate, skip);
    } else {
      WellAtStart(e, start, statements, fate, skip);
      AllWell(e, start, statements, fate, skip, 0);
      o := fate.record;
    }
  }

  lemma WellAtStart<D>(e: Engine<D, string>, d: D, statements: seq<string>, fate: Fate<D>, skip: bool)
    ensures Well(e, d, statements, fate, skip, 0) && Exec(e, d, Prefix(statements, skip, 0)) == Some(d)
  {
    NoPrefix(statements, skip);
  }

  lemma StatementHit<D>(e: Engine<D, string>, d: D, statements: seq<string>, fate: Fate<D>, skip: bool)
    returns (o: Outcome<D>)
    requires StatementsEnd(e, d, statements, fate, skip, 0) == Some(Failed(LOCK_NOT_AVAILABLE))
    ensures HitsStatement(e, d, statements, fate, skip, o) && IsLockTimeout(o)
  {
    WellAtStart(e, d, statements, fate, skip);
    var j := FirstBad(e, d, statements, fate, skip, 0);
    hide Well, Prefix, Exec, StatementsEnd;
    assert HitsAt(e, d, statements, fate, skip, j, fate.statement(j));
    o := fate.statement(j);
  }

  lemma {:induction false} AllWell<D>(e: Engine<D, string>, d: D, statements: seq<string>, fate: Fate<D>,
                                      skip: bool, k: nat)
    requires Well(e, d, statements, fate, skip, k)
    requires StatementsEnd(e, Exec(e, d, Prefix(statements, skip, k)).value, statements, fate, skip, k) == None
    ensures Well(e, d, statements, fate, skip, |statements|)
    decreases |statements| - k
  {
    if k < |statements| {
      PrefixSnoc(statements, skip, k);
      hide IsBracket, Prefix, Exec;
      ExecAppend(e, d, Prefix(statements, skip, k), statements[k]);
      AllWell(e, d, statements, fate, skip, k + 1);
    }
  }
}
