/** The fetching thread and the finishing threads of one worker around its `inflight` counter
    (app/settle/worker.py, run and _done). The check of the limit is not under the lock; the two
    updates of the counter are. */
module Pool {

  /** Where the fetching thread stands: at the top of its loop; past the limit check; with a
      fetched text in hand, not yet counted; counted, not yet submitted. */
  datatype Fetcher = Top | MayFetch | InHand(text: nat) | Counted(text: nat)

  /** Texts are numbered in the order they are fetched; `running` holds those submitted whose done
      callback has not run. */
  datatype State = State(limit: int, fetcher: Fetcher, inflight: int, fetched: nat, running: set<nat>,
                         finished: set<nat>)

  datatype Event = Check | FetchText | FetchNothing | Count | Submit | Finish(text: nat)

  function Init(limit: int): State {
    State(limit, Top, 0, 0, {}, {})
  }

  predicate Enabled(s: State, e: Event) {
    match e
    case Check => s.fetcher == Top
    case FetchText => s.fetcher == MayFetch
    case FetchNothing => s.fetcher == MayFetch
    case Count => s.fetcher.InHand?
    case Submit => s.fetcher.Counted?
    case Finish(t) => t in s.running
  }

  function Step(s: State, e: Event): State
    requires Enabled(s, e)
  {
    match e
    case Check => if s.inflight >= s.limit then s else s.(fetcher := MayFetch)
    case FetchText => s.(fetcher := InHand(s.fetched), fetched := s.fetched + 1)
    case FetchNothing => s.(fetcher := Top)
    case Count => s.(fetcher := Counted(s.fetcher.text), inflight := s.inflight + 1)
    case Submit => s.(fetcher := Top, running := s.running + {s.fetcher.text})
    case Finish(t) => s.(running := s.running - {t}, finished := s.finished + {t}, inflight := s.inflight - 1)
  }

  /** Accepted: counted and not finished. */
  function Accepted(s: State): set<nat> {
    if s.fetcher.Counted? then s.running + {s.fetcher.text} else s.running
  }

  function InHands(s: State): set<nat> {
    if s.fetcher.InHand? then {s.fetcher.text} else {}
  }

  ghost predicate CountOk(s: State) {
    && s.inflight == |Accepted(s)|
    && (s.inflight <= s.limit || s.inflight == 0)
    && (s.fetcher.MayFetch? || s.fetcher.InHand? ==> s.inflight < s.limit)
  }

  /** Every text fetched so far is in exactly one place. */
  ghost predicate PlacesOk(s: State) {
    && Accepted(s) !! s.finished !! InHands(s)
    && (s.fetcher.Counted? ==> s.fetcher.text !in s.running)
    && (forall t: nat :: t in Accepted(s) + s.finished + InHands(s) <==> t < s.fetched)
  }

  ghost predicate Inv(s: State) {
    CountOk(s) && PlacesOk(s)
  }

  lemma StepKeepsPlaces(s: State, e: Event)
    requires PlacesOk(s) && Enabled(s, e)
    ensures PlacesOk(Step(s, e))
  {
    var s' := Step(s, e);
    forall t: nat
      ensures t in Accepted(s') + s'.finished + InHands(s') <==> t < s'.fetched
    {
      assert t in Accepted(s) + s.finished + InHands(s) <==> t < s.fetched;
    }
    assert s.fetched !in Accepted(s) + s.finished + InHands(s);
  }

  lemma StepKeepsCount(s: State, e: Event)
    requires CountOk(s) && Enabled(s, e)
    requires Accepted(s) !! InHands(s) && (s.fetcher.Counted? ==> s.fetcher.text !in s.running)
    ensures CountOk(Step(s, e))
  {
    var s' := Step(s, e);
    if e.Count? {
      assert s.fetcher.text in InHands(s);
    } else if e.Finish? {
      OneLess(s.running, e.text);
      if s.fetcher.Counted? {
        OneLess(Accepted(s), e.text);
        assert Accepted(s') == Accepted(s) - {e.text};
      }
    } else {
      assert Accepted(s') == Accepted(s);
    }
  }

  lemma OneLess(ts: set<nat>, t: nat)
    requires t in ts
    ensures |ts - {t}| == |ts| - 1
  {
  }

  ghost predicate IsRun(s: State, events: seq<Event>)
    decreases |events|
  {
    events == [] || (Enabled(s, events[0]) && IsRun(Step(s, events[0]), events[1..]))
  }

  function After(s: State, events: seq<Event>): State
    requires IsRun(s, events)
    decreases |events|
  {
    if events == [] then s else After(Step(s, events[0]), events[1..])
  }

  lemma {:induction false} RunKeeps(s: State, events: seq<Event>)
    requires Inv(s) && IsRun(s, events)
    ensures Inv(After(s, events)) && After(s, events).limit == s.limit
    decreases |events|
  {
    if events != [] {
      StepKeepsPlaces(s, events[0]);
      StepKeepsCount(s, events[0]);
      RunKeeps(Step(s, events[0]), events[1..]);
    }
  }

  /** Room is used: with fewer texts accepted than the limit, the fetching thread, at the top of its
      loop, takes the next text if there is one, counts it and hands it over. */
  lemma RoomIsUsed(s: State)
    requires Inv(s) && s.fetcher == Top && s.inflight < s.limit
    ensures var events := [Check, FetchText, Count, Submit];
            && IsRun(s, events)
            && After(s, events) == s.(fetched := s.fetched + 1, inflight := s.inflight + 1,
                                      running := s.running + {s.fetched})
  {
    var s1 := Step(s, Check);
    var s2 := Step(s1, FetchText);
    var s3 := Step(s2, Count);
    assert [Check, FetchText, Count, Submit][1..] == [FetchText, Count, Submit];
    assert [FetchText, Count, Submit][1..] == [Count, Submit] && [Count, Submit][1..] == [Submit];
    assert [Submit][1..] == [];
    assert IsRun(s3, [Submit]) && IsRun(s2, [Count, Submit]) && IsRun(s1, [FetchText, Count, Submit]);
  }

  /** In every interleaving, `inflight` is exactly the number of accepted texts not yet finished,
      and never exceeds the limit; every fetched text is in hand, accepted, or finished. */
  lemma InflightIsExact(limit: int, events: seq<Event>)
    requires limit >= 0 && IsRun(Init(limit), events)
    ensures var s := After(Init(limit), events);
            && s.inflight == |Accepted(s)|
            && 0 <= s.inflight <= limit
            && Accepted(s) !! s.finished && Accepted(s) !! InHands(s) && s.finished !! InHands(s)
            && (forall t: nat :: t in Accepted(s) + s.finished + InHands(s) <==> t < s.fetched)
            && |Accepted(s) + s.finished + InHands(s)| == s.fetched
  {
    assert Accepted(Init(limit)) == {};
    RunKeeps(Init(limit), events);
    var s := After(Init(limit), events);
    Initial(Accepted(s) + s.finished + InHands(s), s.fetched);
  }

  lemma {:induction false} Initial(ts: set<nat>, n: nat)
    requires forall t: nat :: t in ts <==> t < n
    ensures |ts| == n
    decreases n
  {
    if n > 0 {
      Initial(ts - {n - 1}, n - 1);
      assert ts == (ts - {n - 1}) + {n - 1};
    } else {
      assert forall t: nat :: t !in ts;
    }
  }
}
