/** The partner bank: an append-only ledger and the entries remembered by idempotency key
    (app/bankmock/main.py), and the client's reading of its answers (app/settle/bank.py). */
module Bank {
  import opened Common

  datatype PayoutIn = PayoutIn(merchantId: int, amountMinor: int, currency: string, reference: string)

  datatype Entry = Entry(bankRef: string, merchantId: int, amountMinor: int, currency: string,
                         reference: string, ts: real)

  datatype Books = Books(ledger: seq<Entry>, byKey: map<string, Entry>)

  /** An absent key and an empty one are both "no key". */
  predicate Keyed(key: Option<string>) {
    key.Some? && key.value != ""
  }

  function EntryFor(body: PayoutIn, bankRef: string, ts: real): Entry {
    Entry(bankRef, body.merchantId, body.amountMinor, body.currency, body.reference, ts)
  }

  /** One accepted POST, the critical section under the bank's lock: the new books, the entry
      answered, and whether it is a replay. */
  function Post(b: Books, body: PayoutIn, key: Option<string>, bankRef: string, ts: real): (Books, Entry, bool) {
    if Keyed(key) && key.value in b.byKey then
      (b, b.byKey[key.value], true)
    else
      var entry := EntryFor(body, bankRef, ts);
      (Books(b.ledger + [entry], if Keyed(key) then b.byKey[key.value := entry] else b.byKey), entry, false)
  }

  /** A POST with its key, and the bank_ref and time it would get. */
  datatype Request = Request(body: PayoutIn, key: Option<string>, bankRef: string, ts: real)

  function AfterPosts(b: Books, posts: seq<Request>): Books
    decreases |posts|
  {
    if posts == [] then b
    else AfterPosts(Post(b, posts[0].body, posts[0].key, posts[0].bankRef, posts[0].ts).0, posts[1..])
  }

  /** Retrying with the same key never moves money again, however many other requests come in
      between and whatever any of them says: it answers the first entry and changes nothing. */
  lemma {:induction false} PostIsIdempotentPerKey(b: Books, first: Request, posts: seq<Request>, again: Request)
    requires Keyed(first.key) && again.key == first.key
    ensures var (b1, entry, _) := Post(b, first.body, first.key, first.bankRef, first.ts);
            var later := AfterPosts(b1, posts);
            && Post(later, again.body, again.key, again.bankRef, again.ts) == (later, entry, true)
            && b1.ledger <= later.ledger
  {
    PostsKeepKey(Post(b, first.body, first.key, first.bankRef, first.ts).0, posts, first.key.value);
  }

  lemma {:induction false} PostsKeepKey(b: Books, posts: seq<Request>, key: string)
    requires key in b.byKey
    ensures key in AfterPosts(b, posts).byKey && AfterPosts(b, posts).byKey[key] == b.byKey[key]
    ensures b.ledger <= AfterPosts(b, posts).ledger
    decreases |posts|
  {
    if posts != [] {
      var b1 := Post(b, posts[0].body, posts[0].key, posts[0].bankRef, posts[0].ts).0;
      PostsKeepKey(b1, posts[1..], key);
      assert b.ledger <= b1.ledger <= AfterPosts(b1, posts[1..]).ledger;
    }
  }

  function Count(ledger: seq<Entry>, reference: string): (n: nat)
    ensures n > 0 <==> exists i :: 0 <= i < |ledger| && ledger[i].reference == reference
  {
    if ledger == [] then 0
    else
      var last := |ledger| - 1;
      Count(ledger[..last], reference) + (if ledger[last].reference == reference then 1 else 0)
  }

  ghost predicate DistinctReferences(ledger: seq<Entry>) {
    forall i, j :: 0 <= i < j < |ledger| ==> ledger[i].reference != ledger[j].reference
  }

  /** No reference is counted twice exactly when no two entries share one. */
  lemma {:induction false} CountsAtMostOneIffDistinct(ledger: seq<Entry>)
    ensures DistinctReferences(ledger) <==> forall r :: Count(ledger, r) <= 1
  {
    if ledger != [] {
      var last := |ledger| - 1;
      var init := ledger[..last];
      CountsAtMostOneIffDistinct(init);
      if DistinctReferences(ledger) {
        assert DistinctReferences(init);
        forall r
          ensures Count(ledger, r) <= 1
        {
          assert Count(init, r) <= 1;
          assert r == ledger[last].reference ==> Count(init, r) == 0;
        }
      } else if DistinctReferences(init) {
        var i, j :| 0 <= i < j < |ledger| && ledger[i].reference == ledger[j].reference;
        assert j == last && init[i].reference == ledger[last].reference;
        assert Count(ledger, ledger[last].reference) >= 2;
      } else {
        var r :| Count(init, r) > 1;
        assert Count(ledger, r) > 1;
      }
    }
  }

  class BankMock {
    var ledger: seq<Entry>
    var byKey: map<string, Entry>

    function Value(): Books
      reads this
    {
      Books(ledger, byKey)
    }

    constructor ()
      ensures Value() == Books([], map[])
    {
      ledger, byKey := [], map[];
    }

    /** `unavailable` is the injected 503, raised before the lock is taken. */
    method CreatePayout(body: PayoutIn, key: Option<string>, bankRef: string, ts: real, unavailable: bool)
      returns (entry: Option<Entry>, replayed: bool)
      modifies this
      ensures unavailable ==> entry == None && Value() == old(Value())
      ensures !unavailable ==>
                entry.Some? && (Value(), entry.value, replayed) == Post(old(Value()), body, key, bankRef, ts)
      ensures old(ledger) <= ledger <= old(ledger) + [EntryFor(body, bankRef, ts)]
      ensures replayed ==> Value() == old(Value())
      ensures !unavailable && key.Some? && key.value != "" && key.value in old(byKey) ==>
                replayed && entry == Some(old(byKey)[key.value])
      ensures !unavailable && (key == None || key.value == "" || key.value !in old(byKey)) ==>
                var e := Entry(bankRef, body.merchantId, body.amountMinor, body.currency, body.reference, ts);
                && !replayed && entry == Some(e) && ledger == old(ledger) + [e]
                && byKey == if key == None || key.value == "" then old(byKey) else old(byKey)[key.value := e]
      ensures forall k :: k in old(byKey) ==> k in byKey && byKey[k] == old(byKey)[k]
    {
      if unavailable {
        return None, false;
      }
      if key.Some? && key.value != "" && key.value in byKey {
        return Some(byKey[key.value]), true;
      }
      var e := Entry(bankRef, body.merchantId, body.amountMinor, body.currency, body.reference, ts);
      ledger := ledger + [e];
      if key.Some? && key.value != "" {
        byKey := byKey[key.value := e];
      }
      return Some(e), false;
    }

    /** The references paid more than once, each with how often. */
    method Duplicates() returns (dups: map<string, nat>)
      ensures forall r :: r in dups <==> Count(ledger, r) > 1
      ensures forall r :: r in dups ==> dups[r] == Count(ledger, r)
      ensures dups == map[] <==> DistinctReferences(ledger)
    {
      var counts: map<string, nat> := map[];
      for i := 0 to |ledger|
        invariant forall r :: r in counts <==> Count(ledger[..i], r) > 0
        invariant forall r :: r in counts ==> counts[r] == Count(ledger[..i], r)
      {
        assert ledger[..i + 1][..i] == ledger[..i];
        var r := ledger[i].reference;
        counts := counts[r := (if r in counts then counts[r] else 0) + 1];
      }
      assert ledger[..|ledger|] == ledger;
      dups := map r | r in counts && counts[r] > 1 :: counts[r];
      CountsAtMostOneIffDistinct(ledger);
      if dups == map[] {
        forall r
          ensures Count(ledger, r) <= 1
        {
          assert r !in dups;
        }
      }
    }
  }

  /* ---- the client ---- */

  /** What the HTTP client saw: no usable answer at all, or a status with a decoded body (None
      when the body carries no bank_ref). */
  datatype HttpOutcome = TransportError | Response(status: int, bankRef: Option<string>)

  datatype PayResult = Ok(bankRef: string) | BankError(retryable: bool) | Unexpected

  function Pay(o: HttpOutcome): PayResult {
    match o
    case TransportError => BankError(true)
    case Response(status, ref) =>
      if status >= 500 || status == 429 then BankError(true)
      else if status >= 400 then BankError(false)
      else if ref.Some? then Ok(ref.value)
      else Unexpected
  }
}
