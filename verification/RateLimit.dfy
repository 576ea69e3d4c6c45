/** The fixed-window limiter of api/ratelimit.py. */
module RateLimit {
  /** A Redis counter with its expiry, in milliseconds. */
  datatype Counter = Counter(count: nat, expiresAt: int)

  type Counters = map<string, Counter>

  /** `limit` hits per `window` seconds. */
  datatype Rate = Rate(limit: int, window: int)

  predicate ValidRate(rate: Rate) {
    rate.limit >= 1 && rate.window >= 1
  }

  datatype Outcome = Admitted | TooMany(retryAfter: int)

  /** Whether the store counts the hit and answers, counts it but the answer is lost, or is never reached. */
  datatype Store = Answers | CountsSilently | Unreached

  // ----- one hit -----------------------------------------------------------------------------

  predicate Live(counters: Counters, key: string, now: int) {
    key in counters && now < counters[key].expiresAt
  }

  /** INCR, EXPIRE NX: only the first hit of a window arms the expiry. */
  function Bumped(counters: Counters, key: string, window: int, now: int): Counter {
    if Live(counters, key, now) then Counter(counters[key].count + 1, counters[key].expiresAt)
    else Counter(1, now + 1000 * window)
  }

  /** TTL in whole seconds, rounded as Redis does. */
  function Ttl(c: Counter, now: int): int {
    (c.expiresAt - now + 500) / 1000
  }

  function RetryAfter(c: Counter, now: int): int {
    if Ttl(c, now) >= 1 then Ttl(c, now) else 1
  }

  /** Without an answer the request is let through, counted or not. */
  function EnforceOf(counters: Counters, rate: Rate, key: string, now: int, store: Store): (Counters, Outcome) {
    if store.Unreached? then (counters, Admitted)
    else
      var c := Bumped(counters, key, rate.window, now);
      (counters[key := c], if store.Answers? && c.count > rate.limit then TooMany(RetryAfter(c, now)) else Admitted)
  }

  class Limiter {
    var counters: Counters
    const enabled: bool

    constructor (enabled: bool)
      ensures counters == map[] && this.enabled == enabled
    {
      counters := map[];
      this.enabled := enabled;
    }

    method Hit(key: string, window: int, now: int) returns (count: int, retryAfter: int)
      modifies this
      ensures counters == old(counters)[key := Bumped(old(counters), key, window, now)]
      ensures count == counters[key].count && retryAfter == RetryAfter(counters[key], now)
    {
      if key in counters && counters[key].expiresAt <= now {
        counters := counters - {key};
      }
      var armed := key in counters;
      count := if armed then counters[key].count + 1 else 1;
      var expiresAt := if armed then counters[key].expiresAt else now + 1000 * window;
      counters := counters[key := Counter(count, expiresAt)];
      var ttl := Ttl(counters[key], now);
      retryAfter := if ttl >= 1 then ttl else 1;
    }

    method Enforce(rate: Rate, key: string, now: int, store: Store) returns (outcome: Outcome)
      modifies this
      ensures (counters, outcome) == if enabled then EnforceOf(old(counters), rate, key, now, store) else (old(counters), Admitted)
    {
      if !enabled {
        return Admitted;
      }
      if store.Unreached? {
        return Admitted;
      }
      var count, retryAfter := Hit(key, rate.window, now);
      if store.CountsSilently? {
        return Admitted;
      }
      if count > rate.limit {
        return TooMany(retryAfter);
      }
      outcome := Admitted;
    }
  }

  // ----- runs ------------------------------------------------------------------------------------

  /** A request for a key, and what the store does with its hit. */
  datatype Request = Request(key: string, now: int, store: Store)

  function After(rate: Rate, rs: seq<Request>): Counters {
    if rs == [] then map[]
    else
      var r := rs[|rs| - 1];
      EnforceOf(After(rate, rs[..|rs| - 1]), rate, r.key, r.now, r.store).0
  }

  function OutcomeAt(rate: Rate, rs: seq<Request>, i: nat): Outcome
    requires i < |rs|
  {
    EnforceOf(After(rate, rs[..i]), rate, rs[i].key, rs[i].now, rs[i].store).1
  }

  lemma AfterStep(rate: Rate, rs: seq<Request>, i: nat)
    requires i < |rs|
    ensures After(rate, rs[..i + 1]) == EnforceOf(After(rate, rs[..i]), rate, rs[i].key, rs[i].now, rs[i].store).0
  {
    assert rs[..i + 1][..i] == rs[..i];
  }

  /** A counted request of the key. */
  predicate IsHit(rs: seq<Request>, key: string, i: nat)
    requires i < |rs|
  {
    rs[i].key == key && !rs[i].store.Unreached?
  }

  // ----- windows, told without counters -------------------------------------------------------------

  /** The last hit of the key before `i`, or -1. */
  function Previous(rs: seq<Request>, key: string, i: nat): (p: int)
    requires i <= |rs|
    ensures -1 <= p < i && (p >= 0 ==> IsHit(rs, key, p))
    ensures forall j :: p < j < i ==> !IsHit(rs, key, j)
  {
    if i == 0 then -1 else if IsHit(rs, key, i - 1) then i - 1 else Previous(rs, key, i - 1)
  }

  /** The hit that opened the window of hit `i`: the previous hit's, unless that window is over. */
  function Opener(rate: Rate, rs: seq<Request>, key: string, i: nat): (s: nat)
    requires i < |rs| && IsHit(rs, key, i)
    ensures s <= i && IsHit(rs, key, s)
  {
    var p := Previous(rs, key, i);
    if p == -1 then i
    else
      var s := Opener(rate, rs, key, p);
      if rs[i].now >= rs[s].now + 1000 * rate.window then i else s
  }

  /** How many hits of the key there are from `s` up to and including `i`. */
  function HitsFrom(rs: seq<Request>, key: string, s: nat, i: int): nat
    requires i < |rs|
    decreases i + 1
  {
    if i < s then 0 else HitsFrom(rs, key, s, i - 1) + if IsHit(rs, key, i) then 1 else 0
  }

  lemma {:induction false} HitsSkip(rs: seq<Request>, key: string, s: nat, p: int, i: int)
    requires -1 <= p <= i < |rs| && forall j :: p < j <= i ==> !IsHit(rs, key, j)
    ensures HitsFrom(rs, key, s, i) == HitsFrom(rs, key, s, p)
    decreases i
  {
    if p < i {
      HitsSkip(rs, key, s, p, i - 1);
    }
  }

  lemma {:induction false} CounterStays(rate: Rate, rs: seq<Request>, key: string, p: nat, i: nat)
    requires p <= i <= |rs| && forall j :: p <= j < i ==> !IsHit(rs, key, j)
    ensures key in After(rate, rs[..i]) <==> key in After(rate, rs[..p])
    ensures key in After(rate, rs[..p]) ==> After(rate, rs[..i])[key] == After(rate, rs[..p])[key]
    decreases i
  {
    if p < i {
      CounterStays(rate, rs, key, p, i - 1);
      AfterStep(rate, rs, i - 1);
      assert !IsHit(rs, key, i - 1);
    }
  }

  /** Behind hit `i` the counter holds the hits of its window so far and expires when the window ends. */
  lemma {:induction false} CounterIsWindow(rate: Rate, rs: seq<Request>, key: string, i: nat)
    requires i < |rs| && IsHit(rs, key, i)
    ensures var s := Opener(rate, rs, key, i);
            && key in After(rate, rs[..i + 1])
            && After(rate, rs[..i + 1])[key] == Counter(HitsFrom(rs, key, s, i), rs[s].now + 1000 * rate.window)
    decreases i
  {
    var p := Previous(rs, key, i);
    AfterStep(rate, rs, i);
    CounterStays(rate, rs, key, p + 1, i);
    if p == -1 {
      assert rs[..0] == [];
      HitsSkip(rs, key, i, i - 1, i - 1);
    } else {
      CounterIsWindow(rate, rs, key, p);
      var s := Opener(rate, rs, key, p);
      HitsSkip(rs, key, s, p, i - 1);
      HitsSkip(rs, key, i, i - 1, i - 1);
    }
  }

  /** Each window admits exactly its first `limit` hits, of those that are answered. */
  lemma WindowAdmitsFirst(rate: Rate, rs: seq<Request>, key: string, i: nat)
    requires i < |rs| && IsHit(rs, key, i) && rs[i].store.Answers?
    ensures OutcomeAt(rate, rs, i).Admitted? <==> HitsFrom(rs, key, Opener(rate, rs, key, i), i) <= rate.limit
  {
    CounterIsWindow(rate, rs, key, i);
    AfterStep(rate, rs, i);
  }

  /** A key that stays silent until its window is over is admitted again, whatever was refused before. */
  lemma SilentKeyIsReadmitted(rate: Rate, rs: seq<Request>, key: string, i: nat)
    requires ValidRate(rate) && i < |rs| && IsHit(rs, key, i) && rs[i].store.Answers?
    requires var p := Previous(rs, key, i);
             p == -1 || rs[i].now >= rs[Opener(rate, rs, key, p)].now + 1000 * rate.window
    ensures OutcomeAt(rate, rs, i).Admitted?
  {
    WindowAdmitsFirst(rate, rs, key, i);
    assert HitsFrom(rs, key, i, i - 1) == 0;
  }

  // ----- any interval -----------------------------------------------------------------------------

  /** Answered and admitted hits of the key among the requests from `lo` up to `hi`. */
  function AdmittedHits(rate: Rate, rs: seq<Request>, key: string, lo: nat, hi: nat): nat
    requires hi <= |rs|
    decreases hi
  {
    if hi <= lo then 0
    else
      AdmittedHits(rate, rs, key, lo, hi - 1)
      + if IsHit(rs, key, hi - 1) && rs[hi - 1].store.Answers? && OutcomeAt(rate, rs, hi - 1).Admitted? then 1 else 0
  }

  predicate Within(rs: seq<Request>, key: string, lo: nat, hi: nat, from: int, to: int)
    requires hi <= |rs|
  {
    forall i :: lo <= i < hi && IsHit(rs, key, i) ==> from <= rs[i].now <= to
  }

  function Least(a: int, b: int): int {
    if a < b then a else b
  }

  /** The counter pays for the admitted hits: those of its own window, and at most `limit` of one window before. */
  predicate Paid(rate: Rate, c: Counter, admitted: int, from: int) {
    || (admitted <= Least(rate.limit, c.count) && c.expiresAt > from)
    || (admitted <= rate.limit + Least(rate.limit, c.count) && c.expiresAt > from + 1000 * rate.window)
  }

  lemma {:induction false} HitsArePaid(rate: Rate, rs: seq<Request>, key: string, lo: nat, hi: nat, from: int)
    requires ValidRate(rate) && lo <= hi <= |rs| && Within(rs, key, lo, hi, from, from + 1000 * rate.window)
    ensures AdmittedHits(rate, rs, key, lo, hi) == 0
            || (key in After(rate, rs[..hi]) && Paid(rate, After(rate, rs[..hi])[key], AdmittedHits(rate, rs, key, lo, hi), from))
    decreases hi
  {
    if lo < hi {
      var i := hi - 1;
      HitsArePaid(rate, rs, key, lo, i, from);
      AfterStep(rate, rs, i);
      if IsHit(rs, key, i) {
        var before, c := After(rate, rs[..i]), Bumped(After(rate, rs[..i]), key, rate.window, rs[i].now);
        assert After(rate, rs[..hi])[key] == c;
        assert rs[i].store.Answers? ==> (OutcomeAt(rate, rs, i).Admitted? <==> c.count <= rate.limit);
      }
    }
  }

  /** In no interval of one window's length are more than twice `limit` requests of a key admitted while the store answers. */
  lemma AtMostTwiceTheLimit(rate: Rate, rs: seq<Request>, key: string, lo: nat, hi: nat, from: int)
    requires ValidRate(rate) && lo <= hi <= |rs| && Within(rs, key, lo, hi, from, from + 1000 * rate.window)
    ensures AdmittedHits(rate, rs, key, lo, hi) <= 2 * rate.limit
  {
    HitsArePaid(rate, rs, key, lo, hi, from);
  }
}
