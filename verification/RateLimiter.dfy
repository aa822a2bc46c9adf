/** The token-bucket limiter, its eviction of stale buckets, and when eviction shows. Times
    and tokens are reals, time in seconds. */
module RateLimiter {
  datatype Bucket = Bucket(tokens: real, lastUpdate: real)

  datatype Limits = Limits(rate: real, burst: int, cleanup: real)

  type Buckets = map<string, Bucket>

  datatype Event =
    | Request(ip: string, at: real)
    | Cleanup(at: real)

  // ---- One request, one cleanup ----

  function Min(x: real, y: real): real {
    if x <= y then x else y
  }

  /** The tokens earned in a time. */
  function Earned(rate: real, elapsed: real): real {
    elapsed * rate
  }

  function Refilled(l: Limits, b: Bucket, now: real): real {
    Min(b.tokens + Earned(l.rate, now - b.lastUpdate), l.burst as real)
  }

  /** What the client could spend at once; a client without a bucket has a full one. */
  function Available(l: Limits, bs: Buckets, ip: string, now: real): real {
    if ip in bs then Refilled(l, bs[ip], now) else l.burst as real
  }

  function Allows(l: Limits, bs: Buckets, ip: string, now: real): bool {
    ip in bs ==> Refilled(l, bs[ip], now) >= 1.0
  }

  function AfterRequest(l: Limits, bs: Buckets, ip: string, now: real): Buckets {
    var spent := if Allows(l, bs, ip, now) then 1.0 else 0.0;
    bs[ip := Bucket(Available(l, bs, ip, now) - spent, now)]
  }

  predicate Stale(l: Limits, b: Bucket, now: real) {
    b.lastUpdate < now - l.cleanup
  }

  function AfterCleanup(l: Limits, bs: Buckets, now: real): Buckets {
    map ip | ip in bs && !Stale(l, bs[ip], now) :: bs[ip]
  }

  // ---- The limiter object ----

  class Limiter {
    const limits: Limits
    var buckets: Buckets

    constructor (rate: real, burst: int)
      ensures limits == Limits(rate, burst, 300.0) && buckets == map[]
    {
      limits := Limits(rate, burst, 300.0);
      buckets := map[];
    }

    method Allow(ip: string, now: real) returns (ok: bool)
      modifies this
      ensures ok == Allows(limits, old(buckets), ip, now)
      ensures buckets == AfterRequest(limits, old(buckets), ip, now)
    {
      hide Earned;
      if ip !in buckets {
        buckets := buckets[ip := Bucket(limits.burst as real - 1.0, now)];
        return true;
      }
      var b := buckets[ip];
      var elapsed := now - b.lastUpdate;
      var tokens := b.tokens + Earned(limits.rate, elapsed);
      if tokens > limits.burst as real {
        tokens := limits.burst as real;
      }
      ok := tokens >= 1.0;
      if ok {
        tokens := tokens - 1.0;
      }
      buckets := buckets[ip := Bucket(tokens, now)];
    }

    method CleanupStale(now: real)
      modifies this
      ensures buckets == AfterCleanup(limits, old(buckets), now)
    {
      var threshold := now - limits.cleanup;
      var rest := buckets.Keys;
      while rest != {}
        invariant rest <= buckets.Keys <= old(buckets).Keys
        invariant forall ip :: ip in old(buckets) && (ip in rest || !Stale(limits, old(buckets)[ip], now)) ==> ip in buckets
        invariant forall ip :: ip in buckets ==> buckets[ip] == old(buckets)[ip]
        invariant forall ip :: ip in buckets && ip !in rest ==> !Stale(limits, buckets[ip], now)
        decreases rest
      {
        var ip :| ip in rest;
        rest := rest - {ip};
        if buckets[ip].lastUpdate < threshold {
          buckets := buckets - {ip};
        }
      }
    }
  }

  // ---- Runs ----

  function After(l: Limits, bs: Buckets, e: Event): Buckets {
    match e
    case Request(ip, at) => AfterRequest(l, bs, ip, at)
    case Cleanup(at) => AfterCleanup(l, bs, at)
  }

  function Answer(l: Limits, bs: Buckets, e: Event): seq<bool> {
    match e
    case Request(ip, at) => [Allows(l, bs, ip, at)]
    case Cleanup(_) => []
  }

  function Final(l: Limits, bs: Buckets, events: seq<Event>): Buckets
    decreases |events|
  {
    if events == [] then bs else Final(l, After(l, bs, events[0]), events[1..])
  }

  function Answers(l: Limits, bs: Buckets, events: seq<Event>): seq<bool>
    decreases |events|
  {
    if events == [] then [] else Answer(l, bs, events[0]) + Answers(l, After(l, bs, events[0]), events[1..])
  }

  /** The same run on a limiter that never deletes a bucket. */
  function RequestsOnly(events: seq<Event>): seq<Event> {
    if events == [] then []
    else (if events[0].Request? then [events[0]] else []) + RequestsOnly(events[1..])
  }

  /** Times do not decrease and start no earlier than from. */
  predicate Chronological(events: seq<Event>, from: real) {
    events == [] || (from <= events[0].at && Chronological(events[1..], events[0].at))
  }

  // ---- Tokens stay between 0 and burst ----

  predicate InRange(l: Limits, bs: Buckets, now: real) {
    forall ip :: ip in bs ==> 0.0 <= bs[ip].tokens <= l.burst as real && bs[ip].lastUpdate <= now
  }

  function Latest(events: seq<Event>, from: real): real {
    if events == [] then from else events[|events| - 1].at
  }

  lemma RefillInRange(l: Limits, b: Bucket, now: real)
    requires 0.0 <= b.tokens <= l.burst as real && b.lastUpdate <= now && l.rate >= 0.0
    ensures b.tokens <= Refilled(l, b, now) <= l.burst as real
  {
    hide Earned;
    EarnedNonNegative(l.rate, now - b.lastUpdate);
  }

  lemma EarnedNonNegative(rate: real, elapsed: real)
    requires rate >= 0.0 && elapsed >= 0.0
    ensures Earned(rate, elapsed) >= 0.0
  {
  }

  lemma EarnedMonotone(rate: real, x: real, y: real)
    requires x <= y && rate >= 0.0
    ensures Earned(rate, x) <= Earned(rate, y)
  {
    EarnedNonNegative(rate, y - x);
    EarnedAdds(rate, x, y - x);
  }

  lemma EarnedAdds(rate: real, x: real, y: real)
    ensures Earned(rate, x + y) == Earned(rate, x) + Earned(rate, y)
  {
  }

  lemma StepInRange(l: Limits, bs: Buckets, e: Event, from: real)
    requires l.burst >= 1 && l.rate >= 0.0 && from <= e.at && InRange(l, bs, from)
    ensures InRange(l, After(l, bs, e), e.at)
  {
    hide Earned;
    if e.Request? && e.ip in bs {
      RefillInRange(l, bs[e.ip], e.at);
    }
  }

  lemma {:induction false} TokensInRange(l: Limits, bs: Buckets, events: seq<Event>, from: real)
    requires l.burst >= 1 && l.rate >= 0.0 && Chronological(events, from) && InRange(l, bs, from)
    ensures InRange(l, Final(l, bs, events), Latest(events, from))
    decreases |events|
  {
    if events != [] {
      StepInRange(l, bs, events[0], from);
      TokensInRange(l, After(l, bs, events[0]), events[1..], events[0].at);
      assert Latest(events[1..], events[0].at) == Latest(events, from);
    }
  }

  // ---- Eviction that cannot be observed ----

  /** A limiter that evicts against one that does not: what both have is equal, and what only
      the second has is long idle. */
  predicate Agree(l: Limits, evicting: Buckets, full: Buckets, now: real) {
    InRange(l, full, now) &&
    (forall ip :: ip in evicting ==> ip in full && evicting[ip] == full[ip]) &&
    (forall ip :: ip in full && ip !in evicting ==> Stale(l, full[ip], now))
  }

  predicate RefillsBeforeCleanup(l: Limits) {
    l.burst >= 1 && l.rate * l.cleanup >= l.burst as real
  }

  lemma LongIdleIsFull(l: Limits, b: Bucket, now: real)
    requires l.cleanup > 0.0 && RefillsBeforeCleanup(l) && 0.0 <= b.tokens && Stale(l, b, now)
    ensures Refilled(l, b, now) == l.burst as real && l.rate > 0.0
  {
    PositiveRate(l);
    EarnedMonotone(l.rate, l.cleanup, now - b.lastUpdate);
    FullRefill(l);
    hide Earned;
  }

  lemma FullRefill(l: Limits)
    requires RefillsBeforeCleanup(l)
    ensures Earned(l.rate, l.cleanup) >= l.burst as real
  {
  }

  lemma PositiveRate(l: Limits)
    requires l.cleanup > 0.0 && RefillsBeforeCleanup(l)
    ensures l.rate > 0.0
  {
  }

  lemma StepAgrees(l: Limits, evicting: Buckets, full: Buckets, e: Event, from: real)
    requires l.cleanup > 0.0 && RefillsBeforeCleanup(l)
    requires from <= e.at && Agree(l, evicting, full, from)
    ensures Answer(l, evicting, e) == Answer(l, full, e) || e.Cleanup?
    ensures Agree(l, After(l, evicting, e), if e.Request? then After(l, full, e) else full, e.at)
  {
    hide Earned;
    PositiveRate(l);
    if e.Request? {
      StepInRange(l, full, e, from);
      if e.ip in full && e.ip !in evicting {
        LongIdleIsFull(l, full[e.ip], e.at);
      }
    }
  }

  lemma {:induction false} EvictionDoesNotShow(l: Limits, evicting: Buckets, full: Buckets, events: seq<Event>, from: real)
    requires l.cleanup > 0.0 && RefillsBeforeCleanup(l)
    requires Chronological(events, from) && Agree(l, evicting, full, from)
    ensures Answers(l, evicting, events) == Answers(l, full, RequestsOnly(events))
    decreases |events|
  {
    if events != [] {
      var e := events[0];
      StepAgrees(l, evicting, full, e, from);
      var full' := if e.Request? then After(l, full, e) else full;
      EvictionDoesNotShow(l, After(l, evicting, e), full', events[1..], e.at);
      if e.Request? {
        assert RequestsOnly(events)[1..] == RequestsOnly(events[1..]);
      } else {
        assert RequestsOnly(events) == RequestsOnly(events[1..]);
      }
    }
  }

  // ---- Eviction that shows ----

  function Burst(ip: string, at: real, n: nat): (r: seq<Event>)
    ensures |r| == n
  {
    seq(n, _ => Request(ip, at))
  }

  lemma BurstSteps(ip: string, at: real, n: nat)
    requires n > 0
    ensures Burst(ip, at, n) == [Request(ip, at)] + Burst(ip, at, n - 1)
    ensures Burst(ip, at, n)[1..] == Burst(ip, at, n - 1)
  {
  }

  lemma {:induction false} RunsCompose(l: Limits, bs: Buckets, first: seq<Event>, second: seq<Event>)
    ensures Final(l, bs, first + second) == Final(l, Final(l, bs, first), second)
    ensures Answers(l, bs, first + second) == Answers(l, bs, first) + Answers(l, Final(l, bs, first), second)
    decreases |first|
  {
    if first == [] {
      assert first + second == second;
    } else {
      assert (first + second)[1..] == first[1..] + second;
      RunsCompose(l, After(l, bs, first[0]), first[1..], second);
    }
  }

  predicate AllTrue(answers: seq<bool>) {
    forall k :: 0 <= k < |answers| ==> answers[k]
  }

  /** A burst the client can afford is allowed and paid for. */
  lemma {:induction false} AffordableBurst(l: Limits, bs: Buckets, ip: string, at: real, n: nat)
    requires ip in bs && bs[ip].lastUpdate == at && n as real <= bs[ip].tokens <= l.burst as real
    ensures AllTrue(Answers(l, bs, Burst(ip, at, n)))
    ensures Final(l, bs, Burst(ip, at, n)) == bs[ip := Bucket(bs[ip].tokens - n as real, at)]
    decreases n
  {
    hide Earned;
    if n > 0 {
      BurstSteps(ip, at, n);
      NoTimePasses(l, bs, ip, at);
      AffordableBurst(l, AfterRequest(l, bs, ip, at), ip, at, n - 1);
    } else {
      assert bs == bs[ip := Bucket(bs[ip].tokens - 0.0, at)];
    }
  }

  /** The most requests a new client can make at once. */
  function FirstBurst(l: Limits): nat {
    if l.burst >= 1 then l.burst else 1
  }

  lemma NewClientBurst(l: Limits, ip: string, at: real)
    ensures var n := FirstBurst(l);
            AllTrue(Answers(l, map[], Burst(ip, at, n))) &&
            Final(l, map[], Burst(ip, at, n)) == map[ip := Bucket((l.burst - n) as real, at)]
  {
    var n := FirstBurst(l);
    hide Earned;
    BurstSteps(ip, at, n);
    if n == 1 {
      assert Burst(ip, at, 0) == [];
    } else {
      AffordableBurst(l, AfterRequest(l, map[], ip, at), ip, at, n - 1);
    }
  }

  lemma NothingEarned(rate: real)
    ensures Earned(rate, 0.0) == 0.0
  {
  }

  /** At the time of a request nothing has been refilled since it. */
  lemma NoTimePasses(l: Limits, bs: Buckets, ip: string, at: real)
    ensures var spent := if Allows(l, bs, ip, at) then 1.0 else 0.0;
            Available(l, AfterRequest(l, bs, ip, at), ip, at) == Available(l, bs, ip, at) - spent
  {
    hide Earned;
    NothingEarned(l.rate);
    var b := AfterRequest(l, bs, ip, at)[ip];
    assert at - b.lastUpdate == 0.0;
  }

  lemma {:induction false} OverdrawnBurst(l: Limits, bs: Buckets, ip: string, at: real, n: nat)
    requires ip in bs && Refilled(l, bs[ip], at) < n as real && n > 0
    ensures !AllTrue(Answers(l, bs, Burst(ip, at, n)))
    decreases n
  {
    hide Earned;
    BurstSteps(ip, at, n);
    var answers := Answers(l, bs, Burst(ip, at, n));
    if Refilled(l, bs[ip], at) >= 1.0 {
      var bs' := AfterRequest(l, bs, ip, at);
      NoTimePasses(l, bs, ip, at);
      OverdrawnBurst(l, bs', ip, at, n - 1);
      assert answers[1..] == Answers(l, bs', Burst(ip, at, n - 1));
    } else {
      assert !answers[0];
    }
  }

  /** A time after the cleanup threshold at which a drained bucket is not yet full. */
  function NotYetFull(l: Limits): (t: real)
    requires l.cleanup > 0.0 && !RefillsBeforeCleanup(l)
    ensures t > l.cleanup && (l.burst >= 1 ==> Earned(l.rate, t) < l.burst as real)
  {
    if l.burst < 1 then l.cleanup + 1.0
    else if l.rate <= 0.0 then
      NonPositive(l.rate, l.cleanup + 1.0); l.cleanup + 1.0
    else
      var full := l.burst as real / l.rate;
      Halfway(l.cleanup, full, l.rate, l.burst as real); (l.cleanup + full) / 2.0
  }

  lemma NonPositive(rate: real, elapsed: real)
    requires elapsed > 0.0 && rate <= 0.0
    ensures Earned(rate, elapsed) <= 0.0
  {
  }

  lemma Halfway(x: real, full: real, rate: real, burst: real)
    requires rate > 0.0 && full == burst / rate && rate * x < burst
    ensures x < (x + full) / 2.0 && Earned(rate, (x + full) / 2.0) < burst
  {
    var half := (x + full) / 2.0;
    Quotient(full, rate, burst);
    assert Earned(rate, x) < Earned(rate, full);
    if full <= x {
      EarnedMonotone(rate, full, x);
      assert false;
    }
    assert full == half + (full - half);
    EarnedAdds(rate, half, full - half);
    EarnedPositive(rate, full - half);
  }

  lemma Quotient(full: real, rate: real, burst: real)
    requires rate != 0.0 && full == burst / rate
    ensures Earned(rate, full) == burst
  {
  }

  lemma EarnedPositive(rate: real, elapsed: real)
    requires rate > 0.0 && elapsed > 0.0
    ensures Earned(rate, elapsed) > 0.0
  {
  }

  function Telltale(l: Limits): (events: seq<Event>)
    requires l.cleanup > 0.0 && !RefillsBeforeCleanup(l)
  {
    var n, t := FirstBurst(l), NotYetFull(l);
    Burst("", 0.0, n) + ([Cleanup(t)] + Burst("", t, n))
  }

  lemma {:induction false} BurstRequests(ip: string, at: real, n: nat)
    ensures RequestsOnly(Burst(ip, at, n)) == Burst(ip, at, n)
    ensures Chronological(Burst(ip, at, n), at)
  {
    if n > 0 {
      BurstSteps(ip, at, n);
      BurstRequests(ip, at, n - 1);
    }
  }

  lemma FirstRequest(e: Event, rest: seq<Event>)
    ensures RequestsOnly([e] + rest) == (if e.Request? then [e] else []) + RequestsOnly(rest)
  {
    assert ([e] + rest)[1..] == rest;
  }

  lemma {:induction false} RequestsAppend(first: seq<Event>, second: seq<Event>)
    ensures RequestsOnly(first + second) == RequestsOnly(first) + RequestsOnly(second)
  {
    if first == [] {
      assert first + second == second && RequestsOnly(first) == [];
      assert [] + RequestsOnly(second) == RequestsOnly(second);
    } else {
      var e, tail := first[0], first[1..];
      RequestsAppend(tail, second);
      assert first == [e] + tail && first + second == [e] + (tail + second);
      FirstRequest(e, tail);
      FirstRequest(e, tail + second);
      hide RequestsOnly;
      var one := if e.Request? then [e] else [];
      assert one + (RequestsOnly(tail) + RequestsOnly(second)) == one + RequestsOnly(tail) + RequestsOnly(second);
    }
  }

  lemma {:induction false} ChronologicalAppend(first: seq<Event>, second: seq<Event>, from: real, mid: real)
    requires Chronological(first, from) && Latest(first, from) <= mid && Chronological(second, mid)
    ensures Chronological(first + second, from)
    decreases |first|
  {
    if first == [] {
      assert first + second == second;
      if second != [] {
        assert from <= second[0].at;
      }
    } else {
      assert (first + second)[1..] == first[1..] + second;
      ChronologicalAppend(first[1..], second, first[0].at, mid);
    }
  }

  lemma TelltaleChronological(l: Limits)
    requires l.cleanup > 0.0 && !RefillsBeforeCleanup(l)
    ensures Chronological(Telltale(l), 0.0)
  {
    var n, t := FirstBurst(l), NotYetFull(l);
    BurstRequests("", 0.0, n);
    BurstRequests("", t, n);
    assert ([Cleanup(t)] + Burst("", t, n))[1..] == Burst("", t, n);
    ChronologicalAppend(Burst("", 0.0, n), [Cleanup(t)] + Burst("", t, n), 0.0, t);
  }

  lemma EvictingTelltale(l: Limits)
    requires l.cleanup > 0.0 && !RefillsBeforeCleanup(l)
    ensures AllTrue(Answers(l, map[], Telltale(l)))
  {
    var n, t := FirstBurst(l), NotYetFull(l);
    var tail := [Cleanup(t)] + Burst("", t, n);
    NewClientBurst(l, "", 0.0);
    NewClientBurst(l, "", t);
    RunsCompose(l, map[], Burst("", 0.0, n), tail);
    var drained := Final(l, map[], Burst("", 0.0, n));
    assert AfterCleanup(l, drained, t) == map[];
    assert tail[1..] == Burst("", t, n);
    assert Answers(l, drained, tail) == Answers(l, map[], Burst("", t, n));
  }

  lemma KeepingTelltale(l: Limits)
    requires l.cleanup > 0.0 && !RefillsBeforeCleanup(l)
    ensures !AllTrue(Answers(l, map[], RequestsOnly(Telltale(l))))
  {
    hide Refilled, Final, Answers, AfterRequest;
    var n, t := FirstBurst(l), NotYetFull(l);
    var first, second := Burst("", 0.0, n), Burst("", t, n);
    RequestsAppend(first, [Cleanup(t)] + second);
    BurstRequests("", 0.0, n);
    BurstRequests("", t, n);
    assert ([Cleanup(t)] + second)[1..] == second;
    assert RequestsOnly(Telltale(l)) == first + second;
    NewClientBurst(l, "", 0.0);
    RunsCompose(l, map[], first, second);
    StillOverdrawn(l, t);
    OverdrawnBurst(l, Final(l, map[], first), "", t, n);
    var answers, more := Answers(l, map[], first), Answers(l, Final(l, map[], first), second);
    var k :| 0 <= k < |more| && !more[k];
    assert !(answers + more)[|answers| + k];
  }

  /** The bucket that a first burst at time 0 has drained cannot pay for another one at t. */
  lemma StillOverdrawn(l: Limits, t: real)
    requires l.burst >= 1 ==> Earned(l.rate, t) < l.burst as real
    ensures Refilled(l, Bucket((l.burst - FirstBurst(l)) as real, 0.0), t) < FirstBurst(l) as real
  {
    hide Earned;
    assert t - 0.0 == t;
  }

  // ---- Both directions ----

  ghost predicate EvictionUnobservable(l: Limits) {
    forall events: seq<Event>, from: real :: Chronological(events, from) ==>
      Answers(l, map[], events) == Answers(l, map[], RequestsOnly(events))
  }

  /** Over every chronological run, deleting stale buckets gives exactly the answers of never
      deleting any, if and only if a bucket refills within the cleanup interval. */
  lemma EvictionUnobservableIff(l: Limits)
    requires l.cleanup > 0.0
    ensures EvictionUnobservable(l) <==> RefillsBeforeCleanup(l)
  {
    if RefillsBeforeCleanup(l) {
      forall events: seq<Event>, from: real | Chronological(events, from)
        ensures Answers(l, map[], events) == Answers(l, map[], RequestsOnly(events))
      {
        EvictionDoesNotShow(l, map[], map[], events, from);
      }
    } else {
      TelltaleChronological(l);
      EvictingTelltale(l);
      KeepingTelltale(l);
    }
  }

  // ---- Rate bounds ----

  function AllowedCount(l: Limits, bs: Buckets, events: seq<Event>, ip: string): nat
    decreases |events|
  {
    if events == [] then 0
    else (if events[0].Request? && events[0].ip == ip && Allows(l, bs, ip, events[0].at) then 1 else 0) +
         AllowedCount(l, After(l, bs, events[0]), events[1..], ip)
  }

  predicate NoCleanup(events: seq<Event>) {
    forall k :: 0 <= k < |events| ==> events[k].Request?
  }

  lemma AvailableGrows(l: Limits, bs: Buckets, ip: string, from: real, now: real)
    requires l.rate >= 0.0 && from <= now
    ensures Available(l, bs, ip, from) <= Available(l, bs, ip, now) <= Available(l, bs, ip, from) + Earned(l.rate, now - from)
  {
    hide Earned;
    EarnedNonNegative(l.rate, now - from);
    if ip in bs {
      var idle := from - bs[ip].lastUpdate;
      assert now - bs[ip].lastUpdate == idle + (now - from);
      EarnedAdds(l.rate, idle, now - from);
    }
  }

  /** A step pays for the requests it allows out of what the client has. */
  lemma StepPays(l: Limits, bs: Buckets, e: Event, ip: string, from: real)
    requires l.cleanup > 0.0 && l.burst >= 1 && l.rate >= 0.0 && from <= e.at && InRange(l, bs, from)
    requires e.Request? || RefillsBeforeCleanup(l)
    ensures Available(l, After(l, bs, e), ip, e.at) ==
            Available(l, bs, ip, e.at) - (if e.Request? && e.ip == ip && Allows(l, bs, ip, e.at) then 1.0 else 0.0)
  {
    hide Earned;
    match e
    case Request(client, at) =>
      NoTimePasses(l, bs, client, at);
    case Cleanup(at) =>
      if ip in bs && Stale(l, bs[ip], at) {
        LongIdleIsFull(l, bs[ip], at);
      }
  }

  lemma {:induction false} SpendingBound(l: Limits, bs: Buckets, events: seq<Event>, ip: string, from: real, to: real)
    requires l.cleanup > 0.0 && l.burst >= 1 && l.rate >= 0.0
    requires Chronological(events, from) && Latest(events, from) <= to && from <= to && InRange(l, bs, from)
    requires NoCleanup(events) || RefillsBeforeCleanup(l)
    ensures AllowedCount(l, bs, events, ip) as real <= Available(l, bs, ip, from) + Earned(l.rate, to - from)
    decreases |events|
  {
    hide Earned, Available, Refilled, AfterRequest, AfterCleanup, Allows;
    if events == [] {
      EarnedNonNegative(l.rate, to - from);
      AvailableIsNonNegative(l, bs, ip, from);
    } else {
      var e := events[0];
      StepInRange(l, bs, e, from);
      StepPays(l, bs, e, ip, from);
      AvailableGrows(l, bs, ip, from, e.at);
      LatestBounds(events, from);
      LatestBounds(events[1..], e.at);
      SpendingBound(l, After(l, bs, e), events[1..], ip, e.at, to);
      assert to - from == (to - e.at) + (e.at - from);
      EarnedAdds(l.rate, to - e.at, e.at - from);
    }
  }

  lemma AvailableIsNonNegative(l: Limits, bs: Buckets, ip: string, now: real)
    requires l.burst >= 1 && l.rate >= 0.0 && InRange(l, bs, now)
    ensures 0.0 <= Available(l, bs, ip, now) <= l.burst as real
  {
    if ip in bs {
      RefillInRange(l, bs[ip], now);
    }
  }

  lemma {:induction false} LatestBounds(events: seq<Event>, from: real)
    requires Chronological(events, from)
    ensures from <= Latest(events, from)
    ensures events != [] ==> Latest(events[1..], events[0].at) == Latest(events, from)
    decreases |events|
  {
    if events != [] {
      LatestBounds(events[1..], events[0].at);
    }
  }

  /** In any window of a run, however the run began, a client gets at most burst requests plus
      rate for every second of the window. */
  lemma RateBound(l: Limits, before: seq<Event>, window: seq<Event>, ip: string, start: real, from: real, to: real)
    requires l.cleanup > 0.0 && l.burst >= 1 && l.rate > 0.0
    requires Chronological(before, start) && Latest(before, start) <= from <= to
    requires Chronological(window, from) && Latest(window, from) <= to
    requires NoCleanup(window) || RefillsBeforeCleanup(l)
    ensures AllowedCount(l, Final(l, map[], before), window, ip) as real <= l.burst as real + Earned(l.rate, to - from)
  {
    var bs := Final(l, map[], before);
    TokensInRange(l, map[], before, start);
    SpendingBound(l, bs, window, ip, from, to);
  }

  lemma OneTokenRefilled(l: Limits, b: Bucket, now: real)
    requires l.burst >= 1 && l.rate > 0.0 && b.tokens >= 0.0 && b.lastUpdate <= now - 1.0 / l.rate
    ensures Refilled(l, b, now) >= 1.0
  {
    var step := 1.0 / l.rate;
    Quotient(step, l.rate, 1.0);
    EarnedMonotone(l.rate, step, now - b.lastUpdate);
    hide Earned;
  }

  predicate IdleSince(events: seq<Event>, ip: string, since: real) {
    forall k :: 0 <= k < |events| && events[k].Request? && events[k].ip == ip ==> events[k].at <= since
  }

  lemma {:induction false} LastSeen(l: Limits, bs: Buckets, events: seq<Event>, ip: string, since: real)
    requires IdleSince(events, ip, since) && (ip in bs ==> bs[ip].lastUpdate <= since)
    ensures ip in Final(l, bs, events) ==> Final(l, bs, events)[ip].lastUpdate <= since
    decreases |events|
  {
    if events != [] {
      assert events[0].Request? && events[0].ip == ip ==> events[0].at <= since;
      assert IdleSince(events[1..], ip, since);
      LastSeen(l, After(l, bs, events[0]), events[1..], ip, since);
    }
  }

  /** A client whose earlier requests all lie at least 1/rate back is never refused, cleanups
      or not. */
  lemma SteadyClientIsNeverRefused(l: Limits, events: seq<Event>, start: real, ip: string, now: real)
    requires l.burst >= 1 && l.rate > 0.0
    requires Chronological(events, start) && Latest(events, start) <= now
    requires IdleSince(events, ip, now - 1.0 / l.rate)
    ensures Allows(l, Final(l, map[], events), ip, now)
  {
    hide Final, Refilled;
    var bs := Final(l, map[], events);
    TokensInRange(l, map[], events, start);
    LastSeen(l, map[], events, ip, now - 1.0 / l.rate);
    if ip in bs {
      OneTokenRefilled(l, bs[ip], now);
    }
  }

  // ---- Exactly when a request is allowed ----

  lemma {:induction false} CountsCompose(l: Limits, bs: Buckets, first: seq<Event>, second: seq<Event>, ip: string)
    ensures AllowedCount(l, bs, first + second, ip) ==
            AllowedCount(l, bs, first, ip) + AllowedCount(l, Final(l, bs, first), second, ip)
    decreases |first|
  {
    hide After, Allows;
    if first == [] {
      assert first + second == second;
    } else {
      assert (first + second)[1..] == first[1..] + second;
      CountsCompose(l, After(l, bs, first[0]), first[1..], second, ip);
    }
  }

  /** How many requests the client was allowed from its k-th event on. */
  function CountFrom(l: Limits, events: seq<Event>, ip: string, k: nat): nat
    requires k <= |events|
  {
    AllowedCount(l, Final(l, map[], events[..k]), events[k..], ip)
  }

  function IsRequestOf(e: Event, ip: string): bool {
    e.Request? && e.ip == ip
  }

  /** What the client has left, counted from a request of its own at which its bucket was full. */
  ghost predicate CountedFrom(l: Limits, events: seq<Event>, ip: string, b: Bucket, k: nat) {
    k < |events| && IsRequestOf(events[k], ip) &&
    b.tokens == l.burst as real + Earned(l.rate, b.lastUpdate - events[k].at) - CountFrom(l, events, ip, k) as real
  }

  ghost predicate Accounted(l: Limits, events: seq<Event>, ip: string) {
    ip in Final(l, map[], events) ==> exists k: nat :: CountedFrom(l, events, ip, Final(l, map[], events)[ip], k)
  }

  lemma CountFromMore(l: Limits, events: seq<Event>, e: Event, ip: string, k: nat)
    requires k <= |events|
    ensures CountFrom(l, events + [e], ip, k) == CountFrom(l, events, ip, k) +
            if IsRequestOf(e, ip) && Allows(l, Final(l, map[], events), ip, e.at) then 1 else 0
  {
    hide Allows, After, Final;
    assert (events + [e])[..k] == events[..k] && (events + [e])[k..] == events[k..] + [e];
    CountsCompose(l, Final(l, map[], events[..k]), events[k..], [e], ip);
    RunsCompose(l, map[], events[..k], events[k..]);
    assert events[..k] + events[k..] == events;
    CountOne(l, Final(l, map[], events), e, ip);
  }

  lemma CountOne(l: Limits, bs: Buckets, e: Event, ip: string)
    ensures AllowedCount(l, bs, [e], ip) == if IsRequestOf(e, ip) && Allows(l, bs, ip, e.at) then 1 else 0
  {
    hide After, Allows;
    assert [e][1..] == [];
  }

  lemma FinalOne(l: Limits, events: seq<Event>, e: Event)
    ensures Final(l, map[], events + [e]) == After(l, Final(l, map[], events), e)
  {
    hide After;
    RunsCompose(l, map[], events, [e]);
    assert [e][1..] == [];
  }

  /** A request that finds the bucket full, or no bucket, starts a new count. */
  lemma CountStarts(l: Limits, events: seq<Event>, ip: string, at: real)
    requires l.burst >= 1 && Available(l, Final(l, map[], events), ip, at) == l.burst as real
    ensures Allows(l, Final(l, map[], events), ip, at)
    ensures CountedFrom(l, events + [Request(ip, at)], ip, Bucket(l.burst as real - 1.0, at), |events|)
  {
    hide Final, Earned;
    var e := Request(ip, at);
    CountFromMore(l, events, e, ip, |events|);
    assert events[|events|..] == [];
    assert at - at == 0.0;
    NothingEarned(l.rate);
  }

  lemma CountGoesOn(l: Limits, events: seq<Event>, ip: string, at: real, k: nat, b: Bucket)
    requires ip in Final(l, map[], events) && b == Final(l, map[], events)[ip] && CountedFrom(l, events, ip, b, k)
    requires Refilled(l, b, at) < l.burst as real
    ensures var after := AfterRequest(l, Final(l, map[], events), ip, at)[ip];
            CountedFrom(l, events + [Request(ip, at)], ip, after, k)
  {
    hide Final, Earned;
    var e, from := Request(ip, at), events[k].at;
    CountFromMore(l, events, e, ip, k);
    assert (events + [e])[k] == events[k];
    assert at - from == (b.lastUpdate - from) + (at - b.lastUpdate);
    EarnedAdds(l.rate, b.lastUpdate - from, at - b.lastUpdate);
  }

  lemma OthersCountGoesOn(l: Limits, events: seq<Event>, e: Event, ip: string, b: Bucket, k: nat)
    requires CountedFrom(l, events, ip, b, k) && !IsRequestOf(e, ip)
    ensures CountedFrom(l, events + [e], ip, b, k)
  {
    CountFromMore(l, events, e, ip, k);
    assert (events + [e])[k] == events[k];
  }

  lemma StepAccounted(l: Limits, events: seq<Event>, e: Event, ip: string)
    requires l.burst >= 1 && e.Request? && Accounted(l, events, ip)
    ensures Accounted(l, events + [e], ip)
  {
    hide Final, Earned, CountedFrom, Refilled;
    FinalOne(l, events, e);
    var bs := Final(l, map[], events);
    if e.ip != ip {
      if ip in bs {
        var k: nat :| CountedFrom(l, events, ip, bs[ip], k);
        OthersCountGoesOn(l, events, e, ip, bs[ip], k);
      }
    } else if Available(l, bs, ip, e.at) == l.burst as real {
      CountStarts(l, events, ip, e.at);
    } else {
      var k: nat :| CountedFrom(l, events, ip, bs[ip], k);
      RefillIsCapped(l, bs[ip], e.at);
      CountGoesOn(l, events, ip, e.at, k, bs[ip]);
    }
  }

  lemma RefillIsCapped(l: Limits, b: Bucket, now: real)
    ensures Refilled(l, b, now) <= l.burst as real
  {
    hide Earned;
  }

  lemma {:induction false} RunAccounted(l: Limits, events: seq<Event>, ip: string)
    requires l.burst >= 1 && NoCleanup(events)
    ensures Accounted(l, events, ip)
    decreases |events|
  {
    hide Accounted;
    if events == [] {
      NothingToAccount(l, ip);
    } else {
      var before, e := events[..|events| - 1], events[|events| - 1];
      assert events == before + [e];
      RunAccounted(l, before, ip);
      StepAccounted(l, before, e, ip);
    }
  }

  lemma NothingToAccount(l: Limits, ip: string)
    ensures Accounted(l, [], ip)
  {
  }

  /** The client asked for more than a full bucket and its refill since its k-th event can pay. */
  predicate Overdraws(l: Limits, events: seq<Event>, ip: string, now: real, k: nat) {
    k < |events| && IsRequestOf(events[k], ip) &&
    (CountFrom(l, events, ip, k) + 1) as real > l.burst as real + (now - events[k].at) * l.rate
  }

  lemma OverdrawsEarned(l: Limits, events: seq<Event>, ip: string, now: real, k: nat)
    ensures Overdraws(l, events, ip, now, k) <==>
            k < |events| && IsRequestOf(events[k], ip) &&
            (CountFrom(l, events, ip, k) + 1) as real > l.burst as real + Earned(l.rate, now - events[k].at)
  {
    hide CountFrom;
  }

  lemma RefusedMeansOverdrawn(l: Limits, events: seq<Event>, ip: string, now: real) returns (k: nat)
    requires l.burst >= 1 && NoCleanup(events) && !Allows(l, Final(l, map[], events), ip, now)
    ensures Overdraws(l, events, ip, now, k)
  {
    hide Final, CountFrom, Earned, Overdraws;
    RunAccounted(l, events, ip);
    var b := Final(l, map[], events)[ip];
    k :| CountedFrom(l, events, ip, b, k);
    var from := events[k].at;
    assert now - from == (b.lastUpdate - from) + (now - b.lastUpdate);
    EarnedAdds(l.rate, b.lastUpdate - from, now - b.lastUpdate);
    OverdrawsEarned(l, events, ip, now, k);
  }

  lemma {:induction false} ChronologicalSplit(events: seq<Event>, start: real, k: nat)
    requires Chronological(events, start) && k < |events|
    ensures Chronological(events[..k], start) && Latest(events[..k], start) <= events[k].at
    ensures Chronological(events[k..], events[k].at) && start <= events[k].at
    decreases |events|
  {
    if k == 0 {
      assert events[..0] == [] && events[0..] == events;
    } else {
      var tail := events[1..];
      ChronologicalSplit(tail, events[0].at, k - 1);
      assert tail[..k - 1] == events[..k][1..] && tail[k - 1..] == events[k..] && tail[k - 1] == events[k];
      assert Latest(events[..k], start) == Latest(tail[..k - 1], events[0].at);
    }
  }

  lemma {:induction false} ChronologicalMore(events: seq<Event>, start: real, e: Event)
    requires Chronological(events, start) && Latest(events, start) <= e.at
    ensures Chronological(events + [e], start)
    decreases |events|
  {
    if events == [] {
      assert events + [e] == [e] && [e][1..] == [];
    } else {
      assert (events + [e])[1..] == events[1..] + [e];
      assert Latest(events, start) == Latest(events[1..], events[0].at);
      ChronologicalMore(events[1..], events[0].at, e);
    }
  }

  lemma OverdrawnIsRefused(l: Limits, events: seq<Event>, start: real, ip: string, now: real, k: nat)
    requires l.cleanup > 0.0 && l.burst >= 1 && l.rate > 0.0 && NoCleanup(events)
    requires Chronological(events, start) && Latest(events, start) <= now && Overdraws(l, events, ip, now, k)
    ensures !Allows(l, Final(l, map[], events), ip, now)
  {
    hide Final, Allows, Chronological, Latest, Earned, Overdraws, AllowedCount, NoCleanup;
    OverdrawsEarned(l, events, ip, now, k);
    var e, from := Request(ip, now), events[k].at;
    ChronologicalSplit(events, start, k);
    LatestOfTail(events, start, k);
    var window := events[k..] + [e];
    ChronologicalMore(events[k..], from, e);
    LatestBounds(events[k..], from);
    LatestOfMore(events[k..], from, e);
    RequestsOnlyMore(events, k, e);
    RateBound(l, events[..k], window, ip, start, from, now);
    CountFromMore(l, events, e, ip, k);
    assert (events + [e])[..k] == events[..k] && (events + [e])[k..] == window;
  }

  lemma LatestOfMore(events: seq<Event>, from: real, e: Event)
    ensures Latest(events + [e], from) == e.at
  {
  }

  lemma RequestsOnlyMore(events: seq<Event>, k: nat, e: Event)
    requires NoCleanup(events) && e.Request? && k <= |events|
    ensures NoCleanup(events[k..] + [e])
  {
  }

  lemma LatestOfTail(events: seq<Event>, start: real, k: nat)
    requires k < |events|
    ensures Latest(events[k..], events[k].at) == Latest(events, start)
  {
  }

  /** Over any chronological run, a request is allowed if and only if from no earlier request of
      the client on, this one included, more would be allowed than burst and the refill since.
      The answers follow from this alone, request by request. */
  lemma AllowedIff(l: Limits, events: seq<Event>, start: real, ip: string, now: real)
    requires l.cleanup > 0.0 && l.burst >= 1 && l.rate > 0.0 && NoCleanup(events)
    requires Chronological(events, start) && Latest(events, start) <= now
    ensures Allows(l, Final(l, map[], events), ip, now) <==> !exists k: nat :: Overdraws(l, events, ip, now, k)
  {
    hide Allows, Final, Overdraws, Chronological;
    if !Allows(l, Final(l, map[], events), ip, now) {
      var k := RefusedMeansOverdrawn(l, events, ip, now);
    }
    if k: nat :| Overdraws(l, events, ip, now, k) {
      OverdrawnIsRefused(l, events, start, ip, now, k);
    }
  }
}
