/** The fixed-window rate limiter with opportunistic eviction
    (internal/httpapi/middleware/middleware.go). */
module RateLimiting {
  type Time = int

  datatype Window = Window(count: int, start: Time)

  datatype Limits = Limits(max: int, window: Time)

  type Hits = map<string, Window>

  datatype Request = Request(key: string, at: Time)

  datatype Decision = Decision(allowed: bool, retryAfter: Time)

  const CAPACITY := 10_000

  function KeyOf(bucket: string, key: string): string {
    bucket + "|" + key
  }

  predicate Over(w: Window, at: Time, l: Limits) {
    at - w.start >= l.window
  }

  // ----- a limiter that never evicts -----

  function Decide(hits: Hits, r: Request, l: Limits): Decision {
    if r.key !in hits || Over(hits[r.key], r.at, l) then Decision(true, 0)
    else if hits[r.key].count >= l.max then Decision(false, l.window - (r.at - hits[r.key].start))
    else Decision(true, 0)
  }

  function Count(hits: Hits, r: Request, l: Limits): Hits {
    if r.key !in hits || Over(hits[r.key], r.at, l) then hits[r.key := Window(1, r.at)]
    else if hits[r.key].count >= l.max then hits
    else hits[r.key := Window(hits[r.key].count + 1, hits[r.key].start)]
  }

  // ----- the limiter of the program: it drops finished windows when the map is large -----

  function Evicted(hits: Hits, at: Time, l: Limits): Hits {
    map k | k in hits && !Over(hits[k], at, l) :: hits[k]
  }

  function CountAndEvict(hits: Hits, r: Request, l: Limits): Hits {
    var counted := Count(hits, r, l);
    if (r.key !in hits || Over(hits[r.key], r.at, l)) && |counted| > CAPACITY then Evicted(counted, r.at, l) else counted
  }

  function Decisions(hits: Hits, rs: seq<Request>, l: Limits): seq<Decision>
    decreases |rs|
  {
    if rs == [] then [] else [Decide(hits, rs[0], l)] + Decisions(Count(hits, rs[0], l), rs[1..], l)
  }

  function EvictingDecisions(hits: Hits, rs: seq<Request>, l: Limits): seq<Decision>
    decreases |rs|
  {
    if rs == [] then [] else [Decide(hits, rs[0], l)] + EvictingDecisions(CountAndEvict(hits, rs[0], l), rs[1..], l)
  }

  // The clock does not run backwards.
  predicate Monotone(now: Time, rs: seq<Request>) {
    && (forall i :: 0 <= i < |rs| ==> now <= rs[i].at)
    && forall i, j :: 0 <= i < j < |rs| ==> rs[i].at <= rs[j].at
  }

  // ----- eviction changes no decision -----

  // Every window still running is in both maps; finished ones may be missing from one.
  predicate Alike(evicting: Hits, full: Hits, now: Time, l: Limits) {
    && (forall k :: k in evicting ==> k in full && evicting[k] == full[k])
    && forall k :: k in full && !Over(full[k], now, l) ==> k in evicting
  }

  lemma AlikeStep(evicting: Hits, full: Hits, now: Time, r: Request, l: Limits)
    requires Alike(evicting, full, now, l) && now <= r.at
    ensures Decide(evicting, r, l) == Decide(full, r, l)
    ensures Alike(CountAndEvict(evicting, r, l), Count(full, r, l), r.at, l)
  {
  }

  // For every request sequence the evicting limiter answers exactly as one that never
  // evicts.
  lemma {:induction false} EvictionInvisible(evicting: Hits, full: Hits, now: Time, rs: seq<Request>, l: Limits)
    requires Alike(evicting, full, now, l) && Monotone(now, rs)
    ensures EvictingDecisions(evicting, rs, l) == Decisions(full, rs, l)
    decreases |rs|
  {
    if rs != [] {
      AlikeStep(evicting, full, now, rs[0], l);
      EvictionInvisible(CountAndEvict(evicting, rs[0], l), Count(full, rs[0], l), rs[0].at, rs[1..], l);
    }
  }

  // ----- the sliding-window bound -----

  // Requests of the key admitted between from and to, both included.
  function Admitted(ds: seq<Decision>, rs: seq<Request>, key: string, from: Time, to: Time): nat
    requires |ds| == |rs|
    decreases |rs|
  {
    if rs == [] then 0
    else
      (if ds[0].allowed && rs[0].key == key && from <= rs[0].at <= to then 1 else 0)
      + Admitted(ds[1..], rs[1..], key, from, to)
  }

  function PerWindow(l: Limits): int {
    if l.max > 1 then l.max else 1
  }

  // n requests of the key admitted so far in the interval from..from+window: all in the
  // running window, or some in the one before and the running one started inside.
  predicate Budget(hits: Hits, l: Limits, key: string, from: Time, n: nat) {
    if key !in hits then n == 0
    else
      var w := hits[key];
      && 1 <= w.count <= PerWindow(l)
      && (n >= 1 ==> w.start + l.window > from)
      && (n <= w.count || (n <= PerWindow(l) + w.count && w.start > from))
  }

  lemma BudgetStep(hits: Hits, r: Request, l: Limits, key: string, from: Time, n: nat)
    requires l.window > 0 && Budget(hits, l, key, from, n) && r.at <= from + l.window
    requires key in hits ==> hits[key].start <= r.at
    ensures var n' := n + if Decide(hits, r, l).allowed && r.key == key && from <= r.at then 1 else 0;
      Budget(Count(hits, r, l), l, key, from, n')
    ensures key in Count(hits, r, l) ==> Count(hits, r, l)[key].start <= r.at
  {
  }

  lemma {:induction false} NoneAfter(ds: seq<Decision>, rs: seq<Request>, key: string, from: Time, to: Time)
    requires |ds| == |rs| && forall i :: 0 <= i < |rs| ==> rs[i].at > to
    ensures Admitted(ds, rs, key, from, to) == 0
    decreases |rs|
  {
    if rs != [] {
      NoneAfter(ds[1..], rs[1..], key, from, to);
    }
  }

  lemma {:induction false} BudgetKept(hits: Hits, now: Time, rs: seq<Request>, l: Limits, key: string, from: Time,
                                      n: nat)
    requires l.window > 0 && Budget(hits, l, key, from, n) && Monotone(now, rs)
    requires key in hits ==> hits[key].start <= now
    ensures |Decisions(hits, rs, l)| == |rs|
    ensures n + Admitted(Decisions(hits, rs, l), rs, key, from, from + l.window) <= 2 * PerWindow(l)
    decreases |rs|
  {
    if rs != [] {
      var r, hits1 := rs[0], Count(hits, rs[0], l);
      DecisionsLength(hits, rs, l);
      if r.at > from + l.window {
        NoneAfter(Decisions(hits, rs, l), rs, key, from, from + l.window);
      } else {
        BudgetStep(hits, r, l, key, from, n);
        BudgetKept(hits1, r.at, rs[1..], l, key, from,
                   n + if Decide(hits, r, l).allowed && r.key == key && from <= r.at then 1 else 0);
      }
    }
  }

  lemma {:induction false} DecisionsLength(hits: Hits, rs: seq<Request>, l: Limits)
    ensures |Decisions(hits, rs, l)| == |rs|
    decreases |rs|
  {
    if rs != [] {
      DecisionsLength(Count(hits, rs[0], l), rs[1..], l);
    }
  }

  // Any interval one window long admits at most twice the limit (twice one, for limits
  // below one) of any key, evictions included.
  lemma SlidingBound(now: Time, rs: seq<Request>, l: Limits, key: string, from: Time)
    requires l.window > 0 && Monotone(now, rs)
    ensures |EvictingDecisions(map[], rs, l)| == |rs|
    ensures Admitted(EvictingDecisions(map[], rs, l), rs, key, from, from + l.window) <= 2 * PerWindow(l)
  {
    EvictionInvisible(map[], map[], now, rs, l);
    BudgetKept(map[], now, rs, l, key, from, 0);
  }

  // n requests of one key at one time.
  function Burst(key: string, at: Time, n: nat): seq<Request> {
    seq(n, i => Request(key, at))
  }

  lemma {:induction false} BurstAdmitted(hits: Hits, l: Limits, key: string, at: Time, n: nat, rest: seq<Request>,
                                         from: Time, to: Time)
    requires key in hits && !Over(hits[key], at, l) && from <= at <= to && (n == 0 || hits[key].count + n <= l.max)
    ensures var hits' := hits[key := Window(hits[key].count + n, hits[key].start)];
      && |Decisions(hits, Burst(key, at, n) + rest, l)| == n + |rest| && |Decisions(hits', rest, l)| == |rest|
      && Admitted(Decisions(hits, Burst(key, at, n) + rest, l), Burst(key, at, n) + rest, key, from, to) ==
         n + Admitted(Decisions(hits', rest, l), rest, key, from, to)
    decreases n
  {
    var all := Burst(key, at, n) + rest;
    DecisionsLength(hits, all, l);
    DecisionsLength(hits[key := Window(hits[key].count + n, hits[key].start)], rest, l);
    if n == 0 {
      assert all == rest && hits[key := hits[key]] == hits;
    } else {
      var hits1 := hits[key := Window(hits[key].count + 1, hits[key].start)];
      assert all[0] == Request(key, at) && all[1..] == Burst(key, at, n - 1) + rest;
      BurstAdmitted(hits1, l, key, at, n - 1, rest, from, to);
      assert hits1[key := Window(hits1[key].count + (n - 1), hits1[key].start)] ==
             hits[key := Window(hits[key].count + n, hits[key].start)];
    }
  }

  // A full burst that opens a window is admitted whole.
  lemma BurstOpens(hits: Hits, l: Limits, key: string, at: Time, n: nat, rest: seq<Request>, from: Time, to: Time)
    requires (key !in hits || Over(hits[key], at, l)) && 1 <= n <= PerWindow(l) && from <= at <= to && l.window > 0
    ensures var hits' := hits[key := Window(n, at)];
      && |Decisions(hits, Burst(key, at, n) + rest, l)| == n + |rest| && |Decisions(hits', rest, l)| == |rest|
      && Admitted(Decisions(hits, Burst(key, at, n) + rest, l), Burst(key, at, n) + rest, key, from, to) ==
         n + Admitted(Decisions(hits', rest, l), rest, key, from, to)
  {
    var all := Burst(key, at, n) + rest;
    var begun := hits[key := Window(1, at)];
    DecisionsLength(hits, all, l);
    assert all[0] == Request(key, at) && all[1..] == Burst(key, at, n - 1) + rest;
    assert Decide(hits, all[0], l).allowed && Count(hits, all[0], l) == begun;
    BurstAdmitted(begun, l, key, at, n - 1, rest, from, to);
    assert begun[key := Window(n, at)] == hits[key := Window(n, at)];
  }

  // The bound is reached, whatever the limit: a full burst as the window opens, another
  // as it closes.
  lemma BoundReached(l: Limits, key: string)
    requires l.window > 0
    ensures var n := PerWindow(l);
      var rs := Burst(key, 0, n) + Burst(key, l.window, n);
      && Monotone(0, rs) && |EvictingDecisions(map[], rs, l)| == |rs|
      && Admitted(EvictingDecisions(map[], rs, l), rs, key, 0, l.window) == 2 * n
  {
    var n := PerWindow(l);
    var second := Burst(key, l.window, n);
    var full: Hits := map[key := Window(n, 0)];
    BurstOpens(map[], l, key, 0, n, second, 0, l.window);
    assert map[][key := Window(n, 0)] == full;
    BurstOpens(full, l, key, l.window, n, [], 0, l.window);
    assert second + [] == second;
    EvictionInvisible(map[], map[], 0, Burst(key, 0, n) + second, l);
  }

  // ----- the size of the table -----

  // A call that opens a window leaves at most 10,000 windows, or only running ones; any
  // other call leaves the same keys.
  lemma TableBounded(hits: Hits, r: Request, l: Limits)
    ensures var after := CountAndEvict(hits, r, l);
      if r.key !in hits || r.at - hits[r.key].start >= l.window
      then |after| <= 10_000 || forall k :: k in after ==> r.at - after[k].start < l.window
      else after.Keys == hits.Keys
  {
  }

  // ----- the retry time -----

  lemma {:induction false} DeniedUntil(hits: Hits, rs: seq<Request>, l: Limits, key: string, until: Time, i: nat)
    requires key in hits && hits[key].count >= l.max && until == hits[key].start + l.window && i < |rs|
    requires forall j :: 0 <= j < i && rs[j].key == key ==> rs[j].at < until
    requires rs[i].key == key
    ensures |Decisions(hits, rs, l)| == |rs|
    ensures Decisions(hits, rs, l)[i].allowed <==> rs[i].at >= until
    decreases |rs|
  {
    DecisionsLength(hits, rs, l);
    if i > 0 {
      assert forall j :: 0 <= j < i ==> rs[1..][j] == rs[j + 1];
      DeniedUntil(Count(hits, rs[0], l), rs[1..], l, key, until, i - 1);
    }
  }

  // The answered retry time is exact: after a refusal the next requests of the key are
  // refused until that much time has passed and the first one then is admitted, however
  // many requests of other keys come between.
  lemma RetryAfterExact(hits: Hits, r: Request, l: Limits, rs: seq<Request>, i: nat)
    requires !Decide(hits, r, l).allowed && i < |rs| && rs[i].key == r.key
    requires forall j :: 0 <= j < i && rs[j].key == r.key ==> rs[j].at < r.at + Decide(hits, r, l).retryAfter
    ensures |Decisions(Count(hits, r, l), rs, l)| == |rs|
    ensures Decisions(Count(hits, r, l), rs, l)[i].allowed <==> rs[i].at >= r.at + Decide(hits, r, l).retryAfter
    ensures Decide(hits, r, l).retryAfter > 0
  {
    DeniedUntil(hits, rs, l, r.key, hits[r.key].start + l.window, i);
  }

  // ----- keys -----

  // Buckets without a bar keep their keys apart.
  lemma KeysApart(b1: string, k1: string, b2: string, k2: string)
    requires '|' !in b1 && '|' !in b2
    ensures KeyOf(b1, k1) == KeyOf(b2, k2) <==> b1 == b2 && k1 == k2
  {
    FirstBar(b1, k1);
    FirstBar(b2, k2);
  }

  lemma FirstBar(bucket: string, key: string)
    requires '|' !in bucket
    ensures var k := KeyOf(bucket, key);
      && |k| > |bucket| && k[|bucket|] == '|' && (forall i :: 0 <= i < |bucket| ==> k[i] != '|')
      && k[..|bucket|] == bucket && k[|bucket| + 1..] == key
  {
  }

  // ----- the limiter as it runs -----

  class RateLimiter {
    const limits: Limits
    var hits: Hits

    constructor (max: int, window: Time)
      ensures limits == Limits(max, window) && hits == map[]
    {
      limits, hits := Limits(max, window), map[];
    }

    method Allow(bucket: string, key: string, now: Time) returns (allowed: bool, retryAfter: Time)
      modifies this
      ensures var r := Request(KeyOf(bucket, key), now);
        && Decision(allowed, retryAfter) == Decide(old(hits), r, limits)
        && hits == CountAndEvict(old(hits), r, limits)
    {
      var k := bucket + "|" + key;
      if k !in hits || now - hits[k].start >= limits.window {
        hits := hits[k := Window(1, now)];
        if |hits| > CAPACITY {
          Evict(now);
        }
        return true, 0;
      }
      var w := hits[k];
      if w.count >= limits.max {
        return false, limits.window - (now - w.start);
      }
      hits := hits[k := w.(count := w.count + 1)];
      return true, 0;
    }

    method Evict(now: Time)
      modifies this
      ensures hits == Evicted(old(hits), now, limits)
    {
      var todo := hits.Keys;
      while todo != {}
        invariant todo <= hits.Keys <= old(hits).Keys
        invariant forall k :: k in hits ==> hits[k] == old(hits)[k]
        invariant forall k :: k in old(hits) && k !in todo ==> (k in hits <==> !Over(old(hits)[k], now, limits))
        decreases |todo|
      {
        var k :| k in todo;
        todo := todo - {k};
        if now - hits[k].start >= limits.window {
          hits := hits - {k};
        }
      }
    }
  }
}
