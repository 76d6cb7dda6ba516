/**
  The keyed token-bucket rate limiter. Levels and times are reals, so rounding
  is not modelled; the window is positive and the clock never goes back.

  The main result is an exact law. Since a key's bucket was created, a check is
  allowed if and only if, for every earlier check j of that bucket and for the
  check itself, the requests allowed from j on plus this one fit into
  max + (time since j) * max / per.
 */
module RateLimiter {

  const MAX_RATE_LIMIT_KEYS: nat := 10_000

  datatype Bucket = Bucket(tokens: real, last: real)

  /** One answered check of a bucket. */
  datatype Check = Check(at: real, allowed: bool)

  /**
    A capacity and the refill earned up to each time. The limiter earns at the
    constant rate `Refill(max, per)`; the proofs only need that it never falls.
   */
  datatype Limits = Limits(max: nat, credit: real -> real)

  function Refill(max: nat, per: real): real -> real
    requires per > 0.0
  {
    (t: real) => t * (max as real / per)
  }

  function PerWindow(max: nat, per: real): Limits
    requires per > 0.0
  {
    Limits(max, Refill(max, per))
  }

  ghost predicate Sound(l: Limits) {
    forall a, b | a <= b :: l.credit(a) <= l.credit(b)
  }

  lemma PerWindowIsSound(max: nat, per: real)
    requires per > 0.0
    ensures Sound(PerWindow(max, per))
  {
    var l := PerWindow(max, per);
    var rate := max as real / per;
    assert rate >= 0.0;
    forall a, b | a <= b
      ensures l.credit(a) <= l.credit(b)
    {
      assert (b - a) * rate >= 0.0;
    }
  }

  function Min(a: real, b: real): real { if a <= b then a else b }

  function Spent(allowed: bool): real { if allowed then 1.0 else 0.0 }

  /* ---- The bucket as it is computed ---- */

  function Refilled(l: Limits, b: Bucket, now: real): real
  {
    Min(b.tokens + l.credit(now) - l.credit(b.last), l.max as real)
  }

  /** The bucket a check works on: the stored one, or a full one created now. */
  function BucketFor(l: Limits, buckets: map<string, Bucket>, key: string, now: real): Bucket {
    if key in buckets then buckets[key] else Bucket(l.max as real, now)
  }

  /** At the cap, a new key first drops full buckets and then, if that made no room, all of them. */
  function MakeRoom(l: Limits, buckets: map<string, Bucket>, key: string): map<string, Bucket> {
    if key in buckets || |buckets| < MAX_RATE_LIMIT_KEYS then buckets
    else
      var kept := map k | k in buckets && buckets[k].tokens < l.max as real :: buckets[k];
      if |kept| >= MAX_RATE_LIMIT_KEYS then map[] else kept
  }

  /* ---- The law ---- */

  /** Requests allowed among checks j, j + 1, ... of a history. */
  function AllowedFrom(h: seq<Check>, j: nat): real {
    if j >= |h| then 0.0 else AllowedFrom(h[..|h| - 1], j) + Spent(h[|h| - 1].allowed)
  }

  function TimeOf(h: seq<Check>, j: nat, now: real): real {
    if j < |h| then h[j].at else now
  }

  /** What the window that opens at check j still leaves for a check made now. */
  function Headroom(l: Limits, h: seq<Check>, j: nat, now: real): real
  {
    l.max as real + l.credit(now) - l.credit(TimeOf(h, j, now)) - AllowedFrom(h, j)
  }

  /** Every window of the bucket, up to the one opening now, has room for one more request. */
  ghost predicate Fits(l: Limits, h: seq<Check>, now: real)
  {
    forall j: nat | j <= |h| :: Headroom(l, h, j, now) >= 1.0
  }

  /** The level a bucket with this history has when it is refilled now. */
  function Level(l: Limits, h: seq<Check>, now: real): real
  {
    if h == [] then l.max as real
    else
      var prior, last := h[..|h| - 1], h[|h| - 1];
      Min(Level(l, prior, last.at) - Spent(last.allowed) + (l.credit(now) - l.credit(last.at)), l.max as real)
  }

  lemma Shift(l: Limits, h: seq<Check>, j: nat, now: real)
    requires h != [] && j < |h|
    ensures var prior, last := h[..|h| - 1], h[|h| - 1];
            Headroom(l, h, j, now)
            == Headroom(l, prior, j, last.at) - Spent(last.allowed) + (l.credit(now) - l.credit(last.at))
  {
    var prior, last := h[..|h| - 1], h[|h| - 1];
    assert TimeOf(prior, j, last.at) == TimeOf(h, j, now);
  }

  ghost predicate AllAtLeast(s: seq<real>, x: real) {
    forall j | 0 <= j < |s| :: s[j] >= x
  }

  /** The refill step on plain numbers: what holds of the minimum before holds of it after. */
  lemma LeastAfterRefill(before: seq<real>, after: seq<real>, level: real, spent: real, gain: real, max: real, x: real)
    requires |after| == |before| + 1 && after[|before|] == max
    requires forall j | 0 <= j < |before| :: after[j] == before[j] - spent + gain
    requires level >= x + spent - gain <==> AllAtLeast(before, x + spent - gain)
    ensures Min(level - spent + gain, max) >= x <==> AllAtLeast(after, x)
  {
    if AllAtLeast(after, x) {
      assert forall j | 0 <= j < |before| :: after[j] >= x;
      assert after[|before|] >= x;
    }
  }

  /** The headroom of every window, in order. */
  function Headrooms(l: Limits, h: seq<Check>, now: real): seq<real>
  {
    seq(|h| + 1, j requires 0 <= j <= |h| => Headroom(l, h, j, now))
  }

  /** The level is the smallest headroom over all windows of the bucket. */
  lemma {:induction false} LevelIsLeastHeadroom(l: Limits, h: seq<Check>, now: real, x: real)
    ensures Level(l, h, now) >= x <==> AllAtLeast(Headrooms(l, h, now), x)
    decreases |h|
  {
    var after := Headrooms(l, h, now);
    assert after[|h|] == Headroom(l, h, |h|, now) == l.max as real;
    if h == [] {
      assert after == [l.max as real];
    } else {
      var prior, last := h[..|h| - 1], h[|h| - 1];
      var spent, gain := Spent(last.allowed), l.credit(now) - l.credit(last.at);
      var before := Headrooms(l, prior, last.at);
      LevelIsLeastHeadroom(l, prior, last.at, x + spent - gain);
      forall j | 0 <= j < |h|
        ensures after[j] == before[j] - spent + gain
      {
        Shift(l, h, j, now);
      }
      var least := Min(Level(l, prior, last.at) - spent + gain, l.max as real);
      assert Level(l, h, now) == least;
      assert least >= x <==> AllAtLeast(after, x) by {
        LeastAfterRefill(before, after, Level(l, prior, last.at), spent, gain, l.max as real, x);
      }
    }
  }

  /* ---- The limiter with its history ---- */

  /** The map of buckets, with the checks each bucket has answered since it was created. */
  datatype Limiter = Limiter(buckets: map<string, Bucket>, history: map<string, seq<Check>>)

  /** What one check does to the map of buckets, and its answer. */
  function CheckBuckets(l: Limits, stored: map<string, Bucket>, key: string, now: real): (map<string, Bucket>, bool) {
    var buckets := MakeRoom(l, stored, key);
    var level := Refilled(l, BucketFor(l, buckets, key, now), now);
    var allowed := level >= 1.0;
    (buckets[key := Bucket(level - Spent(allowed), now)], allowed)
  }

  function CheckKey(l: Limits, s: Limiter, key: string, now: real): (Limiter, bool) {
    var (buckets, allowed) := CheckBuckets(l, s.buckets, key, now);
    var kept := MakeRoom(l, s.buckets, key);
    var history := map k | k in s.history && k in kept :: s.history[k];
    var prior := if key in history then history[key] else [];
    (Limiter(buckets, history[key := prior + [Check(now, allowed)]]), allowed)
  }

  ghost predicate BucketOk(l: Limits, b: Bucket, h: seq<Check>, clock: real)
  {
    && h != [] && b.last == h[|h| - 1].at <= clock
    && b.tokens == Level(l, h[..|h| - 1], b.last) - Spent(h[|h| - 1].allowed)
    && 0.0 <= b.tokens && (l.max == 0 || b.tokens < l.max as real)
    && Lawful(l, h)
  }

  /** Every answer in the history is the one the law gives. */
  ghost predicate Lawful(l: Limits, h: seq<Check>)
  {
    && (forall i, j | 0 <= i <= j < |h| :: h[i].at <= h[j].at)
    && (forall n | 0 <= n < |h| :: h[n].allowed <==> Fits(l, h[..n], h[n].at))
  }

  ghost predicate Inv(l: Limits, s: Limiter, clock: real) {
    && Sound(l) && s.history.Keys == s.buckets.Keys && |s.buckets| <= MAX_RATE_LIMIT_KEYS
    && forall k | k in s.buckets :: BucketOk(l, s.buckets[k], s.history[k], clock)
  }

  /** When it must make room, the limiter forgets every bucket: lazy refilling leaves none full. */
  lemma MakeRoomForgetsAll(l: Limits, s: Limiter, key: string, clock: real)
    requires Inv(l, s, clock) && key !in s.buckets && |s.buckets| >= MAX_RATE_LIMIT_KEYS
    ensures MakeRoom(l, s.buckets, key) == map[]
    ensures l.max >= 1 ==> forall k | k in s.buckets :: s.buckets[k].tokens < l.max as real
  {
    var kept := map k | k in s.buckets && s.buckets[k].tokens < l.max as real :: s.buckets[k];
    forall k | k in s.buckets
      ensures l.max >= 1 ==> s.buckets[k].tokens < l.max as real
      ensures l.max == 0 ==> s.buckets[k].tokens >= 0.0
    {
      assert BucketOk(l, s.buckets[k], s.history[k], clock);
    }
    if l.max >= 1 {
      assert kept == s.buckets;
    } else {
      assert kept == map[];
    }
  }

  lemma FitsIffLevel(l: Limits, h: seq<Check>, now: real)
    ensures Fits(l, h, now) <==> Level(l, h, now) >= 1.0
  {
    LevelIsLeastHeadroom(l, h, now, 1.0);
    assert forall j: nat | j <= |h| :: Headrooms(l, h, now)[j] == Headroom(l, h, j, now);
  }

  /** The history on which a check of `key` is decided: empty if its bucket is created now. */
  function Prior(l: Limits, s: Limiter, key: string): seq<Check> {
    if key in s.history && key in s.buckets then s.history[key] else []
  }

  /** The bucket's stored level, refilled, is the level of its history. */
  lemma StoredLevel(l: Limits, s: Limiter, key: string, clock: real, now: real)
    requires Inv(l, s, clock) && clock <= now
    ensures var buckets := MakeRoom(l, s.buckets, key);
            Refilled(l, BucketFor(l, buckets, key, now), now) == Level(l, Prior(l, s, key), now)
  {
    if key in s.buckets {
      assert BucketOk(l, s.buckets[key], s.history[key], clock);
    }
  }

  lemma RefillStaysNonnegative(l: Limits, b: Bucket, now: real)
    requires Sound(l) && b.tokens >= 0.0 && b.last <= now
    ensures 0.0 <= Refilled(l, b, now) <= l.max as real
  {
  }

  lemma LawfulExtends(l: Limits, h: seq<Check>, c: Check)
    requires Sound(l) && Lawful(l, h) && (h != [] ==> h[|h| - 1].at <= c.at)
    requires c.allowed <==> Fits(l, h, c.at)
    ensures Lawful(l, h + [c])
  {
    var h' := h + [c];
    forall n | 0 <= n < |h'|
      ensures h'[n].allowed <==> Fits(l, h'[..n], h'[n].at)
    {
      assert n < |h| ==> h'[..n] == h[..n];
      assert n == |h| ==> h'[..n] == h;
    }
  }

  /** The bucket a check leaves behind, under the law. */
  lemma CheckedBucketOk(l: Limits, s: Limiter, key: string, clock: real, now: real)
    requires Inv(l, s, clock) && clock <= now
    ensures var (s', allowed) := CheckKey(l, s, key, now);
            && (allowed <==> Fits(l, Prior(l, s, key), now))
            && key in s'.buckets && key in s'.history
            && s'.history[key] == Prior(l, s, key) + [Check(now, allowed)]
            && BucketOk(l, s'.buckets[key], s'.history[key], now)
  {
    var (s', allowed) := CheckKey(l, s, key, now);
    var h := Prior(l, s, key);
    var b := BucketFor(l, MakeRoom(l, s.buckets, key), key, now);
    if key !in s.buckets {
      if |s.buckets| >= MAX_RATE_LIMIT_KEYS {
        MakeRoomForgetsAll(l, s, key, clock);
      }
    } else {
      assert BucketOk(l, s.buckets[key], s.history[key], clock);
    }
    StoredLevel(l, s, key, clock, now);
    FitsIffLevel(l, h, now);
    RefillStaysNonnegative(l, b, now);
    LawfulExtends(l, h, Check(now, allowed));
    assert s'.history[key][..|h|] == h;
  }

  lemma RoomIsAllOrNothing(l: Limits, s: Limiter, key: string, clock: real)
    requires Inv(l, s, clock)
    ensures MakeRoom(l, s.buckets, key)
            == if key in s.buckets || |s.buckets| < MAX_RATE_LIMIT_KEYS then s.buckets else map[]
  {
    if key !in s.buckets && |s.buckets| >= MAX_RATE_LIMIT_KEYS {
      MakeRoomForgetsAll(l, s, key, clock);
    }
  }

  /** A check leaves the other keys' buckets alone, unless it hit the cap, which empties the map. */
  lemma CheckTouchesOneKey(l: Limits, s: Limiter, key: string, clock: real, now: real)
    requires Inv(l, s, clock)
    ensures var s' := CheckKey(l, s, key, now).0;
            && key in s'.buckets
            && (forall k | k != key :: k in s'.buckets <==>
                  k in s.buckets && (key in s.buckets || |s.buckets| < MAX_RATE_LIMIT_KEYS))
            && (forall k | k != key && k in s'.buckets ::
                  && s'.buckets[k] == s.buckets[k]
                  && k in s'.history && s'.history[k] == s.history[k])
  {
    RoomIsAllOrNothing(l, s, key, clock);
  }

  lemma UnderCap(before: map<string, Bucket>, after: map<string, Bucket>, key: string)
    requires |before| <= MAX_RATE_LIMIT_KEYS && key in after
    requires forall k | k != key :: k in after <==> k in before && (key in before || |before| < MAX_RATE_LIMIT_KEYS)
    ensures |after| <= MAX_RATE_LIMIT_KEYS
  {
    if key in before {
      assert after.Keys == before.Keys;
    } else if |before| < MAX_RATE_LIMIT_KEYS {
      assert after.Keys == before.Keys + {key};
    } else {
      assert after.Keys == {key};
    }
    assert |after| == |after.Keys| && |before| == |before.Keys|;
  }

  lemma BucketStaysOk(l: Limits, b: Bucket, h: seq<Check>, clock: real, now: real)
    requires BucketOk(l, b, h, clock) && clock <= now
    ensures BucketOk(l, b, h, now)
  {
  }

  lemma OtherBucketOk(l: Limits, s: Limiter, key: string, clock: real, now: real, k: string)
    requires Inv(l, s, clock) && clock <= now && k != key && k in CheckKey(l, s, key, now).0.buckets
    ensures var s' := CheckKey(l, s, key, now).0;
            k in s'.history && BucketOk(l, s'.buckets[k], s'.history[k], now)
  {
    CheckTouchesOneKey(l, s, key, clock, now);
    BucketStaysOk(l, s.buckets[k], s.history[k], clock, now);
  }

  lemma CheckStaysUnderCap(l: Limits, s: Limiter, key: string, clock: real, now: real)
    requires Inv(l, s, clock)
    ensures var s' := CheckKey(l, s, key, now).0;
            |s'.buckets| <= MAX_RATE_LIMIT_KEYS && s'.history.Keys == s'.buckets.Keys
  {
    CheckTouchesOneKey(l, s, key, clock, now);
    UnderCap(s.buckets, CheckKey(l, s, key, now).0.buckets, key);
  }

  /** Every check keeps the invariant, so levels stay in [0, max) and the map under its cap. */
  lemma CheckKeepsInv(l: Limits, s: Limiter, key: string, clock: real, now: real)
    requires Inv(l, s, clock) && clock <= now
    ensures Inv(l, CheckKey(l, s, key, now).0, now)
  {
    CheckStaysUnderCap(l, s, key, clock, now);
    CheckedBucketOk(l, s, key, clock, now);
    var s' := CheckKey(l, s, key, now).0;
    forall k | k in s'.buckets
      ensures k in s'.history && BucketOk(l, s'.buckets[k], s'.history[k], now)
    {
      if k != key {
        OtherBucketOk(l, s, key, clock, now, k);
      }
    }
  }

  /* ---- Whole runs ---- */

  datatype Request = Request(key: string, at: real)

  ghost predicate InOrder(reqs: seq<Request>, clock: real) {
    reqs != [] ==> clock <= reqs[0].at && InOrder(reqs[1..], reqs[0].at)
  }

  function RunAll(l: Limits, s: Limiter, reqs: seq<Request>): Limiter
    decreases reqs
  {
    if reqs == [] then s else RunAll(l, CheckKey(l, s, reqs[0].key, reqs[0].at).0, reqs[1..])
  }

  const EMPTY := Limiter(map[], map[])

  function LastTime(reqs: seq<Request>, clock: real): real {
    if reqs == [] then clock else LastTime(reqs[1..], reqs[0].at)
  }

  lemma {:induction false} RunKeepsInv(l: Limits, s: Limiter, reqs: seq<Request>, clock: real)
    requires Inv(l, s, clock) && InOrder(reqs, clock)
    ensures Inv(l, RunAll(l, s, reqs), LastTime(reqs, clock))
    decreases reqs
  {
    if reqs != [] {
      CheckKeepsInv(l, s, reqs[0].key, clock, reqs[0].at);
      RunKeepsInv(l, CheckKey(l, s, reqs[0].key, reqs[0].at).0, reqs[1..], reqs[0].at);
    }
  }

  /**
    After any run from an empty limiter, every bucket's history of answers obeys
    the law, check by check, and no bucket holds a full level.
   */
  lemma EveryRunIsLawful(l: Limits, reqs: seq<Request>, clock: real, key: string)
    requires Sound(l) && InOrder(reqs, clock) && key in RunAll(l, EMPTY, reqs).buckets
    ensures var s := RunAll(l, EMPTY, reqs);
            && |s.buckets| <= MAX_RATE_LIMIT_KEYS
            && key in s.history && Lawful(l, s.history[key])
            && 0.0 <= s.buckets[key].tokens && (l.max >= 1 ==> s.buckets[key].tokens < l.max as real)
  {
    RunKeepsInv(l, EMPTY, reqs, clock);
    var s := RunAll(l, EMPTY, reqs);
    assert BucketOk(l, s.buckets[key], s.history[key], LastTime(reqs, clock));
  }

  lemma RefillOverTime(max: nat, per: real, from: real, to: real)
    requires per > 0.0
    ensures Refill(max, per)(to) - Refill(max, per)(from) == (to - from) * (max as real / per)
  {
  }

  /** Check n and the requests allowed since check j fit into what that window has earned. */
  ghost predicate WithinWindow(max: nat, per: real, h: seq<Check>, j: nat, n: nat)
    requires per > 0.0 && j <= n < |h|
  {
    AllowedFrom(h[..n], j) + 1.0 <= max as real + (h[n].at - h[j].at) * (max as real / per)
  }

  lemma WindowIsHeadroom(max: nat, per: real, h: seq<Check>, j: nat, n: nat)
    requires per > 0.0 && j <= n < |h|
    ensures WithinWindow(max, per, h, j, n) <==> Headroom(PerWindow(max, per), h[..n], j, h[n].at) >= 1.0
  {
    RefillOverTime(max, per, h[j].at, h[n].at);
    assert TimeOf(h[..n], j, h[n].at) == h[j].at;
  }

  /** Whether a history obeys the law, in the limiter's own terms. */
  lemma LawfulWindows(max: nat, per: real, h: seq<Check>, n: nat)
    requires per > 0.0 && Lawful(PerWindow(max, per), h) && n < |h|
    ensures h[n].allowed <==> forall j: nat | j <= n :: WithinWindow(max, per, h, j, n)
  {
    forall j: nat | j <= n
      ensures WithinWindow(max, per, h, j, n) <==> Headroom(PerWindow(max, per), h[..n], j, h[n].at) >= 1.0
    {
      WindowIsHeadroom(max, per, h, j, n);
    }
    assert h[n].allowed <==> Fits(PerWindow(max, per), h[..n], h[n].at);
  }

  /** What key's bucket has answered since it was created, at the end of a run from an empty limiter. */
  function Answers(max: nat, per: real, reqs: seq<Request>, key: string): seq<Check>
    requires per > 0.0
  {
    var s := RunAll(PerWindow(max, per), EMPTY, reqs);
    if key in s.history then s.history[key] else []
  }

  lemma AnswersAreLawful(max: nat, per: real, reqs: seq<Request>, clock: real, key: string)
    requires per > 0.0 && InOrder(reqs, clock)
    ensures Lawful(PerWindow(max, per), Answers(max, per, reqs, key))
  {
    PerWindowIsSound(max, per);
    var l := PerWindow(max, per);
    RunKeepsInv(l, EMPTY, reqs, clock);
    if key in RunAll(l, EMPTY, reqs).buckets {
      EveryRunIsLawful(l, reqs, clock, key);
    }
  }

  /**
    The law of every run: check n of a bucket was allowed if and only if no
    window of the bucket, from any earlier check or from this one, would exceed
    max plus what it has earned since.
   */
  lemma ExactLaw(max: nat, per: real, reqs: seq<Request>, clock: real, key: string, n: nat)
    requires per > 0.0 && InOrder(reqs, clock) && n < |Answers(max, per, reqs, key)|
    ensures var h := Answers(max, per, reqs, key);
            h[n].allowed <==> forall j: nat | j <= n :: WithinWindow(max, per, h, j, n)
  {
    AnswersAreLawful(max, per, reqs, clock, key);
    LawfulWindows(max, per, Answers(max, per, reqs, key), n);
  }

  /** The promise to clients: in every run, no window of a bucket admits more than its share. */
  lemma WindowBound(max: nat, per: real, reqs: seq<Request>, clock: real, key: string, j: nat, n: nat)
    requires per > 0.0 && InOrder(reqs, clock) && j <= n < |Answers(max, per, reqs, key)|
    requires Answers(max, per, reqs, key)[n].allowed
    ensures var h := Answers(max, per, reqs, key);
            AllowedFrom(h[..n + 1], j) <= max as real + (h[n].at - h[j].at) * (max as real / per)
  {
    var h := Answers(max, per, reqs, key);
    ExactLaw(max, per, reqs, clock, key, n);
    assert WithinWindow(max, per, h, j, n);
    assert h[..n + 1][..n] == h[..n];
  }

  /* ---- A run that reaches the cap ---- */

  /** Distinct keys. */
  function Key(i: nat): string {
    seq(i, _ => 'k')
  }

  /** One check of each of the first `n` keys, all at time zero. */
  function Fill(n: nat): seq<Request> {
    seq(n, i requires 0 <= i < n => Request(Key(i), 0.0))
  }

  /** The state is what `n` first checks of distinct keys at time zero leave. */
  ghost predicate Filled(l: Limits, s: Limiter, n: nat) {
    && (forall i: nat :: Key(i) in s.buckets <==> i < n)
    && (forall i: nat | i < n :: s.buckets[Key(i)] == Bucket(l.max as real - 1.0, 0.0))
    && (forall k | k in s.buckets :: exists i: nat :: i < n && k == Key(i))
    && |s.buckets| == n
  }

  lemma KeysDiffer(i: nat, j: nat)
    ensures Key(i) == Key(j) <==> i == j
  {
    assert |Key(i)| == i && |Key(j)| == j;
  }

  /** A first check of a key below the cap. */
  lemma FirstCheck(l: Limits, s: Limiter, key: string, now: real)
    requires l.max >= 1 && key !in s.buckets && |s.buckets| < MAX_RATE_LIMIT_KEYS
    ensures CheckKey(l, s, key, now).0.buckets == s.buckets[key := Bucket(l.max as real - 1.0, now)]
    ensures |CheckKey(l, s, key, now).0.buckets| == |s.buckets| + 1
  {
    assert Refilled(l, Bucket(l.max as real, now), now) == l.max as real;
    assert CheckKey(l, s, key, now).0.buckets == CheckBuckets(l, s.buckets, key, now).0;
    OneMoreKey(s.buckets, key, Bucket(l.max as real - 1.0, now));
  }

  lemma OneMoreKey(buckets: map<string, Bucket>, key: string, b: Bucket)
    requires key !in buckets
    ensures |buckets[key := b]| == |buckets| + 1
  {
    var more := buckets[key := b];
    assert more.Keys == buckets.Keys + {key};
    assert |more| == |more.Keys| && |buckets| == |buckets.Keys|;
  }

  lemma {:induction false} RunAppend(l: Limits, s: Limiter, reqs: seq<Request>, r: Request)
    ensures RunAll(l, s, reqs + [r]) == CheckKey(l, RunAll(l, s, reqs), r.key, r.at).0
    decreases reqs
  {
    var all := reqs + [r];
    if reqs == [] {
      assert all[1..] == [];
    } else {
      assert all[1..] == reqs[1..] + [r];
      RunAppend(l, CheckKey(l, s, reqs[0].key, reqs[0].at).0, reqs[1..], r);
    }
  }

  lemma {:induction false} OrderAppend(reqs: seq<Request>, clock: real, r: Request)
    requires InOrder(reqs, clock) && clock <= r.at && forall i | 0 <= i < |reqs| :: reqs[i].at <= r.at
    ensures InOrder(reqs + [r], clock)
    decreases reqs
  {
    var all := reqs + [r];
    if reqs == [] {
      assert all[1..] == [];
    } else {
      assert all[1..] == reqs[1..] + [r];
      OrderAppend(reqs[1..], reqs[0].at, r);
    }
  }

  lemma {:induction false} FillReaches(l: Limits, n: nat)
    requires l.max >= 1 && n <= MAX_RATE_LIMIT_KEYS
    ensures Filled(l, RunAll(l, EMPTY, Fill(n)), n) && InOrder(Fill(n), 0.0)
    decreases n
  {
    if n == 0 {
      assert Fill(0) == [];
    } else {
      var m := n - 1;
      var s := RunAll(l, EMPTY, Fill(m));
      FillReaches(l, m);
      assert Fill(n) == Fill(m) + [Request(Key(m), 0.0)];
      RunAppend(l, EMPTY, Fill(m), Request(Key(m), 0.0));
      OrderAppend(Fill(m), 0.0, Request(Key(m), 0.0));
      FirstCheck(l, s, Key(m), 0.0);
      FilledExtends(l, s, CheckKey(l, s, Key(m), 0.0).0, m);
    }
  }

  lemma FilledExtends(l: Limits, s: Limiter, s': Limiter, m: nat)
    requires Filled(l, s, m) && s'.buckets == s.buckets[Key(m) := Bucket(l.max as real - 1.0, 0.0)]
    requires |s'.buckets| == m + 1
    ensures Filled(l, s', m + 1)
  {
    forall i: nat ensures Key(i) == Key(m) <==> i == m {
      KeysDiffer(i, m);
    }
  }

  lemma FullAfterWindow(max: nat, per: real, b: Bucket)
    requires per > 0.0 && max >= 1 && b == Bucket(max as real - 1.0, 0.0)
    ensures Refilled(PerWindow(max, per), b, per) == max as real
  {
    RefillOverTime(max, per, 0.0, per);
    assert per * (max as real / per) == max as real;
  }

  /** All but one of the keys at time zero, the last one a whole window later. */
  function FillLate(n: nat, per: real): seq<Request>
    requires n >= 1
  {
    Fill(n - 1) + [Request(Key(n - 1), per)]
  }

  lemma LateFillReaches(l: Limits, per: real, n: nat)
    requires l.max >= 1 && 1 <= n <= MAX_RATE_LIMIT_KEYS && per > 0.0
    ensures InOrder(FillLate(n, per), 0.0)
    ensures var before := RunAll(l, EMPTY, Fill(n - 1));
            var s := RunAll(l, EMPTY, FillLate(n, per));
            && Filled(l, before, n - 1) && |s.buckets| == n
            && s.buckets == before.buckets[Key(n - 1) := Bucket(l.max as real - 1.0, per)]
  {
    var m := n - 1;
    FillReaches(l, m);
    RunAppend(l, EMPTY, Fill(m), Request(Key(m), per));
    OrderAppend(Fill(m), 0.0, Request(Key(m), per));
    FirstCheck(l, RunAll(l, EMPTY, Fill(m)), Key(m), per);
  }

  /** A bucket of the late fill other than the last is full again after a window; the last is not. */
  lemma LateFillLevels(max: nat, per: real, before: Limiter, s: Limiter, n: nat, i: nat)
    requires per > 0.0 && max >= 1 && i < n && Filled(PerWindow(max, per), before, n - 1)
    requires s.buckets == before.buckets[Key(n - 1) := Bucket(max as real - 1.0, per)]
    ensures Key(i) in s.buckets
    ensures Refilled(PerWindow(max, per), s.buckets[Key(i)], per)
            == if i < n - 1 then max as real else max as real - 1.0
  {
    KeysDiffer(i, n - 1);
    if i < n - 1 {
      FullAfterWindow(max, per, before.buckets[Key(i)]);
    }
  }

  /**
    The limiter at its cap. A run exists after which every bucket but the last
    has drifted back to full and the last has not; the next new key then drops
    the last one with all the others.
   */
  lemma CapDropsUnfilledBucket(max: nat, per: real, cap: nat, key: string)
    requires per > 0.0 && max >= 1 && cap == MAX_RATE_LIMIT_KEYS && key != "" && key[0] != 'k'
    ensures InOrder(FillLate(cap, per), 0.0)
    ensures var l := PerWindow(max, per);
            var s := RunAll(l, EMPTY, FillLate(cap, per));
            && |s.buckets| == cap && key !in s.buckets
            && (forall i: nat | i < cap ::
                  && Key(i) in s.buckets
                  && Refilled(l, s.buckets[Key(i)], per) == if i < cap - 1 then max as real else max as real - 1.0)
            && CheckKey(l, s, key, per).0.buckets.Keys == {key}
  {
    var l := PerWindow(max, per);
    var reqs := FillLate(cap, per);
    LateFillReaches(l, per, cap);
    var before, s := RunAll(l, EMPTY, Fill(cap - 1)), RunAll(l, EMPTY, reqs);
    forall i: nat | i < cap
      ensures Key(i) in s.buckets
      ensures Refilled(l, s.buckets[Key(i)], per) == if i < cap - 1 then max as real else max as real - 1.0
    {
      LateFillLevels(max, per, before, s, cap, i);
    }
    assert key !in s.buckets by {
      assert forall i: nat | i >= 1 :: Key(i)[0] == 'k';
      assert forall i: nat :: |Key(i)| == i;
    }
    PerWindowIsSound(max, per);
    RunKeepsInv(l, EMPTY, reqs, 0.0);
    NextKeyEmpties(l, s, key, LastTime(reqs, 0.0), per);
  }

  /** A new key at the cap is alone afterwards. */
  lemma NextKeyEmpties(l: Limits, s: Limiter, key: string, clock: real, now: real)
    requires Inv(l, s, clock) && key !in s.buckets && |s.buckets| >= MAX_RATE_LIMIT_KEYS
    ensures CheckKey(l, s, key, now).0.buckets.Keys == {key}
  {
    MakeRoomForgetsAll(l, s, key, clock);
  }

  /* ---- The limiter as it runs ---- */

  class KeyedRateLimiter {
    const max: nat
    const per: real
    var buckets: map<string, Bucket>
    ghost var history: map<string, seq<Check>>
    ghost var clock: real

    ghost predicate Valid() reads this {
      per > 0.0 && Inv(PerWindow(max, per), Limiter(buckets, history), clock)
    }

    constructor (max: nat, per: real, ghost start: real)
      requires per > 0.0
      ensures Valid() && this.max == max && this.per == per && buckets == map[] && clock == start
    {
      this.max, this.per := max, per;
      buckets, history, clock := map[], map[], start;
      new;
      PerWindowIsSound(max, per);
    }

    method RefillBucket(bucket: Bucket, now: real) returns (tokens: real)
      requires per > 0.0
      ensures tokens == Refilled(PerWindow(max, per), bucket, now)
    {
      var rate := max as real / per;
      var elapsed := now - bucket.last;
      tokens := Min(bucket.tokens + elapsed * rate, max as real);
      RefillOverTime(max, per, bucket.last, now);
    }

    /** `created` is the clock read that stamps a new bucket, `now` the one that follows it. */
    method TakeToken(key: string, created: real, now: real) returns (allowed: bool)
      requires per > 0.0 && created <= now
      modifies this`buckets
      ensures (buckets, allowed) == CheckBuckets(PerWindow(max, per), old(buckets), key, now)
    {
      if key !in buckets && |buckets| >= MAX_RATE_LIMIT_KEYS {
        buckets := map k | k in buckets && buckets[k].tokens < max as real :: buckets[k];
        if |buckets| >= MAX_RATE_LIMIT_KEYS {
          buckets := map[];
        }
      }
      var bucket := if key in buckets then buckets[key] else Bucket(max as real, created);
      PerWindowIsSound(max, per);
      var tokens := RefillBucket(bucket, now);
      allowed := tokens >= 1.0;
      if allowed {
        tokens := tokens - 1.0;
      }
      buckets := buckets[key := Bucket(tokens, now)];
    }

    method CheckRequest(key: string, created: real, now: real) returns (allowed: bool)
      requires Valid() && clock <= created <= now
      modifies this
      ensures Valid() && clock == now
      ensures (Limiter(buckets, history), allowed)
              == CheckKey(PerWindow(max, per), Limiter(old(buckets), old(history)), key, now)
      ensures allowed <==> Fits(PerWindow(max, per), if key in old(buckets) then old(history)[key] else [], now)
    {
      ghost var before := Limiter(buckets, history);
      CheckedBucketOk(PerWindow(max, per), before, key, clock, now);
      CheckKeepsInv(PerWindow(max, per), before, key, clock, now);
      allowed := TakeToken(key, created, now);
      history := CheckKey(PerWindow(max, per), before, key, now).0.history;
      clock := now;
    }
  }
}
