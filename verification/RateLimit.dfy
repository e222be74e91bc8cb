/**
 The sliding-window counter: two adjacent fixed-window counters kept in Redis,
 weighted by the elapsed share of the current window.

 Times are whole milliseconds: `MillisecondsSuffice` shows the limiter reads nothing finer.
 */
module RateLimits {

  type Positive = n: nat | n > 0 witness 1

  datatype Scope = ApiKey | Team | Org

  /** Who is being limited: a scope and an identifier inside it. */
  datatype Client = Client(scope: Scope, identifier: string)

  datatype Hit = Hit(who: Client, ms: int)

  // ---------------------------------------------------------------- products

  lemma Products(a: nat, b: nat, c: nat, d: nat)
    requires a <= b && c <= d
    ensures a * c <= b * d
  {
    assert a * c <= b * c;
    assert b * c <= b * d;
  }

  lemma Distributes(a: int, b: int, d: int)
    ensures (a + b) * d == a * d + b * d
  {
  }

  lemma ScaledOrder(a: int, b: int, d: Positive)
    ensures a <= b <==> a * d <= b * d
    ensures (b + 1) * d == b * d + d
  {
    Distributes(b, 1, d);
    if a <= b {
      Distributes(a, b - a, d);
      Products(0, b - a, 0, d);
    } else {
      Distributes(b, a - b, d);
      Products(1, a - b, d, d);
    }
  }

  // ---------------------------------------------------------------- windows

  /** Which fixed window holds `ms`, counting from the epoch. */
  function WindowIndex(ms: int, window: Positive): int {
    ms / 1000 / window
  }

  /** Start, in seconds, of the fixed window that holds `ms`. */
  function WindowStart(ms: int, window: Positive): int {
    WindowIndex(ms, window) * window
  }

  function ElapsedMs(ms: int, window: Positive): int {
    ms - 1000 * WindowStart(ms, window)
  }

  /** First millisecond of window number `k`. */
  function Begin(k: int, window: Positive): int {
    1000 * (k * window)
  }

  lemma NextBegin(k: int, window: Positive)
    ensures Begin(k + 1, window) == Begin(k, window) + 1000 * window
  {
    ScaledOrder(k, k, window);
  }

  lemma BeginOrder(k: int, l: int, window: Positive)
    ensures k <= l <==> Begin(k, window) <= Begin(l, window)
  {
    ScaledOrder(k, l, window);
  }

  lemma ElapsedInWindow(ms: int, window: Positive)
    ensures 0 <= ElapsedMs(ms, window) < 1000 * window
  {
    assert ms == ms / 1000 * 1000 + ms % 1000;
    var s := ms / 1000;
    assert s == s / window * window + s % window;
  }

  /** `ms` lies in window `k` exactly between that window's begin and the next one's. */
  lemma InWindow(ms: int, window: Positive, k: int)
    ensures WindowIndex(ms, window) == k <==> Begin(k, window) <= ms < Begin(k + 1, window)
  {
    var w := WindowIndex(ms, window);
    ElapsedInWindow(ms, window);
    NextBegin(w, window);
    NextBegin(k, window);
    BeginOrder(w + 1, k, window);
    BeginOrder(k + 1, w, window);
  }

  lemma WindowOrder(a: int, b: int, window: Positive)
    requires a <= b
    ensures WindowIndex(a, window) <= WindowIndex(b, window)
  {
    var k, l := WindowIndex(a, window), WindowIndex(b, window);
    InWindow(a, window, k);
    InWindow(b, window, l);
    BeginOrder(l + 1, k, window);
  }

  /** The float clock enters only through its whole milliseconds. */
  lemma MillisecondsSuffice(t: real, window: Positive)
    ensures var ms := (t * 1000.0).Floor;
            var start := t.Floor / window * window;
            && start == WindowStart(ms, window)
            && ((t - start as real) * 1000.0).Floor == ElapsedMs(ms, window)
  {
    var ms := (t * 1000.0).Floor;
    assert t.Floor == ms / 1000 by {
      assert ms as real <= t * 1000.0 < ms as real + 1.0;
      assert t.Floor as real <= t < t.Floor as real + 1.0;
      assert 1000 * t.Floor <= ms < 1000 * (t.Floor + 1) by {
        assert (1000 * t.Floor) as real <= t * 1000.0;
        assert t * 1000.0 < (1000 * (t.Floor + 1)) as real;
      }
    }
    var start := WindowStart(ms, window);
    assert (t - start as real) * 1000.0 == t * 1000.0 - (1000 * start) as real;
  }

  // ---------------------------------------------------------------- the log specification

  /** Hits of `who` at times in [from, to). */
  function CountIn(log: seq<Hit>, who: Client, from: int, to: int): nat {
    if log == [] then 0
    else
      var last := log[|log| - 1];
      CountIn(log[..|log| - 1], who, from, to) + if last.who == who && from <= last.ms < to then 1 else 0
  }

  /** Requests logged in fixed window number `k`. */
  function CountInWindow(log: seq<Hit>, who: Client, k: int, window: Positive): nat {
    CountIn(log, who, Begin(k, window), Begin(k + 1, window))
  }

  /** The effective count at `ms` times the window length in milliseconds, so that it stays an integer. */
  function ScaledCount(log: seq<Hit>, who: Client, window: Positive, ms: int): int {
    var k := WindowIndex(ms, window);
    Scale(CountInWindow(log, who, k - 1, window), CountInWindow(log, who, k, window), window, ElapsedMs(ms, window))
  }

  function Scale(previous: nat, current: nat, window: Positive, elapsedMs: int): int {
    previous * (1000 * window - elapsedMs) + current * (1000 * window)
  }

  function CeilDiv(n: int, d: Positive): int {
    -(-n / d)
  }

  /** The count the script compares with the limit, for the request that ends `log`. */
  function EffectiveCount(log: seq<Hit>, who: Client, window: Positive, ms: int): int {
    CeilDiv(ScaledCount(log, who, window, ms), 1000 * window)
  }

  /** Whether the last request of `log` was let through. */
  predicate LastAdmitted(log: seq<Hit>, window: Positive, limit: int)
    requires log != []
  {
    var last := log[|log| - 1];
    EffectiveCount(log, last.who, window, last.ms) <= limit
  }

  /** Admitted requests of `who` at times in [from, to). */
  function AdmittedIn(log: seq<Hit>, who: Client, window: Positive, limit: int, from: int, to: int): nat {
    if log == [] then 0
    else
      var last := log[|log| - 1];
      AdmittedIn(log[..|log| - 1], who, window, limit, from, to)
      + if last.who == who && from <= last.ms < to && LastAdmitted(log, window, limit) then 1 else 0
  }

  ghost predicate Chronological(log: seq<Hit>) {
    forall i, j :: 0 <= i <= j < |log| ==> log[i].ms <= log[j].ms
  }

  lemma CeilDivBounds(n: int, d: Positive, limit: int)
    ensures CeilDiv(n, d) <= limit <==> n <= limit * d
  {
    var q := -n / d;
    assert -n == q * d + -n % d;
    ScaledOrder(-limit, q, d);
    ScaledOrder(q + 1, -limit, d);
    ScaledOrder(q, q, d);
    assert -limit * d == -(limit * d);
  }

  lemma {:induction false} CountSplits(log: seq<Hit>, who: Client, from: int, mid: int, to: int)
    requires from <= mid <= to
    ensures CountIn(log, who, from, to) == CountIn(log, who, from, mid) + CountIn(log, who, mid, to)
  {
    if log == [] {
    } else {
      CountSplits(log[..|log| - 1], who, from, mid, to);
    }
  }

  lemma {:induction false} AdmittedSplits(log: seq<Hit>, who: Client, window: Positive, limit: int, from: int,
                                          mid: int, to: int)
    requires from <= mid <= to
    ensures AdmittedIn(log, who, window, limit, from, to)
         == AdmittedIn(log, who, window, limit, from, mid) + AdmittedIn(log, who, window, limit, mid, to)
  {
    if log == [] {
    } else {
      AdmittedSplits(log[..|log| - 1], who, window, limit, from, mid, to);
    }
  }

  lemma {:induction false} AdmittedWereCounted(log: seq<Hit>, who: Client, window: Positive, limit: int, from: int,
                                               to: int)
    ensures AdmittedIn(log, who, window, limit, from, to) <= CountIn(log, who, from, to)
  {
    if log == [] {
    } else {
      AdmittedWereCounted(log[..|log| - 1], who, window, limit, from, to);
    }
  }

  /** A suffix outside [from, to) does not change the count. */
  lemma {:induction false} CountPrefix(log: seq<Hit>, n: nat, who: Client, from: int, to: int)
    requires n <= |log|
    requires forall i :: n <= i < |log| && log[i].who == who ==> !(from <= log[i].ms < to)
    ensures CountIn(log[..n], who, from, to) == CountIn(log, who, from, to)
  {
    if n < |log| {
      var front := log[..|log| - 1];
      assert front[..n] == log[..n];
      CountPrefix(front, n, who, from, to);
    } else {
      assert log[..n] == log;
    }
  }

  lemma NothingLogged(log: seq<Hit>, who: Client, from: int, to: int)
    requires forall i :: 0 <= i < |log| && log[i].who == who ==> !(from <= log[i].ms < to)
    ensures CountIn(log, who, from, to) == 0
  {
    CountPrefix(log, 0, who, from, to);
  }

  /** The last admitted request in a range that has one; nothing after it was admitted there. */
  lemma {:induction false} FindLastAdmitted(log: seq<Hit>, who: Client, window: Positive, limit: int, from: int,
                                            to: int)
    returns (i: nat)
    requires AdmittedIn(log, who, window, limit, from, to) > 0
    ensures i < |log| && log[i].who == who && from <= log[i].ms < to
    ensures LastAdmitted(log[..i + 1], window, limit)
    ensures AdmittedIn(log[..i + 1], who, window, limit, from, to) == AdmittedIn(log, who, window, limit, from, to)
  {
    var front := log[..|log| - 1];
    if AdmittedIn(front, who, window, limit, from, to) == AdmittedIn(log, who, window, limit, from, to) {
      i := FindLastAdmitted(front, who, window, limit, from, to);
      assert front[..i + 1] == log[..i + 1];
    } else {
      i := |log| - 1;
      assert log[..i + 1] == log;
    }
  }

  lemma CountWidens(log: seq<Hit>, who: Client, from: int, to: int, k: int, window: Positive)
    requires Begin(k, window) <= from <= to <= Begin(k + 1, window)
    ensures CountIn(log, who, from, to) <= CountInWindow(log, who, k, window)
  {
    CountSplits(log, who, Begin(k, window), from, Begin(k + 1, window));
    CountSplits(log, who, from, to, Begin(k + 1, window));
  }

  /** One fixed window never admits more than the limit. */
  lemma WindowAdmitsAtMostLimit(log: seq<Hit>, who: Client, window: Positive, limit: nat, k: int, from: int, to: int)
    requires Begin(k, window) <= from <= to <= Begin(k + 1, window)
    ensures AdmittedIn(log, who, window, limit, from, to) <= limit
  {
    if AdmittedIn(log, who, window, limit, from, to) > 0 {
      var i := FindLastAdmitted(log, who, window, limit, from, to);
      var seen := log[..i + 1];
      AdmittedWereCounted(seen, who, window, limit, from, to);
      CountWidens(seen, who, from, to, k, window);
      InWindow(log[i].ms, window, k);
      ElapsedInWindow(log[i].ms, window);
      CeilDivBounds(ScaledCount(seen, who, window, log[i].ms), 1000 * window, limit);
      Products(0, CountInWindow(seen, who, k - 1, window), 0, 1000 * window - ElapsedMs(log[i].ms, window));
      ScaledOrder(CountInWindow(seen, who, k, window), limit, 1000 * window);
    }
  }

  /** Every admission late in the previous window takes its weight from the current one. */
  lemma BurstTradeOff(log: seq<Hit>, who: Client, window: Positive, limit: nat, end: int, before: nat, after: nat)
    requires Chronological(log)
    requires var begin := Begin(WindowIndex(end, window), window);
             && before == AdmittedIn(log, who, window, limit, end - 1000 * window, begin)
             && after == AdmittedIn(log, who, window, limit, begin, end + 1)
    ensures before <= limit
    ensures before * (1000 * window - ElapsedMs(end, window)) + after * (1000 * window) <= limit * (1000 * window)
  {
    var length := 1000 * window;
    var k := WindowIndex(end, window);
    var e := ElapsedMs(end, window);
    ElapsedInWindow(end, window);
    NextBegin(k - 1, window);
    NextBegin(k, window);
    WindowAdmitsAtMostLimit(log, who, window, limit, k - 1, end - length, Begin(k, window));
    if after == 0 {
      Products(before, limit, length - e, length);
    } else {
      var i := FindLastAdmitted(log, who, window, limit, Begin(k, window), end + 1);
      AdmittedWereCounted(log, who, window, limit, end - length, Begin(k, window));
      CountWidens(log, who, end - length, Begin(k, window), k - 1, window);
      var previous, current := LateAdmission(log, i, who, window, limit, k, end);
      Products(before, previous, length - e, length - ElapsedMs(log[i].ms, window));
      Products(after, current, length, length);
    }
  }

  /** The counts the script weighed when it let through request `i` of window `k`. */
  lemma LateAdmission(log: seq<Hit>, i: nat, who: Client, window: Positive, limit: nat, k: int, end: int)
    returns (previous: nat, current: nat)
    requires Chronological(log) && i < |log| && log[i].who == who
    requires Begin(k, window) <= log[i].ms <= end < Begin(k + 1, window)
    requires LastAdmitted(log[..i + 1], window, limit)
    ensures previous == CountInWindow(log, who, k - 1, window)
    ensures AdmittedIn(log[..i + 1], who, window, limit, Begin(k, window), end + 1) <= current
    ensures 0 <= ElapsedMs(log[i].ms, window) <= end - Begin(k, window)
    ensures previous * (1000 * window - ElapsedMs(log[i].ms, window)) + current * (1000 * window)
         <= limit * (1000 * window)
  {
    var seen := log[..i + 1];
    InWindow(log[i].ms, window, k);
    ElapsedInWindow(log[i].ms, window);
    previous := CountInWindow(seen, who, k - 1, window);
    current := CountInWindow(seen, who, k, window);
    AdmittedWereCounted(seen, who, window, limit, Begin(k, window), end + 1);
    CountWidens(seen, who, Begin(k, window), end + 1, k, window);
    CountPrefix(log, i + 1, who, Begin(k - 1, window), Begin(k, window));
    CeilDivBounds(ScaledCount(seen, who, window, log[i].ms), 1000 * window, limit);
  }

  /**
   In any window-long interval ending at `end`, a share f into its fixed window, at most
   limit * (1 + f) requests are admitted, although rejected ones are counted too.
   */
  lemma BurstBound(log: seq<Hit>, who: Client, window: Positive, limit: nat, end: int)
    requires Chronological(log)
    ensures var length := 1000 * window;
            var admitted := AdmittedIn(log, who, window, limit, end - length, end + 1);
            && admitted * length <= limit * (length + ElapsedMs(end, window))
            && (limit > 0 ==> admitted < 2 * limit)
            && (ElapsedMs(end, window) == 0 ==> admitted <= limit)
  {
    var length := 1000 * window;
    var begin := Begin(WindowIndex(end, window), window);
    var e := ElapsedMs(end, window);
    ElapsedInWindow(end, window);
    var before := AdmittedIn(log, who, window, limit, end - length, begin);
    var after := AdmittedIn(log, who, window, limit, begin, end + 1);
    AdmittedSplits(log, who, window, limit, end - length, begin, end + 1);
    BurstTradeOff(log, who, window, limit, end, before, after);
    BurstArithmetic(before, after, limit, length, e);
  }

  lemma BurstArithmetic(before: nat, after: nat, limit: nat, length: Positive, e: nat)
    requires before <= limit && e < length
    requires before * (length - e) + after * length <= limit * length
    ensures (before + after) * length <= limit * (length + e)
    ensures limit > 0 ==> before + after < 2 * limit
    ensures e == 0 ==> before + after <= limit
  {
    assert before * (length - e) == before * length - before * e;
    assert (before + after) * length == before * length + after * length;
    assert limit * (length + e) == limit * length + limit * e;
    Products(before, limit, e, e);
    if limit > 0 {
      assert limit * e < limit * length;
      ScaledOrder(2 * limit, before + after, length);
      assert 2 * limit * length == limit * length + limit * length;
    }
    if e == 0 {
      ScaledOrder(before + after, limit, length);
    }
  }

  /** Without new traffic the effective count never grows, inside a window or across boundaries. */
  lemma SilenceNeverHurts(log: seq<Hit>, who: Client, window: Positive, now: int, later: int)
    requires forall i :: 0 <= i < |log| && log[i].who == who ==> log[i].ms <= now
    requires now <= later
    ensures ScaledCount(log, who, window, later) <= ScaledCount(log, who, window, now)
    ensures EffectiveCount(log, who, window, later) <= EffectiveCount(log, who, window, now)
  {
    var k, l := WindowIndex(now, window), WindowIndex(later, window);
    var length := 1000 * window;
    WindowOrder(now, later, window);
    ElapsedInWindow(now, window);
    ElapsedInWindow(later, window);
    var previous := CountInWindow(log, who, k - 1, window);
    var current := CountInWindow(log, who, k, window);
    if k == l {
      Products(previous, previous, length - ElapsedMs(later, window), length - ElapsedMs(now, window));
    } else {
      SilentWindowIsEmpty(log, who, window, now, l);
      if l - 1 > k {
        SilentWindowIsEmpty(log, who, window, now, l - 1);
      }
      Products(current, current, length - ElapsedMs(later, window), length);
      Products(0, previous, 0, length - ElapsedMs(now, window));
    }
    var bound := EffectiveCount(log, who, window, now);
    CeilDivBounds(ScaledCount(log, who, window, now), length, bound);
    CeilDivBounds(ScaledCount(log, who, window, later), length, bound);
  }

  lemma SilentWindowIsEmpty(log: seq<Hit>, who: Client, window: Positive, now: int, k: int)
    requires forall i :: 0 <= i < |log| && log[i].who == who ==> log[i].ms <= now
    requires WindowIndex(now, window) < k
    ensures CountInWindow(log, who, k, window) == 0
  {
    InWindow(now, window, WindowIndex(now, window));
    BeginOrder(WindowIndex(now, window) + 1, k, window);
    NothingLogged(log, who, Begin(k, window), Begin(k + 1, window));
  }

  // ---------------------------------------------------------------- waiting out a rejection

  /** Time of the first hit of `who` in [from, to), the moment its key's expiry was set. */
  function FirstHit(log: seq<Hit>, who: Client, from: int, to: int): (ms: int)
    requires CountIn(log, who, from, to) > 0
    ensures from <= ms < to
  {
    var front := log[..|log| - 1];
    if CountIn(front, who, from, to) > 0 then FirstHit(front, who, from, to) else log[|log| - 1].ms
  }

  /** Redis reports remaining life in seconds, rounded to the nearest. */
  function TtlSeconds(remainingMs: int): int {
    (remainingMs + 500) / 1000
  }

  /** The wait reported to `who` for a hit at `ms`, from the log alone. */
  function RetryAfter(log: seq<Hit>, who: Client, window: Positive, ms: int): int
    requires CountInWindow(log, who, WindowIndex(ms, window), window) > 0
  {
    var k := WindowIndex(ms, window);
    TtlSeconds(FirstHit(log, who, Begin(k, window), Begin(k + 1, window)) + 2000 * window - ms)
  }

  /** The reported wait is at least a window and ends at most 499 ms before the window after next. */
  lemma RetryReachesNextWindow(log: seq<Hit>, who: Client, window: Positive, ms: int)
    requires CountInWindow(log, who, WindowIndex(ms, window), window) > 0
    ensures var k := WindowIndex(ms, window);
            var r := RetryAfter(log, who, window, ms);
            && r >= window
            && Begin(k + 2, window) - 499 <= ms + 1000 * r
            && Begin(k + 2, window) == Begin(k + 1, window) + 1000 * window
  {
    var k := WindowIndex(ms, window);
    InWindow(ms, window, k);
    NextBegin(k, window);
    NextBegin(k + 1, window);
  }

  lemma CountAppend(log: seq<Hit>, hit: Hit, who: Client, from: int, to: int)
    ensures CountIn(log + [hit], who, from, to)
         == CountIn(log, who, from, to) + if hit.who == who && from <= hit.ms < to then 1 else 0
  {
    assert (log + [hit])[..|log|] == log;
  }

  lemma WindowCountAppend(log: seq<Hit>, hit: Hit, who: Client, k: int, window: Positive)
    ensures CountInWindow(log + [hit], who, k, window)
         == CountInWindow(log, who, k, window) + if hit.who == who && WindowIndex(hit.ms, window) == k then 1 else 0
  {
    CountAppend(log, hit, who, Begin(k, window), Begin(k + 1, window));
    InWindow(hit.ms, window, k);
  }

  /** From the window after next on, a silent client starts from scratch. */
  lemma SilentClientStartsAfresh(log: seq<Hit>, who: Client, window: Positive, limit: nat, now: int, later: int)
    requires forall i :: 0 <= i < |log| && log[i].who == who ==> log[i].ms <= now
    requires limit >= 1 && Begin(WindowIndex(now, window) + 2, window) <= later
    ensures LastAdmitted(log + [Hit(who, later)], window, limit)
  {
    var k, l := WindowIndex(now, window), WindowIndex(later, window);
    var next := log + [Hit(who, later)];
    InWindow(later, window, l);
    BeginOrder(l + 1, k + 2, window);
    SilentWindowIsEmpty(log, who, window, now, l);
    SilentWindowIsEmpty(log, who, window, now, l - 1);
    WindowCountAppend(log, Hit(who, later), who, l, window);
    WindowCountAppend(log, Hit(who, later), who, l - 1, window);
    CeilDivBounds(ScaledCount(next, who, window, later), 1000 * window, limit);
    Products(1, limit, 1000 * window, 1000 * window);
  }

  /**
   Whether the requests of `who` counted in the window of its last hit at `seen`, rejected ones included,
   leave room for one more at `later`, once that window is over.
   */
  predicate LeavesRoom(log: seq<Hit>, who: Client, window: Positive, limit: int, seen: int, later: int) {
    var k := WindowIndex(seen, window);
    var shortfall := Begin(k + 2, window) - later;
    shortfall <= 0 || CountInWindow(log, who, k, window) * shortfall <= (limit - 1) * (1000 * window)
  }

  /** A client silent since `seen` is admitted in a later window exactly when its last window leaves room. */
  lemma SilentAdmittedIff(log: seq<Hit>, who: Client, window: Positive, limit: int, seen: int, later: int)
    requires limit >= 1 && Begin(WindowIndex(seen, window) + 1, window) <= later
    requires forall i :: 0 <= i < |log| && log[i].who == who ==> log[i].ms <= seen
    ensures LastAdmitted(log + [Hit(who, later)], window, limit) <==> LeavesRoom(log, who, window, limit, seen, later)
  {
    var k := WindowIndex(seen, window);
    var next := log + [Hit(who, later)];
    if Begin(k + 2, window) <= later {
      SilentClientStartsAfresh(log, who, window, limit, seen, later);
    } else {
      NextBegin(k + 1, window);
      InWindow(later, window, k + 1);
      SilentWindowIsEmpty(log, who, window, seen, k + 1);
      WindowCountAppend(log, Hit(who, later), who, k + 1, window);
      WindowCountAppend(log, Hit(who, later), who, k, window);
      CeilDivBounds(ScaledCount(next, who, window, later), 1000 * window, limit);
      Distributes(limit - 1, 1, 1000 * window);
    }
  }

  /** `wait` is what a check of `who` at `ms` reports when it rejects. */
  ghost predicate Reported(log: seq<Hit>, who: Client, window: Positive, ms: int, wait: int) {
    CountInWindow(log, who, WindowIndex(ms, window), window) > 0 && wait == RetryAfter(log, who, window, ms)
  }

  /** A reported wait, counted from any later moment, always leads out of the window of an earlier hit. */
  lemma WaitLeavesWindow(log: seq<Hit>, who: Client, window: Positive, ms: int, wait: int, seen: int, later: int)
    requires Reported(log, who, window, ms, wait) && seen + 1000 * wait <= later
    ensures Begin(WindowIndex(seen, window) + 1, window) <= later
  {
    RetryReachesNextWindow(log, who, window, ms);
    InWindow(seen, window, WindowIndex(seen, window));
    NextBegin(WindowIndex(seen, window), window);
  }

  /**
   When waiting exactly the reported seconds is enough. The count C includes rejected requests, so
   rounding the wait down can leave the retry just inside the next window, where C still weighs in.
   */
  lemma RetryAdmittedIff(log: seq<Hit>, who: Client, window: Positive, limit: nat, now: int)
    requires limit >= 1
    requires forall i :: 0 <= i < |log| && log[i].who == who ==> log[i].ms <= now
    requires CountInWindow(log, who, WindowIndex(now, window), window) > 0
    ensures var k := WindowIndex(now, window);
            var later := now + 1000 * RetryAfter(log, who, window, now);
            var shortfall := Begin(k + 2, window) - later;
            && shortfall <= 499
            && (LastAdmitted(log + [Hit(who, later)], window, limit) <==>
                || shortfall <= 0
                || CountInWindow(log, who, k, window) * shortfall <= (limit - 1) * (1000 * window))
  {
    var later := now + 1000 * RetryAfter(log, who, window, now);
    RetryReachesNextWindow(log, who, window, now);
    WaitLeavesWindow(log, who, window, now, RetryAfter(log, who, window, now), now, later);
    SilentAdmittedIff(log, who, window, limit, now, later);
  }

  /** One scope's part of a call that is checked for three scopes: who, under which limit, and when. */
  datatype Check = Check(who: Client, limit: int, ms: int)

  function HitOf(c: Check): Hit {
    Hit(c.who, c.ms)
  }

  /** The log after the three checks of one call. */
  function AfterCall(log: seq<Hit>, key: Check, team: Check, org: Check): seq<Hit> {
    log + [HitOf(key)] + [HitOf(team)] + [HitOf(org)]
  }

  /** Every one of the three checks lets the call through. */
  predicate CallAllowed(log: seq<Hit>, key: Check, team: Check, org: Check, window: Positive) {
    && LastAdmitted(log + [HitOf(key)], window, key.limit)
    && LastAdmitted(log + [HitOf(key)] + [HitOf(team)], window, team.limit)
    && LastAdmitted(log + [HitOf(key)] + [HitOf(team)] + [HitOf(org)], window, org.limit)
  }

  /** The wait that one of the three checks of the call reports. */
  ghost predicate WaitOfCall(log: seq<Hit>, key: Check, team: Check, org: Check, window: Positive, wait: int) {
    || Reported(log + [HitOf(key)], key.who, window, key.ms, wait)
    || Reported(log + [HitOf(key)] + [HitOf(team)], team.who, window, team.ms, wait)
    || Reported(log + [HitOf(key)] + [HitOf(team)] + [HitOf(org)], org.who, window, org.ms, wait)
  }

  /** The same scope checked again at `later`. */
  predicate Again(first: Check, second: Check, wait: int) {
    second.who == first.who && second.limit == first.limit && first.ms + 1000 * wait <= second.ms
  }

  ghost predicate NotSince(log: seq<Hit>, who: Client, seen: int) {
    forall i :: 0 <= i < |log| && log[i].who == who ==> log[i].ms <= seen
  }

  lemma CallNotSince(log: seq<Hit>, key: Check, team: Check, org: Check, who: Client, seen: int)
    requires NotSince(log, who, seen) && key.ms <= seen && team.ms <= seen && org.ms <= seen
    ensures NotSince(AfterCall(log, key, team, org), who, seen)
  {
  }

  lemma CountIgnoresOthers(log: seq<Hit>, hit: Hit, who: Client, window: Positive, limit: int, seen: int, later: int)
    requires hit.who != who
    ensures LeavesRoom(log + [hit], who, window, limit, seen, later) <==>
              LeavesRoom(log, who, window, limit, seen, later)
  {
    WindowCountAppend(log, hit, who, WindowIndex(seen, window), window);
  }

  /**
   A whole call, rejected or not, and its retry after a wait that the call reported for any of its scopes,
   with nothing from the three clients between: the retry is allowed exactly when every scope's last window
   leaves room, not only the window of the scope the wait was reported for.
   */
  lemma CallRetryAllowedIff(log: seq<Hit>, rest: seq<Hit>, window: Positive, wait: int,
                            key: Check, team: Check, org: Check, key2: Check, team2: Check, org2: Check)
    requires key.who.scope == ApiKey && team.who.scope == Team && org.who.scope == Org
    requires key.limit >= 1 && team.limit >= 1 && org.limit >= 1
    requires WaitOfCall(log, key, team, org, window, wait)
    requires Again(key, key2, wait) && Again(team, team2, wait) && Again(org, org2, wait)
    requires var before := AfterCall(log, key, team, org) + rest;
             && NotSince(before, key.who, key.ms)
             && NotSince(before, team.who, team.ms)
             && NotSince(before, org.who, org.ms)
    ensures var before := AfterCall(log, key, team, org) + rest;
            CallAllowed(before, key2, team2, org2, window) <==>
              && LeavesRoom(before, key.who, window, key.limit, key.ms, key2.ms)
              && LeavesRoom(before, team.who, window, team.limit, team.ms, team2.ms)
              && LeavesRoom(before, org.who, window, org.limit, org.ms, org2.ms)
  {
    var before := AfterCall(log, key, team, org) + rest;
    var afterKey := before + [HitOf(key2)];
    var afterTeam := afterKey + [HitOf(team2)];
    CallWaitLeavesWindow(log, window, wait, key, team, org, key.ms, key2.ms);
    CallWaitLeavesWindow(log, window, wait, key, team, org, team.ms, team2.ms);
    CallWaitLeavesWindow(log, window, wait, key, team, org, org.ms, org2.ms);
    SilentAdmittedIff(before, key.who, window, key.limit, key.ms, key2.ms);
    SilentAdmittedIff(afterKey, team.who, window, team.limit, team.ms, team2.ms);
    SilentAdmittedIff(afterTeam, org.who, window, org.limit, org.ms, org2.ms);
    CountIgnoresOthers(before, HitOf(key2), team.who, window, team.limit, team.ms, team2.ms);
    CountIgnoresOthers(before, HitOf(key2), org.who, window, org.limit, org.ms, org2.ms);
    CountIgnoresOthers(afterKey, HitOf(team2), org.who, window, org.limit, org.ms, org2.ms);
  }

  lemma CallWaitLeavesWindow(log: seq<Hit>, window: Positive, wait: int, key: Check, team: Check, org: Check,
                             seen: int, later: int)
    requires WaitOfCall(log, key, team, org, window, wait) && seen + 1000 * wait <= later
    ensures Begin(WindowIndex(seen, window) + 1, window) <= later
  {
    if Reported(log + [HitOf(key)], key.who, window, key.ms, wait) {
      WaitLeavesWindow(log + [HitOf(key)], key.who, window, key.ms, wait, seen, later);
    } else if Reported(log + [HitOf(key)] + [HitOf(team)], team.who, window, team.ms, wait) {
      WaitLeavesWindow(log + [HitOf(key)] + [HitOf(team)], team.who, window, team.ms, wait, seen, later);
    } else {
      WaitLeavesWindow(log + [HitOf(key)] + [HitOf(team)] + [HitOf(org)], org.who, window, org.ms, wait, seen, later);
    }
  }

  /**
   One second more always suffices, also for the other scopes of the same call: if the windows are
   equal and `who` was last seen in the window in which `blocked` was rejected, `who` is admitted too.
   */
  lemma RetryPlusOneSecondSuffices(log: seq<Hit>, rest: seq<Hit>, blocked: Client, who: Client,
                                   window: Positive, limit: nat, now: int, seen: int, later: int)
    requires limit >= 1
    requires CountInWindow(log, blocked, WindowIndex(now, window), window) > 0
    requires WindowIndex(seen, window) == WindowIndex(now, window)
    requires forall i :: 0 <= i < |log + rest| && (log + rest)[i].who == who ==> (log + rest)[i].ms <= seen
    requires later >= now + 1000 * (RetryAfter(log, blocked, window, now) + 1)
    ensures LastAdmitted(log + rest + [Hit(who, later)], window, limit)
  {
    RetryReachesNextWindow(log, blocked, window, now);
    SilentClientStartsAfresh(log + rest, who, window, limit, seen, later);
  }

  /** With a limit of 1 per second, hits at 0 ms and 501 ms: told to wait 1 s, rejected again after 1 s. */
  lemma RetryAfterCanBeTooShort(who: Client)
    ensures var log := [Hit(who, 0), Hit(who, 501)];
            && !LastAdmitted(log, 1, 1)
            && CountInWindow(log, who, 0, 1) == 2
            && RetryAfter(log, who, 1, 501) == 1
            && !LastAdmitted(log + [Hit(who, 1501)], 1, 1)
  {
    var log := [Hit(who, 0), Hit(who, 501)];
    assert log[..1] == [Hit(who, 0)] && log[..1][..0] == [];
    assert CountIn(log[..1], who, 0, 1000) == 1;
    assert CountIn(log, who, 0, 1000) == 2;
    NothingLogged(log, who, -1000, 0);
    CeilDivBounds(ScaledCount(log, who, 1, 501), 1000, 1);
    assert FirstHit(log, who, 0, 1000) == 0;
    RetryAdmittedIff(log, who, 1, 1, 501);
  }

  lemma FirstHitAppend(log: seq<Hit>, hit: Hit, who: Client, from: int, to: int)
    requires CountIn(log + [hit], who, from, to) > 0
    ensures FirstHit(log + [hit], who, from, to)
         == if CountIn(log, who, from, to) > 0 then FirstHit(log, who, from, to) else hit.ms
  {
    assert (log + [hit])[..|log|] == log;
  }

  /** `n` hits of `who` in the first second, the first of them at once, and none before. */
  ghost predicate Burst(log: seq<Hit>, who: Client, n: nat) {
    && CountIn(log, who, 0, 1000) == n && CountIn(log, who, -1000, 0) == 0
    && (n > 0 ==> FirstHit(log, who, 0, 1000) == 0)
  }

  lemma HitInBurst(log: seq<Hit>, hit: Hit, who: Client, n: nat)
    requires Burst(log, who, n) && 0 <= hit.ms < 1000 && (n == 0 ==> hit.ms == 0)
    ensures Burst(log + [hit], who, if hit.who == who then n + 1 else n)
  {
    CountAppend(log, hit, who, 0, 1000);
    CountAppend(log, hit, who, -1000, 0);
    if CountIn(log + [hit], who, 0, 1000) > 0 {
      FirstHitAppend(log, hit, who, 0, 1000);
    }
  }

  lemma CallInBurst(log: seq<Hit>, key: Check, team: Check, org: Check, who: Client, n: nat)
    requires key.who != team.who && key.who != org.who && team.who != org.who && who in {key.who, team.who, org.who}
    requires key.ms == team.ms == org.ms && 0 <= key.ms < 1000
    requires Burst(log, who, n) && (n == 0 ==> key.ms == 0)
    ensures Burst(log + [HitOf(key)], who, if who == key.who then n + 1 else n)
    ensures Burst(log + [HitOf(key)] + [HitOf(team)], who, if who == org.who then n else n + 1)
    ensures Burst(AfterCall(log, key, team, org), who, n + 1)
  {
    HitInBurst(log, HitOf(key), who, n);
    HitInBurst(log + [HitOf(key)], HitOf(team), who, if who == key.who then n + 1 else n);
    HitInBurst(log + [HitOf(key)] + [HitOf(team)], HitOf(org), who, if who == org.who then n else n + 1);
  }

  /** What the check that ends a burst at 501 ms answers. */
  lemma BurstAnswer(log: seq<Hit>, who: Client, limit: int, n: nat)
    requires log != [] && log[|log| - 1] == Hit(who, 501) && Burst(log, who, n) && n > 0
    ensures CountInWindow(log, who, WindowIndex(501, 1), 1) == n
    ensures LastAdmitted(log, 1, limit) <==> n <= limit
    ensures RetryAfter(log, who, 1, 501) == 1
  {
    CeilDivBounds(ScaledCount(log, who, 1, 501), 1000, limit);
  }

  /** A key limited to 3, a team to 1 and an organization to 10 requests per second. */
  function KeyCheck(ms: int): Check {
    Check(Client(ApiKey, "key"), 3, ms)
  }

  function TeamCheck(ms: int): Check {
    Check(Client(Team, "team"), 1, ms)
  }

  function OrgCheck(ms: int): Check {
    Check(Client(Org, "org"), 10, ms)
  }

  function CallAt(log: seq<Hit>, ms: int): seq<Hit> {
    AfterCall(log, KeyCheck(ms), TeamCheck(ms), OrgCheck(ms))
  }

  lemma BurstOfThree(who: Client)
    requires who in {KeyCheck(0).who, TeamCheck(0).who, OrgCheck(0).who}
    ensures Burst(CallAt(CallAt(CallAt([], 0), 1), 2), who, 3)
  {
    CallInBurst([], KeyCheck(0), TeamCheck(0), OrgCheck(0), who, 0);
    CallInBurst(CallAt([], 0), KeyCheck(1), TeamCheck(1), OrgCheck(1), who, 1);
    CallInBurst(CallAt(CallAt([], 0), 1), KeyCheck(2), TeamCheck(2), OrgCheck(2), who, 2);
  }

  /** The log after calls at 0, 1 and 2 ms. */
  function ThreeCalls(): seq<Hit> {
    CallAt(CallAt(CallAt([], 0), 1), 2)
  }

  /** The call at 501 ms is rejected for key and team, and both are told to wait 1 s. */
  lemma FourthCallIsRejected()
    ensures var atKey := ThreeCalls() + [HitOf(KeyCheck(501))];
            var atTeam := atKey + [HitOf(TeamCheck(501))];
            && !LastAdmitted(atKey, 1, 3) && Reported(atKey, KeyCheck(501).who, 1, 501, 1)
            && !LastAdmitted(atTeam, 1, 1) && Reported(atTeam, TeamCheck(501).who, 1, 501, 1)
  {
    var key, team, org := KeyCheck(501), TeamCheck(501), OrgCheck(501);
    var atKey := ThreeCalls() + [HitOf(key)];
    BurstOfThree(key.who);
    BurstOfThree(team.who);
    CallInBurst(ThreeCalls(), key, team, org, key.who, 3);
    CallInBurst(ThreeCalls(), key, team, org, team.who, 3);
    BurstAnswer(atKey, key.who, 3, 4);
    BurstAnswer(atKey + [HitOf(team)], team.who, 1, 4);
  }

  /** After exactly the reported second the key has room again, but the team still rejects the retry. */
  lemma AnotherScopeCanStillReject()
    ensures var after := CallAt(ThreeCalls(), 501);
            && WaitOfCall(ThreeCalls(), KeyCheck(501), TeamCheck(501), OrgCheck(501), 1, 1)
            && LastAdmitted(after + [HitOf(KeyCheck(1501))], 1, 3)
            && !CallAllowed(after, KeyCheck(1501), TeamCheck(1501), OrgCheck(1501), 1)
  {
    var before, after := ThreeCalls(), CallAt(ThreeCalls(), 501);
    var key, team, org := KeyCheck(501), TeamCheck(501), OrgCheck(501);
    FourthCallIsRejected();
    BurstOfThree(key.who);
    BurstOfThree(team.who);
    CallInBurst(before, key, team, org, key.who, 3);
    CallInBurst(before, key, team, org, team.who, 3);
    forall who: Client ensures NotSince(after, who, 501) {
      CallNotSince([], KeyCheck(0), TeamCheck(0), OrgCheck(0), who, 501);
      CallNotSince(CallAt([], 0), KeyCheck(1), TeamCheck(1), OrgCheck(1), who, 501);
      CallNotSince(CallAt(CallAt([], 0), 1), KeyCheck(2), TeamCheck(2), OrgCheck(2), who, 501);
      CallNotSince(before, key, team, org, who, 501);
    }
    assert after + [] == after;
    CallRetryAllowedIff(before, [], 1, 1, key, team, org, KeyCheck(1501), TeamCheck(1501), OrgCheck(1501));
    SilentAdmittedIff(after, key.who, 1, 3, 501, 1501);
  }

  // ---------------------------------------------------------------- what the figures mean

  /** Places of the log that hold a hit of `who` in window `k`. */
  ghost function HitsInWindow(log: seq<Hit>, who: Client, k: int, window: Positive): set<int> {
    set i | 0 <= i < |log| && log[i].who == who && WindowIndex(log[i].ms, window) == k
  }

  lemma {:induction false} CountIsCardinality(log: seq<Hit>, who: Client, k: int, window: Positive)
    ensures CountInWindow(log, who, k, window) == |HitsInWindow(log, who, k, window)|
  {
    if log == [] {
      assert HitsInWindow(log, who, k, window) == {};
    } else {
      var n := |log| - 1;
      var front, last := log[..n], log[n];
      CountIsCardinality(front, who, k, window);
      WindowCountAppend(front, last, who, k, window);
      assert front + [last] == log;
      var hits, before := HitsInWindow(log, who, k, window), HitsInWindow(front, who, k, window);
      if last.who == who && WindowIndex(last.ms, window) == k {
        assert hits == before + {n};
      } else {
        assert hits == before;
      }
    }
  }

  /** Hit number `i` is an admitted one of `who` in [from, to). */
  predicate AdmittedAt(log: seq<Hit>, i: nat, who: Client, window: Positive, limit: int, from: int, to: int)
    requires i < |log|
  {
    log[i].who == who && from <= log[i].ms < to && LastAdmitted(log[..i + 1], window, limit)
  }

  ghost function AdmittedHits(log: seq<Hit>, who: Client, window: Positive, limit: int, from: int, to: int): set<int> {
    set i | 0 <= i < |log| && AdmittedAt(log, i, who, window, limit, from, to)
  }

  lemma AdmittedAtPrefix(log: seq<Hit>, i: nat, who: Client, window: Positive, limit: int, from: int, to: int)
    requires i + 1 < |log|
    ensures AdmittedAt(log, i, who, window, limit, from, to)
       <==> AdmittedAt(log[..|log| - 1], i, who, window, limit, from, to)
  {
    assert log[..|log| - 1][..i + 1] == log[..i + 1];
  }

  lemma AdmittedAtLast(log: seq<Hit>, who: Client, window: Positive, limit: int, from: int, to: int)
    requires log != []
    ensures AdmittedIn(log, who, window, limit, from, to) == AdmittedIn(log[..|log| - 1], who, window, limit, from, to)
              + if AdmittedAt(log, |log| - 1, who, window, limit, from, to) then 1 else 0
  {
    assert log[..|log|] == log;
  }

  /** How many of the first `n` places `p` holds at. */
  function CountWhere(n: nat, p: int -> bool): nat {
    if n == 0 then 0 else CountWhere(n - 1, p) + if p(n - 1) then 1 else 0
  }

  lemma {:induction false} CountWhereIsCardinality(n: nat, p: int -> bool)
    ensures CountWhere(n, p) == |set i | 0 <= i < n && p(i)|
  {
    if n == 0 {
      assert (set i | 0 <= i < n && p(i)) == {};
    } else {
      CountWhereIsCardinality(n - 1, p);
      var before := set i | 0 <= i < n - 1 && p(i);
      assert (set i | 0 <= i < n && p(i)) == if p(n - 1) then before + {n - 1} else before;
    }
  }

  lemma {:induction false} CountWhereSame(n: nat, p: int -> bool, q: int -> bool)
    requires forall i :: 0 <= i < n ==> p(i) == q(i)
    ensures CountWhere(n, p) == CountWhere(n, q)
  {
    if n == 0 {
    } else {
      CountWhereSame(n - 1, p, q);
    }
  }

  function AdmittedPlaces(log: seq<Hit>, who: Client, window: Positive, limit: int, from: int, to: int): int -> bool {
    i => 0 <= i < |log| && AdmittedAt(log, i, who, window, limit, from, to)
  }

  lemma {:induction false} AdmittedIsCount(log: seq<Hit>, who: Client, window: Positive, limit: int, from: int, to: int)
    ensures AdmittedIn(log, who, window, limit, from, to)
         == CountWhere(|log|, AdmittedPlaces(log, who, window, limit, from, to))
  {
    if log == [] {
    } else {
      var n := |log| - 1;
      var p := AdmittedPlaces(log, who, window, limit, from, to);
      var q := AdmittedPlaces(log[..n], who, window, limit, from, to);
      AdmittedIsCount(log[..n], who, window, limit, from, to);
      AdmittedAtLast(log, who, window, limit, from, to);
      forall i | 0 <= i < n ensures p(i) == q(i) {
        AdmittedAtPrefix(log, i, who, window, limit, from, to);
      }
      CountWhereSame(n, p, q);
    }
  }

  /** The admitted are counted one by one, each judged by the log as it was when it came. */
  lemma AdmittedIsCardinality(log: seq<Hit>, who: Client, window: Positive, limit: int, from: int, to: int)
    ensures AdmittedIn(log, who, window, limit, from, to) == |AdmittedHits(log, who, window, limit, from, to)|
  {
    var p := AdmittedPlaces(log, who, window, limit, from, to);
    AdmittedIsCount(log, who, window, limit, from, to);
    CountWhereIsCardinality(|log|, p);
    assert (set i | 0 <= i < |log| && p(i)) == AdmittedHits(log, who, window, limit, from, to);
  }

  /**
   The sliding count, times the window's milliseconds: what is logged in this window counts in full, and
   what is logged in the previous one by the share of this window still to come.
   */
  lemma ScaledCountMeans(log: seq<Hit>, who: Client, window: Positive, ms: int)
    ensures var k := ms / 1000 / window;
            var toCome := 1000 * ((k + 1) * window) - ms;
            && 0 < toCome <= 1000 * window
            && ScaledCount(log, who, window, ms)
               == |HitsInWindow(log, who, k, window)| * (1000 * window)
                  + |HitsInWindow(log, who, k - 1, window)| * toCome
  {
    var k := WindowIndex(ms, window);
    CountIsCardinality(log, who, k, window);
    CountIsCardinality(log, who, k - 1, window);
    ElapsedInWindow(ms, window);
    Distributes(k, 1, window);
  }

  /** The count compared with the limit is the sliding count rounded up; the last hit is admitted if it is not above. */
  lemma EffectiveCountMeans(log: seq<Hit>, who: Client, window: Positive, ms: int, limit: int)
    ensures var count, scaled := EffectiveCount(log, who, window, ms), ScaledCount(log, who, window, ms);
            && (count - 1) * (1000 * window) < scaled <= count * (1000 * window)
            && (count <= limit <==> scaled <= limit * (1000 * window))
    ensures log != [] && log[|log| - 1] == Hit(who, ms) ==>
              (LastAdmitted(log, window, limit) <==> ScaledCount(log, who, window, ms) <= limit * (1000 * window))
  {
    var count, scaled := EffectiveCount(log, who, window, ms), ScaledCount(log, who, window, ms);
    CeilDivBounds(scaled, 1000 * window, count);
    CeilDivBounds(scaled, 1000 * window, count - 1);
    CeilDivBounds(scaled, 1000 * window, limit);
  }

  /** The first hit is the earliest logged of those counted. */
  lemma {:induction false} FirstHitMeans(log: seq<Hit>, who: Client, from: int, to: int)
    requires CountIn(log, who, from, to) > 0
    ensures exists i :: 0 <= i < |log| && log[i] == Hit(who, FirstHit(log, who, from, to))
              && forall j :: 0 <= j < i && log[j].who == who ==> !(from <= log[j].ms < to)
  {
    var front := log[..|log| - 1];
    if CountIn(front, who, from, to) > 0 {
      FirstHitMeans(front, who, from, to);
      var i :| 0 <= i < |front| && front[i] == Hit(who, FirstHit(front, who, from, to))
        && forall j :: 0 <= j < i && front[j].who == who ==> !(from <= front[j].ms < to);
      assert log[i] == front[i];
      assert forall j :: 0 <= j < i ==> log[j] == front[j];
    } else {
      assert log[|front|] == Hit(who, FirstHit(log, who, from, to));
      NoneCounted(front, who, from, to);
      assert forall j :: 0 <= j < |front| ==> log[j] == front[j];
    }
  }

  lemma {:induction false} NoneCounted(log: seq<Hit>, who: Client, from: int, to: int)
    requires CountIn(log, who, from, to) == 0
    ensures forall j :: 0 <= j < |log| && log[j].who == who ==> !(from <= log[j].ms < to)
  {
    if log == [] {
    } else {
      NoneCounted(log[..|log| - 1], who, from, to);
      assert forall j :: 0 <= j < |log| - 1 ==> log[j] == log[..|log| - 1][j];
    }
  }

  /** The reported wait is, within half a second, what the counter has still to live: two windows from its first hit. */
  lemma RetryAfterMeans(log: seq<Hit>, who: Client, window: Positive, ms: int)
    requires CountInWindow(log, who, WindowIndex(ms, window), window) > 0
    ensures var k := WindowIndex(ms, window);
            var left := FirstHit(log, who, Begin(k, window), Begin(k + 1, window)) + 2000 * window - ms;
            left - 500 < 1000 * RetryAfter(log, who, window, ms) <= left + 500
  {
  }

  /** An answer read off the log: the rounded count, what is left of the limit, and a wait only with a rejection. */
  lemma ScopeResultMeans(log: seq<Hit>, who: Client, limit: int, window: Positive, now: int)
    requires CountInWindow(log, who, WindowIndex(now, window), window) > 0
    ensures var r, scaled := ScopeResult(log, who, limit, window, now), ScaledCount(log, who, window, now);
            && r.scope == who.scope && r.limit == limit
            && (r.currentCount - 1) * (1000 * window) < scaled <= r.currentCount * (1000 * window)
            && (r.allowed <==> r.currentCount <= limit)
            && (r.allowed ==> r.remaining == limit - r.currentCount && r.retryAfterSeconds == 0)
            && (!r.allowed ==> r.remaining == 0 && r.retryAfterSeconds == RetryAfter(log, who, window, now))
  {
    EffectiveCountMeans(log, who, window, now, limit);
  }

  // ---------------------------------------------------------------- the Redis store

  /** `ratelimit:<scope>:<identifier>:<window_start>` */
  datatype Key = Key(who: Client, start: int)

  datatype Counter = Counter(count: nat, expiresAt: int)

  /** The part of Redis the script touches. An expired key behaves as an absent one. */
  class RedisStore {
    var counters: map<Key, Counter>

    constructor ()
      ensures counters == map[]
    {
      counters := map[];
    }

    predicate Live(key: Key, now: int)
      reads this
    {
      key in counters && now < counters[key].expiresAt
    }

    function Get(key: Key, now: int): nat
      reads this
    {
      if Live(key, now) then counters[key].count else 0
    }

    /** The Lua script, one atomic step: INCR, EXPIRE on the first hit, GET, weigh, TTL. */
    method Eval(current: Key, previous: Key, window: Positive, elapsedMs: int, now: int)
      returns (effective: int, ttl: int)
      requires current != previous
      modifies this
      ensures counters == old(counters)[current := Counter(old(Get(current, now)) + 1,
                                                  if old(Live(current, now)) then old(counters[current].expiresAt)
                                                  else now + 2000 * window)]
      ensures effective == CeilDiv(Scale(old(Get(previous, now)), old(Get(current, now)) + 1, window, elapsedMs),
                                   1000 * window)
      ensures var left := TtlSeconds(counters[current].expiresAt - now);
              ttl == if left < 0 then window else left
    {
      var count := Get(current, now) + 1;
      var expiresAt := if Live(current, now) then counters[current].expiresAt else now + 2000 * window;
      counters := counters[current := Counter(count, expiresAt)];
      effective := CeilDiv(Scale(Get(previous, now), count, window, elapsedMs), 1000 * window);
      ttl := TtlSeconds(expiresAt - now);
      if ttl < 0 {
        ttl := window;
      }
    }
  }

  // ---------------------------------------------------------------- the limiter

  datatype RateLimitResult = RateLimitResult(
    allowed: bool,
    scope: Scope,
    limit: int,
    currentCount: int,
    remaining: int,
    retryAfterSeconds: int)

  datatype RateLimitOutcome = RateLimitOutcome(
    allowed: bool,
    binding: RateLimitResult,
    key: RateLimitResult,
    team: RateLimitResult,
    org: RateLimitResult)

  /**
   The counter of window `k` holds the true number of requests logged in it, and lives until
   two windows after the first of them; a window without a counter has no requests.
   */
  ghost predicate AgreesAt(counters: map<Key, Counter>, log: seq<Hit>, w: Positive, who: Client, k: int) {
    var n := CountInWindow(log, who, k, w);
    var key := Key(who, k * w);
    if key in counters then
      n > 0 && counters[key] == Counter(n, FirstHit(log, who, Begin(k, w), Begin(k + 1, w)) + 2000 * w)
    else n == 0
  }

  ghost predicate Agrees(counters: map<Key, Counter>, log: seq<Hit>, window: Scope -> Positive) {
    forall who: Client, k: int :: AgreesAt(counters, log, window(who.scope), who, k)
  }

  /** The result `CheckScope` owes for the request that ends `log`. */
  function ScopeResult(log: seq<Hit>, who: Client, limit: int, window: Positive, now: int): RateLimitResult
    requires CountInWindow(log, who, WindowIndex(now, window), window) > 0
  {
    var count := EffectiveCount(log, who, window, now);
    RateLimitResult(count <= limit, who.scope, limit, count,
                    if limit - count > 0 then limit - count else 0,
                    if count <= limit then 0 else RetryAfter(log, who, window, now))
  }

  lemma KeysDiffer(who: Client, k: int, who': Client, k': int, window: Scope -> Positive)
    ensures Key(who, k * window(who.scope)) == Key(who', k' * window(who'.scope)) <==> who == who' && k == k'
  {
    if who == who' {
      ScaledOrder(k, k', window(who.scope));
      ScaledOrder(k', k, window(who.scope));
    }
  }

  /** Neither counter the script reads has expired while it is still needed. */
  lemma ExpiryLosesNothing(counters: map<Key, Counter>, log: seq<Hit>, w: Positive, who: Client, now: int, k: int)
    requires AgreesAt(counters, log, w, who, k)
    requires WindowIndex(now, w) - 1 <= k <= WindowIndex(now, w)
    ensures var key := Key(who, k * w);
            && (key in counters ==> now < counters[key].expiresAt)
            && (if key in counters then counters[key].count else 0) == CountInWindow(log, who, k, w)
  {
    InWindow(now, w, WindowIndex(now, w));
    NextBegin(k, w);
    NextBegin(k + 1, w);
  }

  /** The store after one more hit. */
  function Bump(counters: map<Key, Counter>, hit: Hit, w: Positive): map<Key, Counter> {
    var key := Key(hit.who, WindowIndex(hit.ms, w) * w);
    counters[key := if key in counters then counters[key].(count := counters[key].count + 1)
                    else Counter(1, hit.ms + 2000 * w)]
  }

  lemma BumpAt(counters: map<Key, Counter>, log: seq<Hit>, window: Scope -> Positive, hit: Hit, who: Client, k: int)
    requires AgreesAt(counters, log, window(who.scope), who, k)
    ensures AgreesAt(Bump(counters, hit, window(hit.who.scope)), log + [hit], window(who.scope), who, k)
  {
    var w := window(who.scope);
    WindowCountAppend(log, hit, who, k, w);
    assert (log + [hit])[..|log|] == log;
    KeysDiffer(hit.who, WindowIndex(hit.ms, window(hit.who.scope)), who, k, window);
  }

  lemma BumpAgrees(counters: map<Key, Counter>, log: seq<Hit>, window: Scope -> Positive, hit: Hit)
    requires Agrees(counters, log, window)
    ensures Agrees(Bump(counters, hit, window(hit.who.scope)), log + [hit], window)
  {
    forall who: Client, k: int
      ensures AgreesAt(Bump(counters, hit, window(hit.who.scope)), log + [hit], window(who.scope), who, k)
    {
      assert AgreesAt(counters, log, window(who.scope), who, k);
      BumpAt(counters, log, window, hit, who, k);
    }
  }

  /** What the script computes is what the log specifies. */
  lemma ScriptMatchesLog(counters: map<Key, Counter>, log: seq<Hit>, window: Scope -> Positive, who: Client, now: int)
    requires Agrees(counters, log, window)
    ensures var w := window(who.scope);
            var k := WindowIndex(now, w);
            var current, previous := Key(who, k * w), Key(who, (k - 1) * w);
            var next := log + [Hit(who, now)];
            && current != previous
            && (forall key :: key in {current, previous} && key in counters ==> now < counters[key].expiresAt)
            && CountInWindow(next, who, k, w) > 0
            && EffectiveCount(next, who, w, now) == CeilDiv(Scale(
                 if previous in counters then counters[previous].count else 0,
                 if current in counters then counters[current].count + 1 else 1, w, ElapsedMs(now, w)), 1000 * w)
            && RetryAfter(next, who, w, now) == TtlSeconds(Bump(counters, Hit(who, now), w)[current].expiresAt - now)
  {
    var w := window(who.scope);
    var k := WindowIndex(now, w);
    KeysDiffer(who, k, who, k - 1, window);
    assert AgreesAt(counters, log, w, who, k) && AgreesAt(counters, log, w, who, k - 1);
    ExpiryLosesNothing(counters, log, w, who, now, k);
    ExpiryLosesNothing(counters, log, w, who, now, k - 1);
    WindowCountAppend(log, Hit(who, now), who, k, w);
    WindowCountAppend(log, Hit(who, now), who, k - 1, w);
    BumpAt(counters, log, window, Hit(who, now), who, k);
  }

  class RateLimiter {
    const redis: RedisStore?
    const window: Scope -> Positive
    /** Every request counted so far. */
    ghost var log: seq<Hit>

    ghost predicate Valid()
      reads this, redis
    {
      && Chronological(log)
      && (redis != null ==> Agrees(redis.counters, log, window))
    }

    /** No request was logged after `now`. */
    ghost predicate UpTo(now: int)
      reads this
    {
      forall i :: 0 <= i < |log| ==> log[i].ms <= now
    }

    constructor (redis: RedisStore?, window: Scope -> Positive)
      requires redis != null ==> redis.counters == map[]
      ensures Valid() && this.redis == redis && this.window == window && log == []
    {
      this.redis, this.window := redis, window;
      log := [];
      new;
      if redis != null {
        forall who: Client, k: int ensures AgreesAt(redis.counters, [], window(who.scope), who, k) {
        }
      }
    }

    method CheckScope(who: Client, limit: int, now: int) returns (result: RateLimitResult)
      requires Valid() && UpTo(now)
      modifies this, redis
      ensures Valid() && UpTo(now)
      ensures redis == null ==> result == RateLimitResult(true, who.scope, limit, 0, limit, 0) && log == old(log)
      ensures redis != null ==>
                && log == old(log) + [Hit(who, now)]
                && CountInWindow(log, who, WindowIndex(now, window(who.scope)), window(who.scope)) > 0
                && result == ScopeResult(log, who, limit, window(who.scope), now)
                && var scaled, length := ScaledCount(log, who, window(who.scope), now), 1000 * window(who.scope);
                && (result.currentCount - 1) * length < scaled <= result.currentCount * length
                && (if result.currentCount <= limit then
                      result.allowed && result.remaining == limit - result.currentCount && result.retryAfterSeconds == 0
                    else !result.allowed && result.remaining == 0)
                && (result.allowed <==> LastAdmitted(log, window(who.scope), limit))
    {
      if redis == null {
        return RateLimitResult(true, who.scope, limit, 0, limit, 0);
      }
      var w := window(who.scope);
      var k := WindowIndex(now, w);
      var current, previous := Key(who, k * w), Key(who, (k - 1) * w);
      ScriptMatchesLog(redis.counters, log, window, who, now);
      BumpAgrees(redis.counters, log, window, Hit(who, now));
      RetryReachesNextWindow(log + [Hit(who, now)], who, w, now);
      label before:
      var count, ttl := redis.Eval(current, previous, w, ElapsedMs(now, w), now);
      assert redis.counters == Bump(old@before(redis.counters), Hit(who, now), w);
      log := log + [Hit(who, now)];
      if ttl <= 0 {
        ttl := w;
      }
      ScopeResultMeans(log, who, limit, w, now);
      var remaining := if limit - count > 0 then limit - count else 0;
      result := RateLimitResult(count <= limit, who.scope, limit, count, remaining, if count <= limit then 0 else ttl);
    }

    /** All three scopes are counted, whatever each of them answers. */
    method CheckAll(apiKeyId: string, teamId: string, orgId: string,
                    keyLimit: int, teamLimit: int, orgLimit: int,
                    keyNow: int, teamNow: int, orgNow: int) returns (outcome: RateLimitOutcome)
      requires Valid() && UpTo(keyNow) && keyNow <= teamNow <= orgNow
      modifies this, redis
      ensures Valid() && UpTo(orgNow)
      ensures Combined(outcome)
      ensures redis != null ==>
                var apiKey, team, org := Client(ApiKey, apiKeyId), Client(Team, teamId), Client(Org, orgId);
                var afterKey := old(log) + [Hit(apiKey, keyNow)];
                var afterTeam := afterKey + [Hit(team, teamNow)];
                && log == afterTeam + [Hit(org, orgNow)]
                && CountInWindow(afterKey, apiKey, WindowIndex(keyNow, window(apiKey.scope)), window(apiKey.scope)) > 0
                && CountInWindow(afterTeam, team, WindowIndex(teamNow, window(team.scope)), window(team.scope)) > 0
                && CountInWindow(log, org, WindowIndex(orgNow, window(org.scope)), window(org.scope)) > 0
                && outcome.key == ScopeResult(afterKey, apiKey, keyLimit, window(apiKey.scope), keyNow)
                && outcome.team == ScopeResult(afterTeam, team, teamLimit, window(team.scope), teamNow)
                && outcome.org == ScopeResult(log, org, orgLimit, window(org.scope), orgNow)
    {
      var keyResult := CheckScope(Client(ApiKey, apiKeyId), keyLimit, keyNow);
      var teamResult := CheckScope(Client(Team, teamId), teamLimit, teamNow);
      var orgResult := CheckScope(Client(Org, orgId), orgLimit, orgNow);
      var all := [keyResult, teamResult, orgResult];
      var best := ChooseBinding(all);
      outcome := RateLimitOutcome(keyResult.allowed && teamResult.allowed && orgResult.allowed,
                                  all[best], keyResult, teamResult, orgResult);
    }
  }

  /** The longest wait among the blocked results, else the smallest remainder; the first one on ties. */
  ghost predicate IsBinding(all: seq<RateLimitResult>, i: nat)
    requires i < |all|
  {
    if exists j :: 0 <= j < |all| && !all[j].allowed then
      && !all[i].allowed
      && forall j :: 0 <= j < |all| && !all[j].allowed ==>
           && all[j].retryAfterSeconds <= all[i].retryAfterSeconds
           && (j < i ==> all[j].retryAfterSeconds < all[i].retryAfterSeconds)
    else
      forall j :: 0 <= j < |all| ==>
        && all[i].remaining <= all[j].remaining
        && (j < i ==> all[i].remaining < all[j].remaining)
  }

  lemma ScopeOutcome(log: seq<Hit>, c: Check, w: Positive)
    requires CountInWindow(log + [HitOf(c)], c.who, WindowIndex(c.ms, w), w) > 0
    ensures var result := ScopeResult(log + [HitOf(c)], c.who, c.limit, w, c.ms);
            && (result.allowed <==> LastAdmitted(log + [HitOf(c)], w, c.limit))
            && (!result.allowed ==> Reported(log + [HitOf(c)], c.who, w, c.ms, result.retryAfterSeconds))
            && (result.allowed ==> result.remaining == c.limit - EffectiveCount(log + [HitOf(c)], c.who, w, c.ms))
  {
  }

  /**
   What `CheckAll` answers, for equal windows: it allows the call exactly when every check does, and the wait
   it reports with a rejection is one of those in `WaitOfCall`.
   */
  lemma CallOutcome(log: seq<Hit>, key: Check, team: Check, org: Check, w: Positive, outcome: RateLimitOutcome)
    requires var afterKey, afterTeam := log + [HitOf(key)], log + [HitOf(key)] + [HitOf(team)];
             var afterOrg := afterTeam + [HitOf(org)];
             && CountInWindow(afterKey, key.who, WindowIndex(key.ms, w), w) > 0
             && CountInWindow(afterTeam, team.who, WindowIndex(team.ms, w), w) > 0
             && CountInWindow(afterOrg, org.who, WindowIndex(org.ms, w), w) > 0
             && outcome.key == ScopeResult(afterKey, key.who, key.limit, w, key.ms)
             && outcome.team == ScopeResult(afterTeam, team.who, team.limit, w, team.ms)
             && outcome.org == ScopeResult(afterOrg, org.who, org.limit, w, org.ms)
    requires Combined(outcome)
    ensures outcome.allowed <==> CallAllowed(log, key, team, org, w)
    ensures !outcome.allowed ==> WaitOfCall(log, key, team, org, w, outcome.binding.retryAfterSeconds)
    ensures outcome.allowed ==>
              var afterKey := log + [HitOf(key)];
              var afterTeam := afterKey + [HitOf(team)];
              && outcome.binding.remaining <= key.limit - EffectiveCount(afterKey, key.who, w, key.ms)
              && outcome.binding.remaining <= team.limit - EffectiveCount(afterTeam, team.who, w, team.ms)
              && outcome.binding.remaining <= org.limit - EffectiveCount(afterTeam + [HitOf(org)], org.who, w, org.ms)
  {
    ScopeOutcome(log, key, w);
    ScopeOutcome(log + [HitOf(key)], team, w);
    ScopeOutcome(log + [HitOf(key)] + [HitOf(team)], org, w);
    BindingOfThree(outcome);
  }

  /** The answer is the conjunction of the three, and its binding result one of them, chosen as `IsBinding` says. */
  ghost predicate Combined(outcome: RateLimitOutcome) {
    && (outcome.allowed <==> outcome.key.allowed && outcome.team.allowed && outcome.org.allowed)
    && var all := [outcome.key, outcome.team, outcome.org];
    exists i :: 0 <= i < 3 && outcome.binding == all[i] && IsBinding(all, i)
  }

  /**
   The binding result in the caller's terms: of an allowed call the one with the least left, of a rejected
   call a blocked one with the longest wait, and on ties the first in the order key, team, organization.
   */
  lemma BindingMeans(outcome: RateLimitOutcome)
    requires Combined(outcome)
    ensures var k, t, o := outcome.key, outcome.team, outcome.org;
            outcome.binding ==
              if k.allowed && t.allowed && o.allowed then
                if k.remaining <= t.remaining && k.remaining <= o.remaining then k
                else if t.remaining <= o.remaining then t
                else o
              else if !k.allowed && (t.allowed || t.retryAfterSeconds <= k.retryAfterSeconds)
                                 && (o.allowed || o.retryAfterSeconds <= k.retryAfterSeconds) then k
              else if !t.allowed && (o.allowed || o.retryAfterSeconds <= t.retryAfterSeconds) then t
              else o
  {
    var all := [outcome.key, outcome.team, outcome.org];
    var i :| 0 <= i < 3 && outcome.binding == all[i] && IsBinding(all, i);
    assert all[0] == outcome.key && all[1] == outcome.team && all[2] == outcome.org;
    assert (exists j :: 0 <= j < |all| && !all[j].allowed) <==> !all[0].allowed || !all[1].allowed || !all[2].allowed;
  }

  lemma BindingOfThree(outcome: RateLimitOutcome)
    requires Combined(outcome)
    ensures !outcome.allowed ==>
              && !outcome.binding.allowed
              && (outcome.binding == outcome.key || outcome.binding == outcome.team || outcome.binding == outcome.org)
    ensures outcome.allowed ==>
              && outcome.binding.remaining <= outcome.key.remaining
              && outcome.binding.remaining <= outcome.team.remaining
              && outcome.binding.remaining <= outcome.org.remaining
  {
    BindingMeans(outcome);
    if !outcome.allowed {
      var all := [outcome.key, outcome.team, outcome.org];
      assert exists j :: 0 <= j < |all| && !all[j].allowed by {
        assert !all[0].allowed || !all[1].allowed || !all[2].allowed;
      }
    }
  }

  method ChooseBinding(all: seq<RateLimitResult>) returns (best: nat)
    requires all != []
    ensures best < |all| && IsBinding(all, best)
  {
    best := 0;
    for n := 1 to |all|
      invariant best < n && IsBinding(all[..n], best)
    {
      var challenger, champion := all[n], all[best];
      assert all[..n + 1][..n] == all[..n];
      assert forall j :: 0 <= j < n ==> all[..n + 1][j] == all[..n][j];
      if champion.allowed {
        if !challenger.allowed || challenger.remaining < champion.remaining {
          best := n;
        }
      } else if !challenger.allowed && challenger.retryAfterSeconds > champion.retryAfterSeconds {
        best := n;
      }
    }
    assert all[..|all|] == all;
  }
}
