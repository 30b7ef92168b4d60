/**
 The fixed-window rate limiter: a script that runs atomically in Redis on a counter with an
 expiry, and the limiter around it.
 */
module RateLimit {
  import opened Text

  // ---------------------------------------------------------------- the script

  /** limit and windowMs are the script's arguments; keepsDeadline: a key still exists in the
      millisecond of its deadline, as it does in Redis. */
  datatype Config = Config(limit: nat, windowMs: nat, keepsDeadline: bool)

  datatype Counter = Absent | Live(count: nat, deadline: Option<int>)

  datatype Reply = Reply(allowed: bool, current: nat, ttl: int)

  predicate Expired(c: Config, counter: Counter, now: int) {
    counter.Live? && counter.deadline.Some? &&
    if c.keepsDeadline then now > counter.deadline.value else now >= counter.deadline.value
  }

  function Visible(c: Config, counter: Counter, now: int): Counter {
    if Expired(c, counter, now) then Absent else counter
  }

  function Incremented(counter: Counter): Counter {
    match counter
    case Absent => Live(1, None)
    case Live(count, deadline) => Live(count + 1, deadline)
  }

  /** PEXPIRE; an expiry that is not in the future deletes the key. */
  function WithExpiry(counter: Counter, now: int, ms: nat): Counter {
    if ms == 0 then Absent
    else if counter.Live? then Live(counter.count, Some(now + ms))
    else Absent
  }

  /** PTTL: -2 without a key, -1 without an expiry. */
  function Pttl(counter: Counter, now: int): int {
    match counter
    case Absent => -2
    case Live(_, None) => -1
    case Live(_, Some(deadline)) => if deadline >= now then deadline - now else 0
  }

  /** fixedWindowScript: its reply and the counter it leaves. */
  function Script(c: Config, counter: Counter, now: int): (Reply, Counter) {
    var counted := Incremented(Visible(c, counter, now));
    var current := counted.count;
    var left := if current == 1 then WithExpiry(counted, now, c.windowMs) else counted;
    var ttl := Pttl(left, now);
    (Reply(current <= c.limit, current, if ttl < 0 then c.windowMs else ttl), left)
  }

  // ---------------------------------------------------------------- runs

  /** Redis time does not go back. */
  predicate Ascending(times: seq<int>) {
    forall i, j | 0 <= i < j < |times| :: times[i] <= times[j]
  }

  /** The counter after the first n of the requests. */
  function After(c: Config, times: seq<int>, n: nat): Counter
    requires n <= |times|
  {
    if n == 0 then Absent else Script(c, After(c, times, n - 1), times[n - 1]).1
  }

  function ReplyTo(c: Config, times: seq<int>, i: nat): Reply
    requires i < |times|
  {
    Script(c, After(c, times, i), times[i]).0
  }

  predicate Opens(c: Config, times: seq<int>, i: nat)
    requires i < |times|
  {
    ReplyTo(c, times, i).current == 1
  }

  /** The request that opened the window the i-th request falls into. */
  function Opener(c: Config, times: seq<int>, i: nat): (r: nat)
    requires i < |times|
    ensures r <= i
  {
    if i == 0 || Opens(c, times, i) then i else Opener(c, times, i - 1)
  }

  /** How far apart two openings are at least. */
  function Span(c: Config): nat {
    c.windowMs + if c.keepsDeadline then 1 else 0
  }

  /** After a request the counter holds the number of requests since the opener, and expires
      one window after it: a live counter always has an expiry. */
  lemma {:induction false} CounterIs(c: Config, times: seq<int>, i: nat)
    requires c.windowMs >= 1 && Ascending(times) && i < |times|
    ensures
      var opener := Opener(c, times, i);
      && After(c, times, i + 1) == Live(i - opener + 1, Some(times[opener] + c.windowMs))
      && ReplyTo(c, times, i).current == i - opener + 1
      && times[i] - times[opener] < Span(c)
      && ReplyTo(c, times, i).ttl == times[opener] + c.windowMs - times[i] >= 0
  {
    if i > 0 {
      CounterIs(c, times, i - 1);
    }
  }

  /** So the branch for a counter without an expiry is never taken. */
  lemma ExpiryIsSet(c: Config, times: seq<int>, i: nat)
    requires c.windowMs >= 1 && Ascending(times) && i < |times|
    ensures Pttl(After(c, times, i + 1), times[i]) >= 0
  {
    CounterIs(c, times, i);
  }

  /** A request opens a window exactly when the last one opened a whole span before. */
  lemma NextOpener(c: Config, times: seq<int>, i: nat)
    requires c.windowMs >= 1 && Ascending(times) && 0 < i < |times|
    ensures
      var last := Opener(c, times, i - 1);
      Opener(c, times, i) == if times[i] - times[last] >= Span(c) then i else last
  {
    CounterIs(c, times, i - 1);
  }

  lemma OpenersApart(c: Config, times: seq<int>, a: nat, b: nat)
    requires c.windowMs >= 1 && Ascending(times) && a < b < |times| && Opens(c, times, b)
    ensures times[b] - times[Opener(c, times, b - 1)] >= Span(c)
  {
    CounterIs(c, times, b - 1);
  }

  // ---------------------------------------------------------------- how many get through

  /** Requests lo to hi - 1 that were let through. */
  function Admitted(c: Config, times: seq<int>, lo: nat, hi: nat): (r: nat)
    requires lo <= hi <= |times|
    ensures r <= hi - lo
  {
    if lo == hi then 0
    else Admitted(c, times, lo, hi - 1) + if ReplyTo(c, times, hi - 1).allowed then 1 else 0
  }

  lemma {:induction false} AdmittedSplits(c: Config, times: seq<int>, lo: nat, mid: nat, hi: nat)
    requires lo <= mid <= hi <= |times|
    ensures Admitted(c, times, lo, hi) == Admitted(c, times, lo, mid) + Admitted(c, times, mid, hi)
  {
    if mid < hi {
      AdmittedSplits(c, times, lo, mid, hi - 1);
    }
  }

  lemma SameOpener(c: Config, times: seq<int>, lo: nat, i: nat)
    requires lo <= i < |times| && forall j | lo < j <= i :: !Opens(c, times, j)
    ensures Opener(c, times, i) == Opener(c, times, lo)
  {
  }

  /** Within one window the first limit requests are let through and no other. */
  lemma {:induction false} OneWindow(c: Config, times: seq<int>, lo: nat, hi: nat)
    requires c.windowMs >= 1 && Ascending(times) && lo < hi <= |times|
    requires forall j | lo < j < hi :: !Opens(c, times, j)
    ensures
      var used := lo - Opener(c, times, lo);
      Admitted(c, times, lo, hi) ==
        if c.limit <= used then 0 else if hi - lo <= c.limit - used then hi - lo else c.limit - used
  {
    SameOpener(c, times, lo, hi - 1);
    CounterIs(c, times, hi - 1);
    if lo < hi - 1 {
      OneWindow(c, times, lo, hi - 1);
    } else {
      assert Admitted(c, times, lo, lo) == 0;
    }
  }

  /** A window, from the request that opens it to the last before the next opening, admits
      at most limit requests. */
  lemma WindowAdmitsLimit(c: Config, times: seq<int>, lo: nat, hi: nat)
    requires c.windowMs >= 1 && Ascending(times) && lo < hi <= |times|
    requires Opens(c, times, lo) && forall j | lo < j < hi :: !Opens(c, times, j)
    ensures Admitted(c, times, lo, hi) == if hi - lo <= c.limit then hi - lo else c.limit
  {
    OneWindow(c, times, lo, hi);
  }

  lemma FirstOpening(c: Config, times: seq<int>, lo: nat, hi: nat) returns (b: nat)
    requires lo < hi <= |times|
    ensures lo < b <= hi && (b < hi ==> Opens(c, times, b)) && forall j | lo < j < b :: !Opens(c, times, j)
  {
    b := lo + 1;
    while b < hi && !Opens(c, times, b)
      invariant lo < b <= hi && forall j | lo < j < b :: !Opens(c, times, j)
    {
      b := b + 1;
    }
  }

  /** Any stretch of requests within one window length admits at most 2 * limit - 1. */
  lemma StretchAdmits(c: Config, times: seq<int>, lo: nat, hi: nat)
    requires c.limit >= 1 && c.windowMs >= 1 && Ascending(times) && lo < hi <= |times|
    requires times[hi - 1] - times[lo] < Span(c)
    ensures Admitted(c, times, lo, hi) <= 2 * c.limit - 1
  {
    var b := FirstOpening(c, times, lo, hi);
    OneWindow(c, times, lo, b);
    AdmittedSplits(c, times, lo, b, hi);
    if b < hi {
      SameOpener(c, times, lo, b - 1);
      OpenersApart(c, times, lo, b);
      OnlyOneMore(c, times, lo, b, hi);
      OneWindow(c, times, b, hi);
    }
  }

  lemma OnlyOneMore(c: Config, times: seq<int>, lo: nat, b: nat, hi: nat)
    requires c.windowMs >= 1 && Ascending(times) && lo < b < hi <= |times|
    requires times[hi - 1] - times[lo] < Span(c) && Opens(c, times, b)
    ensures forall j | b < j < hi :: !Opens(c, times, j)
  {
    forall j | b < j < hi ensures !Opens(c, times, j) {
      if Opens(c, times, j) {
        OpenersApart(c, times, b, j);
        OpenerAfter(c, times, b, j - 1);
      }
    }
  }

  lemma OpenerAfter(c: Config, times: seq<int>, b: nat, i: nat)
    requires b <= i < |times| && Opens(c, times, b)
    ensures Opener(c, times, i) >= b
  {
  }

  // ---------------------------------------------------------------- the bound is reached

  /** One request opens a window, the rest of its budget comes a millisecond later, and a
      full budget right after its end. */
  function Burst(c: Config): (times: seq<int>)
    requires c.limit >= 1 && c.windowMs >= 1
    ensures |times| == 2 * c.limit && Ascending(times)
    ensures forall i | 0 <= i < |times| :: times[i] == BurstTime(c, i)
  {
    seq(2 * c.limit, i => BurstTime(c, i))
  }

  function BurstTime(c: Config, i: int): int {
    if i == 0 then 0 else if i < c.limit then 1 else Span(c)
  }

  lemma {:induction false} BurstFirst(c: Config, i: nat)
    requires c.limit >= 1 && c.windowMs >= 1 && Span(c) >= 2 && i < c.limit
    ensures Opener(c, Burst(c), i) == 0
  {
    if i > 0 {
      BurstFirst(c, i - 1);
      NextOpener(c, Burst(c), i);
    }
  }

  lemma {:induction false} BurstSecond(c: Config, i: nat)
    requires c.limit >= 1 && c.windowMs >= 1 && Span(c) >= 2 && c.limit <= i < 2 * c.limit
    ensures Opener(c, Burst(c), i) == c.limit
  {
    if i == c.limit {
      BurstFirst(c, i - 1);
    } else {
      BurstSecond(c, i - 1);
    }
    NextOpener(c, Burst(c), i);
  }

  /** The bound of StretchAdmits is the best possible. */
  lemma StretchBoundReached(c: Config)
    requires c.limit >= 1 && c.windowMs >= 1 && Span(c) >= 2
    ensures Ascending(Burst(c))
    ensures c.limit >= 2 ==> Burst(c)[2 * c.limit - 1] - Burst(c)[1] < Span(c)
    ensures Admitted(c, Burst(c), 1, 2 * c.limit) == 2 * c.limit - 1
  {
    var times := Burst(c);
    forall i | 0 < i < c.limit ensures !Opens(c, times, i) && Opener(c, times, i) == 0 {
      BurstFirst(c, i);
      CounterIs(c, times, i);
    }
    forall i | c.limit < i < 2 * c.limit ensures !Opens(c, times, i) {
      BurstSecond(c, i);
      CounterIs(c, times, i);
    }
    BurstSecond(c, c.limit);
    OneWindow(c, times, c.limit, 2 * c.limit);
    AdmittedSplits(c, times, 1, c.limit, 2 * c.limit);
    if c.limit > 1 {
      BurstFirst(c, 1);
      OneWindow(c, times, 1, c.limit);
    }
  }

  // ---------------------------------------------------------------- windows below a millisecond

  /** Nothing is ever blocked exactly when the window is shorter than a millisecond: its
      expiry of zero deletes the counter at once. */
  lemma UnlimitedExactlyWhen(c: Config)
    requires c.limit >= 1
    ensures (forall times, i | Ascending(times) && 0 <= i < |times| :: ReplyTo(c, times, i).allowed)
            <==> c.windowMs == 0
  {
    if c.windowMs == 0 {
      forall times: seq<int>, i: nat | Ascending(times) && i < |times| ensures ReplyTo(c, times, i).allowed {
        AlwaysGone(c, times, i);
      }
    } else {
      var times := seq(c.limit + 1, _ => 0);
      OpenedAtZero(c, times, c.limit);
      CounterIs(c, times, c.limit);
      assert !ReplyTo(c, times, c.limit).allowed;
    }
  }

  lemma {:induction false} AlwaysGone(c: Config, times: seq<int>, n: nat)
    requires c.windowMs == 0 && n <= |times|
    ensures After(c, times, n) == Absent
  {
    if n > 0 {
      AlwaysGone(c, times, n - 1);
    }
  }

  lemma {:induction false} OpenedAtZero(c: Config, times: seq<int>, i: nat)
    requires c.windowMs >= 1 && i < |times| && Ascending(times) && forall j | 0 <= j <= i :: times[j] == 0
    ensures Opener(c, times, i) == 0
  {
    if i > 0 {
      OpenedAtZero(c, times, i - 1);
      NextOpener(c, times, i);
    }
  }

  // ---------------------------------------------------------------- the limiter

  datatype Outcome = Allowed | Blocked | FailOpen | Error

  /** Durations are in nanoseconds. */
  datatype Decision = Decision(allowed: bool, remaining: nat, retryAfter: int, outcome: Outcome)

  const MILLISECOND := 1_000_000
  const SECOND := 1_000_000_000

  function RetryAfter(ttl: int, window: int): int {
    if ttl > 0 then ttl * MILLISECOND else window
  }

  /** What the limiter makes of the script's reply. */
  function DecisionOf(reply: Reply, limit: nat, window: int): Decision {
    Decision(reply.allowed, if reply.current <= limit then limit - reply.current else 0,
             if reply.allowed then 0 else RetryAfter(reply.ttl, window),
             if reply.allowed then Allowed else Blocked)
  }

  /** The script's arguments; a window is given in nanoseconds. */
  function ConfigOf(limit: nat, window: nat, keepsDeadline: bool): Config {
    Config(limit, window / MILLISECOND, keepsDeadline)
  }

  /** RetryAfterSeconds. */
  function RetryAfterSeconds(d: int): (r: nat)
    ensures d <= 0 <==> r == 0
    ensures d > 0 ==> (r - 1) * SECOND < d <= r * SECOND
  {
    if d <= 0 then 0 else (d + SECOND - 1) / SECOND
  }

  /** The limiter over the counters it shares with every other instance. */
  class RedisLimiter {
    const failOpen: bool
    const keepsDeadline: bool
    var counters: map<string, Counter>

    constructor (failOpen: bool, keepsDeadline: bool)
      ensures counters == map[] && this.failOpen == failOpen && this.keepsDeadline == keepsDeadline
    {
      this.failOpen, this.keepsDeadline, counters := failOpen, keepsDeadline, map[];
    }

    function CounterOf(key: string): Counter
      reads this
    {
      if key in counters then counters[key] else Absent
    }

    method RunScript(key: string, c: Config, now: int) returns (reply: Reply)
      modifies this
      ensures (reply, CounterOf(key)) == Script(c, old(CounterOf(key)), now)
      ensures forall other | other != key :: CounterOf(other) == old(CounterOf(other))
    {
      var counter := CounterOf(key);
      if Expired(c, counter, now) {
        counter := Absent;
      }
      var current: nat;
      match counter {
        case Absent =>
          current := 1;
          counter := Live(1, None);
        case Live(count, deadline) =>
          current := count + 1;
          counter := Live(current, deadline);
      }
      if current == 1 {
        counter := WithExpiry(counter, now, c.windowMs);
      }
      var ttl := Pttl(counter, now);
      if ttl < 0 {
        ttl := c.windowMs;
      }
      counters := counters[key := counter];
      reply := Reply(current <= c.limit, current, ttl);
    }

    /** Allow; None when the request's own parameters are refused. */
    method Allow(key: string, limit: int, window: int, now: int, reachable: bool) returns (decision: Option<Decision>)
      modifies this
      ensures decision.None? <==> limit <= 0 || window <= 0
      ensures forall other | other != key :: CounterOf(other) == old(CounterOf(other))
      ensures decision.None? || !reachable ==> CounterOf(key) == old(CounterOf(key))
      ensures decision.Some? && !reachable ==>
                decision.value == if failOpen then Decision(true, 0, 0, FailOpen) else Decision(false, 0, window, Error)
      ensures decision.Some? && reachable ==>
                var (reply, counter) := Script(ConfigOf(limit, window, keepsDeadline), old(CounterOf(key)), now);
                CounterOf(key) == counter && decision.value == DecisionOf(reply, limit, window)
    {
      if limit <= 0 || window <= 0 {
        return None;
      }
      if !reachable {
        if failOpen {
          return Some(Decision(true, 0, 0, FailOpen));
        }
        return Some(Decision(false, 0, window, Error));
      }
      var reply := RunScript(key, ConfigOf(limit, window, keepsDeadline), now);
      var remaining := limit - reply.current;
      if remaining < 0 {
        remaining := 0;
      }
      var d := Decision(reply.allowed, remaining, 0, Allowed);
      if !reply.allowed {
        d := d.(outcome := Blocked);
        if reply.ttl > 0 {
          d := d.(retryAfter := reply.ttl * MILLISECOND);
        }
        if d.retryAfter <= 0 {
          d := d.(retryAfter := window);
        }
      }
      decision := Some(d);
    }
  }

  // ---------------------------------------------------------------- waiting

  /** The decision on the i-th of the requests with one key, as Allow returns it. */
  function DecisionAt(limit: nat, window: nat, keepsDeadline: bool, times: seq<int>, i: nat): Decision
    requires i < |times|
  {
    DecisionOf(ReplyTo(ConfigOf(limit, window, keepsDeadline), times, i), limit, window)
  }

  lemma OpenerStays(c: Config, times: seq<int>, i: nat, k: nat)
    requires i <= k < |times| && Opener(c, times, k) <= i
    ensures Opener(c, times, k) == Opener(c, times, i)
  {
  }

  /** The window that request i fell into is over for a later request, whoever sends it and
      whatever came in between, exactly when the time to its deadline has passed. */
  lemma {:induction false} WindowOverExactlyWhen(c: Config, times: seq<int>, i: nat, k: nat)
    requires c.windowMs >= 1 && Ascending(times) && i < k < |times|
    ensures Opener(c, times, k) > i
            <==> times[k] - times[i] >= ReplyTo(c, times, i).ttl + if c.keepsDeadline then 1 else 0
  {
    CounterIs(c, times, i);
    NextOpener(c, times, k);
    if k > i + 1 {
      WindowOverExactlyWhen(c, times, i, k - 1);
    }
    if Opener(c, times, k - 1) <= i {
      OpenerStays(c, times, i, k - 1);
    }
  }

  /** What a blocked caller is told to wait, in nanoseconds: the time to the deadline; in the
      millisecond of the deadline itself, where the key is still there, a whole window. */
  lemma RetryAfterIs(limit: nat, window: nat, keepsDeadline: bool, times: seq<int>, i: nat)
    requires window >= 1_000_000 && Ascending(times) && i < |times|
    requires !DecisionAt(limit, window, keepsDeadline, times, i).allowed
    ensures
      var left := times[Opener(ConfigOf(limit, window, keepsDeadline), times, i)] + window / 1_000_000 - times[i];
      && (left == 0 ==> keepsDeadline) && left >= 0
      && DecisionAt(limit, window, keepsDeadline, times, i).retryAfter == if left > 0 then left * 1_000_000 else window
  {
    CounterIs(ConfigOf(limit, window, keepsDeadline), times, i);
  }

  /** Whoever comes back later than a blocked caller was told to finds the blocking window over;
      the request is then let through exactly if the budget of its own window covers it, and
      the next request always is. */
  lemma WaitingHelps(limit: nat, window: nat, keepsDeadline: bool, times: seq<int>, i: nat, k: nat)
    requires limit >= 1 && window >= 1_000_000 && Ascending(times) && i < k < |times|
    requires !DecisionAt(limit, window, keepsDeadline, times, i).allowed
    requires (times[k] - times[i]) * 1_000_000 > DecisionAt(limit, window, keepsDeadline, times, i).retryAfter
    ensures
      var opener := Opener(ConfigOf(limit, window, keepsDeadline), times, k);
      && opener > i
      && (DecisionAt(limit, window, keepsDeadline, times, k).allowed <==> k - opener < limit)
      && (k == i + 1 ==> DecisionAt(limit, window, keepsDeadline, times, k).allowed)
  {
    var c := ConfigOf(limit, window, keepsDeadline);
    RetryAfterIs(limit, window, keepsDeadline, times, i);
    CounterIs(c, times, i);
    CounterIs(c, times, k);
    WindowOverExactlyWhen(c, times, i, k);
  }

  /** The retry delay is not too long either: where a key is gone at its deadline, the blocking
      window is over exactly from the delay on; where it is still there, exactly after it, unless
      the caller came in the millisecond of the deadline. */
  lemma DelayIsExact(limit: nat, window: nat, keepsDeadline: bool, times: seq<int>, i: nat, k: nat)
    requires window >= 1_000_000 && Ascending(times) && i < k < |times|
    requires !DecisionAt(limit, window, keepsDeadline, times, i).allowed
    ensures
      var c := ConfigOf(limit, window, keepsDeadline);
      var delay := DecisionAt(limit, window, keepsDeadline, times, i).retryAfter;
      var passed, over := (times[k] - times[i]) * 1_000_000, Opener(c, times, k) > i;
      if !keepsDeadline then over <==> passed >= delay
      else if times[i] - times[Opener(c, times, i)] < window / 1_000_000 then over <==> passed > delay
      else delay == window && (over <==> passed > 0)
  {
    var c := ConfigOf(limit, window, keepsDeadline);
    RetryAfterIs(limit, window, keepsDeadline, times, i);
    CounterIs(c, times, i);
    WindowOverExactlyWhen(c, times, i, k);
  }

  /** The same in whole seconds, as the Retry-After header gives them: after that many the window
      is over where a key is gone at its deadline, and after one second less it is not. */
  lemma HeaderSuffices(limit: nat, window: nat, times: seq<int>, i: nat, k: nat)
    requires window >= 1_000_000 && Ascending(times) && i < k < |times|
    requires !DecisionAt(limit, window, false, times, i).allowed
    ensures
      var seconds := RetryAfterSeconds(DecisionAt(limit, window, false, times, i).retryAfter);
      var over := Opener(ConfigOf(limit, window, false), times, k) > i;
      && (times[k] - times[i] >= seconds * 1000 ==> over)
      && (times[k] - times[i] <= (seconds - 1) * 1000 ==> !over)
  {
    DelayIsExact(limit, window, false, times, i, k);
    RetryAfterIs(limit, window, false, times, i);
    CounterIs(ConfigOf(limit, window, false), times, i);
  }

  /** As long as the window lasts, exactly the remaining requests are let through. */
  lemma RemainingExactlyWhen(limit: nat, window: nat, keepsDeadline: bool, times: seq<int>, i: nat, k: nat)
    requires window >= 1_000_000 && Ascending(times) && i < k < |times|
    requires Opener(ConfigOf(limit, window, keepsDeadline), times, k) <= i
    ensures DecisionAt(limit, window, keepsDeadline, times, k).allowed
            <==> k - i <= DecisionAt(limit, window, keepsDeadline, times, i).remaining
  {
    var c := ConfigOf(limit, window, keepsDeadline);
    CounterIs(c, times, i);
    CounterIs(c, times, k);
    OpenerStays(c, times, i, k);
  }

  /** The window that blocked a caller is over exactly when that caller was told to be back. */
  ghost predicate WaitingSuffices(limit: nat, window: nat, keepsDeadline: bool) {
    forall times: seq<int>, i: nat, k: nat |
      Ascending(times) && i < k < |times|
      && !DecisionAt(limit, window, keepsDeadline, times, i).allowed
      && (times[k] - times[i]) * 1_000_000 == DecisionAt(limit, window, keepsDeadline, times, i).retryAfter ::
      && Opener(ConfigOf(limit, window, keepsDeadline), times, k) > i
      && (k == i + 1 ==> DecisionAt(limit, window, keepsDeadline, times, k).allowed)
  }

  /** A budget and one more at once, and then a retry exactly when told. */
  function PromptRetry(limit: nat, windowMs: nat): (times: seq<int>)
    ensures |times| == limit + 2 && Ascending(times)
    ensures forall i | 0 <= i < |times| :: times[i] == if i <= limit then 0 else windowMs
  {
    seq(limit + 2, i => if i <= limit then 0 else windowMs)
  }

  lemma PromptRetryBlocked(limit: nat, window: nat)
    requires limit >= 1 && window >= 1_000_000
    ensures !WaitingSuffices(limit, window, true)
  {
    var c := ConfigOf(limit, window, true);
    var times, i := PromptRetry(limit, c.windowMs), limit;
    OpenedAtZero(c, times, i);
    CounterIs(c, times, i);
    NextOpener(c, times, i + 1);
    CounterIs(c, times, i + 1);
    assert !DecisionAt(limit, window, true, times, i).allowed;
    assert !DecisionAt(limit, window, true, times, i + 1).allowed;
  }

  /** Waiting exactly as long as told is enough only when a key is gone at its deadline. */
  lemma WaitingSufficesExactlyWhen(limit: nat, window: nat, keepsDeadline: bool)
    requires limit >= 1 && window >= 1_000_000
    ensures WaitingSuffices(limit, window, keepsDeadline) <==> !keepsDeadline
  {
    if keepsDeadline {
      PromptRetryBlocked(limit, window);
    } else {
      forall times: seq<int>, i: nat, k: nat |
        Ascending(times) && i < k < |times|
        && !DecisionAt(limit, window, false, times, i).allowed
        && (times[k] - times[i]) * 1_000_000 == DecisionAt(limit, window, false, times, i).retryAfter
        ensures Opener(ConfigOf(limit, window, false), times, k) > i
        ensures k == i + 1 ==> DecisionAt(limit, window, false, times, k).allowed
      {
        DelayIsExact(limit, window, false, times, i, k);
        CounterIs(ConfigOf(limit, window, false), times, k);
      }
    }
  }
}
