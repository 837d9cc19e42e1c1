/** The fixed-window limiter of `services/api/src/rate-limit.ts`. */
module RateLimit {
  const WINDOW_MS: int := 60_000
  const PRUNE_THRESHOLD: nat := 10_000

  datatype WindowEntry = WindowEntry(count: nat, resetAtMs: int)
  datatype Decision = Decision(allowed: bool, limit: int, remaining: int, resetAtMs: int, retryAfterSeconds: int)

  type Windows = map<string, WindowEntry>

  function Max(x: int, y: int): int {
    if x > y then x else y
  }

  function CeilThousandths(ms: int): int {
    if ms % 1_000 == 0 then ms / 1_000 else ms / 1_000 + 1
  }

  const UNLIMITED: Decision := Decision(true, 0, 0, 0, 0)

  // ---------------------------------------------------------------------------
  // Specification
  // ---------------------------------------------------------------------------

  function Live(windows: Windows, nowMs: int): Windows {
    map key | key in windows && windows[key].resetAtMs > nowMs :: windows[key]
  }

  function Pruned(windows: Windows, nowMs: int): Windows {
    if |windows| < PRUNE_THRESHOLD then windows else Live(windows, nowMs)
  }

  /** The key's window after counting one call at `nowMs`. */
  function Counted(windows: Windows, key: string, nowMs: int): WindowEntry {
    if key in windows && windows[key].resetAtMs > nowMs then
      windows[key].(count := windows[key].count + 1)
    else
      WindowEntry(1, nowMs + WINDOW_MS)
  }

  function Decide(entry: WindowEntry, limit: int, nowMs: int): Decision {
    Decision(
      entry.count <= limit, limit, Max(0, limit - entry.count), entry.resetAtMs,
      Max(1, CeilThousandths(entry.resetAtMs - nowMs)))
  }

  datatype Call = Call(key: string, limit: int, nowMs: int)

  /** One call on a limiter that never prunes. */
  function Keep(windows: Windows, call: Call): (Windows, Decision) {
    if call.limit <= 0 then (windows, UNLIMITED)
    else
      var entry := Counted(windows, call.key, call.nowMs);
      (windows[call.key := entry], Decide(entry, call.limit, call.nowMs))
  }

  /** One call on the limiter itself. */
  function Check(windows: Windows, call: Call): (Windows, Decision) {
    if call.limit <= 0 then (windows, UNLIMITED) else Keep(Pruned(windows, call.nowMs), call)
  }

  // ---------------------------------------------------------------------------
  // The limiter object
  // ---------------------------------------------------------------------------

  class RateLimiter {
    var windows: Windows

    constructor ()
      ensures windows == map[]
    {
      windows := map[];
    }

    method Prune(nowMs: int)
      modifies this
      ensures windows == Pruned(old(windows), nowMs)
    {
      if |windows| < PRUNE_THRESHOLD {
        return;
      }
      var rest := windows.Keys;
      while rest != {}
        invariant rest <= windows.Keys <= old(windows).Keys
        invariant forall key :: key in windows ==> windows[key] == old(windows)[key]
        invariant forall key :: key in old(windows) && key !in rest ==>
          (key in windows <==> old(windows)[key].resetAtMs > nowMs)
        decreases |rest|
      {
        var key :| key in rest;
        rest := rest - {key};
        if windows[key].resetAtMs <= nowMs {
          windows := windows - {key};
        }
      }
      assert windows == Live(old(windows), nowMs);
    }

    method CheckCall(key: string, limit: int, nowMs: int) returns (decision: Decision)
      modifies this
      ensures (windows, decision) == Check(old(windows), Call(key, limit, nowMs))
    {
      if limit <= 0 {
        return UNLIMITED;
      }
      Prune(nowMs);
      if key !in windows || windows[key].resetAtMs <= nowMs {
        windows := windows[key := WindowEntry(0, nowMs + WINDOW_MS)];
      }
      windows := windows[key := windows[key].(count := windows[key].count + 1)];
      var entry := windows[key];
      assert windows == Keep(Pruned(old(windows), nowMs), Call(key, limit, nowMs)).0;
      decision := Decision(
        entry.count <= limit, limit, Max(0, limit - entry.count), entry.resetAtMs,
        Max(1, CeilThousandths(entry.resetAtMs - nowMs)));
    }
  }

  // ---------------------------------------------------------------------------
  // Runs
  // ---------------------------------------------------------------------------

  function Run(windows: Windows, calls: seq<Call>): (decisions: seq<Decision>)
    ensures |decisions| == |calls|
    decreases |calls|
  {
    if calls == [] then []
    else
      var (next, decision) := Check(windows, calls[0]);
      [decision] + Run(next, calls[1..])
  }

  function RunKeeping(windows: Windows, calls: seq<Call>): (decisions: seq<Decision>)
    ensures |decisions| == |calls|
    decreases |calls|
  {
    if calls == [] then []
    else
      var (next, decision) := Keep(windows, calls[0]);
      [decision] + RunKeeping(next, calls[1..])
  }

  /** The clock never runs backwards, from `start` on. */
  predicate Ordered(start: int, calls: seq<Call>)
    decreases |calls|
  {
    calls == [] || (start <= calls[0].nowMs && Ordered(calls[0].nowMs, calls[1..]))
  }

  // ---------------------------------------------------------------------------
  // Pruning is unobservable
  // ---------------------------------------------------------------------------

  /** `pruned` is `kept` without some windows that had expired by `nowMs`. */
  predicate Related(pruned: Windows, kept: Windows, nowMs: int) {
    && (forall key :: key in pruned ==> key in kept && kept[key] == pruned[key])
    && (forall key :: key in kept && key !in pruned ==> kept[key].resetAtMs <= nowMs)
  }

  lemma StepRelated(pruned: Windows, kept: Windows, start: int, call: Call)
    requires Related(pruned, kept, start) && start <= call.nowMs
    ensures Related(Check(pruned, call).0, Keep(kept, call).0, call.nowMs)
    ensures Check(pruned, call).1 == Keep(kept, call).1
  {
    if call.limit > 0 {
      assert Counted(Pruned(pruned, call.nowMs), call.key, call.nowMs) == Counted(kept, call.key, call.nowMs);
    }
  }

  lemma {:induction false} RelatedRunsAgree(pruned: Windows, kept: Windows, start: int, calls: seq<Call>)
    requires Related(pruned, kept, start) && Ordered(start, calls)
    ensures Run(pruned, calls) == RunKeeping(kept, calls)
    decreases |calls|
  {
    if calls != [] {
      StepRelated(pruned, kept, start, calls[0]);
      RelatedRunsAgree(Check(pruned, calls[0]).0, Keep(kept, calls[0]).0, calls[0].nowMs, calls[1..]);
    }
  }

  /** Whatever is called, a limiter that prunes decides like one that keeps every window forever. */
  lemma PruningIsUnobservable(windows: Windows, start: int, calls: seq<Call>)
    requires Ordered(start, calls)
    ensures Run(windows, calls) == RunKeeping(windows, calls)
  {
    RelatedRunsAgree(windows, windows, start, calls);
  }

  // ---------------------------------------------------------------------------
  // Bounds for one key
  // ---------------------------------------------------------------------------

  /** Every call on `key` has that limit; other keys may have any. */
  predicate LimitedTo(calls: seq<Call>, key: string, limit: int) {
    forall call :: call in calls && call.key == key ==> call.limit == limit
  }

  /** How many calls on `key` in the minute from `from` on were allowed. */
  function AllowedSince(calls: seq<Call>, decisions: seq<Decision>, key: string, from: int): nat
    requires |decisions| == |calls|
  {
    if calls == [] then 0
    else
      (if calls[0].key == key && from <= calls[0].nowMs < from + 60_000 && decisions[0].allowed then 1 else 0)
      + AllowedSince(calls[1..], decisions[1..], key, from)
  }

  /** How many calls on `key` were allowed in the window that resets at `reset`. */
  function AllowedInWindow(calls: seq<Call>, decisions: seq<Decision>, key: string, reset: int): nat
    requires |decisions| == |calls|
  {
    if calls == [] then 0
    else
      (if calls[0].key == key && decisions[0].resetAtMs == reset && decisions[0].allowed then 1 else 0)
      + AllowedInWindow(calls[1..], decisions[1..], key, reset)
  }

  /** What a window may still allow. */
  function Left(entry: WindowEntry, limit: nat): nat {
    if entry.count < limit then limit - entry.count else 0
  }

  /** The most that can still be allowed between `from` and one window later. */
  function Budget(windows: Windows, key: string, limit: nat, nowMs: int, from: int): int {
    if key !in windows || windows[key].resetAtMs <= nowMs then
      if nowMs < from then 2 * limit - 1 else if nowMs < from + WINDOW_MS then limit else 0
    else
      var entry := windows[key];
      if entry.resetAtMs <= from then 2 * limit - 1
      else if entry.resetAtMs - WINDOW_MS < from then Left(entry, limit) + limit
      else if entry.resetAtMs - WINDOW_MS < from + WINDOW_MS then Left(entry, limit)
      else 0
  }

  /** Windows count at least one call and were opened by the current time. */
  predicate Opened(windows: Windows, nowMs: int) {
    forall key :: key in windows ==> windows[key].count >= 1 && windows[key].resetAtMs <= nowMs + WINDOW_MS
  }

  lemma BudgetStep(windows: Windows, key: string, limit: nat, start: int, from: int, call: Call)
    requires limit >= 1 && start <= call.nowMs && Opened(windows, start)
    requires call.key == key ==> call.limit == limit
    ensures Opened(Keep(windows, call).0, call.nowMs)
    ensures (if call.key == key && from <= call.nowMs < from + WINDOW_MS && Keep(windows, call).1.allowed then 1 else 0)
            + Budget(Keep(windows, call).0, key, limit, call.nowMs, from)
         <= Budget(windows, key, limit, start, from)
  {
  }

  lemma {:induction false} KeptWithinBudget(
    windows: Windows, key: string, limit: nat, start: int, from: int, calls: seq<Call>)
    requires limit >= 1 && Opened(windows, start) && Ordered(start, calls) && LimitedTo(calls, key, limit)
    ensures AllowedSince(calls, RunKeeping(windows, calls), key, from)
         <= Max(0, Budget(windows, key, limit, start, from))
    decreases |calls|
  {
    if calls != [] {
      BudgetStep(windows, key, limit, start, from, calls[0]);
      KeptWithinBudget(Keep(windows, calls[0]).0, key, limit, calls[0].nowMs, from, calls[1..]);
    }
  }

  /**
   In any 60 000 milliseconds at most `2*limit - 1` calls on a key are allowed, over every run
   of a fresh limiter with a non-decreasing clock, whatever happens on other keys.
   */
  lemma SlidingBound(key: string, limit: nat, start: int, from: int, calls: seq<Call>)
    requires limit >= 1 && Ordered(start, calls) && LimitedTo(calls, key, limit)
    ensures AllowedSince(calls, Run(map[], calls), key, from) <= 2 * limit - 1
  {
    PruningIsUnobservable(map[], start, calls);
    KeptWithinBudget(map[], key, limit, start, from, calls);
  }

  lemma {:induction false} KeptWithinWindow(
    windows: Windows, key: string, limit: nat, start: int, reset: int, calls: seq<Call>)
    requires limit >= 1 && Opened(windows, start) && Ordered(start, calls) && LimitedTo(calls, key, limit)
    ensures AllowedInWindow(calls, RunKeeping(windows, calls), key, reset)
         <= if key !in windows || windows[key].resetAtMs < reset then limit
            else if windows[key].resetAtMs == reset then Left(windows[key], limit)
            else 0
    decreases |calls|
  {
    if calls != [] {
      BudgetStep(windows, key, limit, start, reset, calls[0]);
      KeptWithinWindow(Keep(windows, calls[0]).0, key, limit, calls[0].nowMs, reset, calls[1..]);
    }
  }

  /** At most `limit` calls on a key are allowed in each window. */
  lemma WindowBound(key: string, limit: nat, start: int, reset: int, calls: seq<Call>)
    requires limit >= 1 && Ordered(start, calls) && LimitedTo(calls, key, limit)
    ensures AllowedInWindow(calls, Run(map[], calls), key, reset) <= limit
  {
    PruningIsUnobservable(map[], start, calls);
    KeptWithinWindow(map[], key, limit, start, reset, calls);
  }

  // ---------------------------------------------------------------------------
  // The sliding bound is reached
  // ---------------------------------------------------------------------------

  function Burst(call: Call, n: nat): seq<Call> {
    if n == 0 then [] else [call] + Burst(call, n - 1)
  }

  /** The state after a run of a limiter that keeps every window. */
  function After(windows: Windows, calls: seq<Call>): Windows
    decreases |calls|
  {
    if calls == [] then windows else After(Keep(windows, calls[0]).0, calls[1..])
  }

  lemma {:induction false} RunAppend(windows: Windows, xs: seq<Call>, ys: seq<Call>)
    ensures RunKeeping(windows, xs + ys) == RunKeeping(windows, xs) + RunKeeping(After(windows, xs), ys)
    ensures After(windows, xs + ys) == After(After(windows, xs), ys)
    decreases |xs|
  {
    if xs == [] {
      assert xs + ys == ys;
    } else {
      assert (xs + ys)[1..] == xs[1..] + ys;
      RunAppend(Keep(windows, xs[0]).0, xs[1..], ys);
    }
  }

  lemma {:induction false} AllowedAppend(
    xs: seq<Call>, ds: seq<Decision>, ys: seq<Call>, es: seq<Decision>, key: string, from: int)
    requires |ds| == |xs| && |es| == |ys|
    ensures AllowedSince(xs + ys, ds + es, key, from)
         == AllowedSince(xs, ds, key, from) + AllowedSince(ys, es, key, from)
  {
    if xs == [] {
      assert xs + ys == ys && ds + es == es;
    } else {
      assert (xs + ys)[1..] == xs[1..] + ys && (ds + es)[1..] == ds[1..] + es;
      AllowedAppend(xs[1..], ds[1..], ys, es, key, from);
    }
  }

  lemma {:induction false} OrderedAppend(start: int, xs: seq<Call>, ys: seq<Call>, middle: int)
    requires Ordered(start, xs) && Ordered(middle, ys) && start <= middle
    requires forall call :: call in xs ==> call.nowMs <= middle
    ensures Ordered(start, xs + ys)
    decreases |xs|
  {
    if xs == [] {
      assert xs + ys == ys;
    } else {
      assert (xs + ys)[1..] == xs[1..] + ys;
      OrderedAppend(xs[0].nowMs, xs[1..], ys, middle);
    }
  }

  lemma AllowedFirst(windows: Windows, call: Call, rest: seq<Call>, from: int)
    requires from <= call.nowMs < from + WINDOW_MS && Keep(windows, call).1.allowed
    ensures AllowedSince([call] + rest, RunKeeping(windows, [call] + rest), call.key, from)
         == 1 + AllowedSince(rest, RunKeeping(Keep(windows, call).0, rest), call.key, from)
    ensures Ordered(call.nowMs, [call] + rest) <==> Ordered(call.nowMs, rest)
    ensures After(windows, [call] + rest) == After(Keep(windows, call).0, rest)
  {
    hide Keep;
    var calls := [call] + rest;
    assert calls[1..] == rest;
    assert RunKeeping(windows, calls)[1..] == RunKeeping(Keep(windows, call).0, rest);
  }

  /** A burst that fits the open window is allowed in full. */
  lemma {:induction false} BurstFits(windows: Windows, call: Call, n: nat, from: int)
    requires call.key in windows && windows[call.key].resetAtMs > call.nowMs
    requires windows[call.key].count + n <= call.limit && from <= call.nowMs < from + WINDOW_MS
    ensures Ordered(call.nowMs, Burst(call, n)) && forall c :: c in Burst(call, n) ==> c == call
    ensures AllowedSince(Burst(call, n), RunKeeping(windows, Burst(call, n)), call.key, from) == n
    ensures After(windows, Burst(call, n))
         == windows[call.key := windows[call.key].(count := windows[call.key].count + n)]
  {
    if n > 0 {
      assert Keep(windows, call).1.allowed;
      BurstFits(Keep(windows, call).0, call, n - 1, from);
      hide AllowedSince, RunKeeping, Ordered, After;
      AllowedFirst(windows, call, Burst(call, n - 1), from);
    }
  }

  /** For every limit there is a run that gets `2*limit - 1` calls through in one window length. */
  lemma SlidingBoundIsReached(key: string, limit: nat) returns (calls: seq<Call>, from: int)
    requires limit >= 1
    ensures Ordered(0, calls) && LimitedTo(calls, key, limit)
    ensures AllowedSince(calls, Run(map[], calls), key, from) == 2 * limit - 1
  {
    from := 1;
    var early, late, later := Call(key, limit, 0), Call(key, limit, WINDOW_MS - 1), Call(key, limit, WINDOW_MS);
    var rest := Burst(late, limit - 1) + ([later] + Burst(later, limit - 1));
    var first := Keep(map[], early).0;
    TwoWindows(first, late, later, limit);
    calls := [early] + rest;
    assert calls[1..] == rest;
    assert RunKeeping(map[], calls)[1..] == RunKeeping(first, rest);
    PruningIsUnobservable(map[], 0, calls);
  }

  /** The rest of a window that one call opened, and the whole next window, in two milliseconds. */
  lemma TwoWindows(windows: Windows, late: Call, later: Call, limit: nat)
    requires limit >= 1 && late.limit == limit == later.limit && late.key == later.key && late.key in windows
    requires late.nowMs == WINDOW_MS - 1 && later.nowMs == WINDOW_MS
    requires windows[late.key] == WindowEntry(1, WINDOW_MS)
    ensures var calls := Burst(late, limit - 1) + ([later] + Burst(later, limit - 1));
            && Ordered(WINDOW_MS - 1, calls) && (forall call :: call in calls ==> call == late || call == later)
            && AllowedSince(calls, RunKeeping(windows, calls), late.key, 1) == 2 * limit - 1
  {
    hide Keep, AllowedSince, RunKeeping, Ordered, After, Burst;
    var ys, zs := Burst(late, limit - 1), [later] + Burst(later, limit - 1);
    BurstFits(windows, late, limit - 1, 1);
    NextWindowFits(After(windows, ys), later, limit, 1);
    RunAppend(windows, ys, zs);
    AllowedAppend(ys, RunKeeping(windows, ys), zs, RunKeeping(After(windows, ys), zs), late.key, 1);
    OrderedAppend(WINDOW_MS - 1, ys, zs, WINDOW_MS);
  }

  /** A burst of `limit` calls on an expired window is allowed in full. */
  lemma NextWindowFits(windows: Windows, call: Call, limit: nat, from: int)
    requires limit >= 1 && call.limit == limit && from <= call.nowMs < from + WINDOW_MS
    requires call.key in windows ==> windows[call.key].resetAtMs <= call.nowMs
    ensures var calls := [call] + Burst(call, limit - 1);
            && Ordered(call.nowMs, calls) && (forall c :: c in calls ==> c == call)
            && AllowedSince(calls, RunKeeping(windows, calls), call.key, from) == limit
  {
    hide AllowedSince, RunKeeping, Ordered, After, Burst;
    assert Keep(windows, call).1.allowed;
    BurstFits(Keep(windows, call).0, call, limit - 1, from);
    AllowedFirst(windows, call, Burst(call, limit - 1), from);
  }

  // ---------------------------------------------------------------------------
  // One window, call by call
  // ---------------------------------------------------------------------------

  /** How many of the calls are on the key. */
  function Uses(calls: seq<Call>, key: string): nat {
    if calls == [] then 0 else (if calls[0].key == key then 1 else 0) + Uses(calls[1..], key)
  }

  lemma {:induction false} OpenWindowCounts(windows: Windows, key: string, limit: nat, calls: seq<Call>, i: nat)
    requires limit >= 1 && key in windows && LimitedTo(calls, key, limit)
    requires forall call :: call in calls ==> call.nowMs < windows[key].resetAtMs
    requires i < |calls| && calls[i].key == key
    ensures var decision, uses := RunKeeping(windows, calls)[i], windows[key].count + Uses(calls[..i + 1], key);
            && (decision.allowed <==> uses <= limit)
            && decision.limit == limit && decision.remaining == (if uses <= limit then limit - uses else 0)
            && decision.resetAtMs == windows[key].resetAtMs
    decreases |calls|
  {
    assert calls[0] in calls;
    assert calls[..i + 1][1..] == calls[1..][..i];
    if i > 0 {
      OpenWindowCounts(Keep(windows, calls[0]).0, key, limit, calls[1..], i - 1);
    } else {
      assert Uses(calls[..1], key) == 1;
    }
  }

  lemma {:induction false} OpenWindowStays(windows: Windows, key: string, limit: nat, calls: seq<Call>)
    requires limit >= 1 && key in windows && LimitedTo(calls, key, limit)
    requires forall call :: call in calls ==> call.nowMs < windows[key].resetAtMs
    ensures key in After(windows, calls) && After(windows, calls)[key].resetAtMs == windows[key].resetAtMs
    decreases |calls|
  {
    if calls != [] {
      assert calls[0] in calls;
      OpenWindowStays(Keep(windows, calls[0]).0, key, limit, calls[1..]);
    }
  }

  /**
   A call on a key without a live window opens one for a minute: of the calls on the key in it, exactly the
   first `limit` are allowed, and each is told what remains and when the window ends.
   */
  lemma WindowIsExact(windows: Windows, calls: seq<Call>, i: nat)
    requires calls != [] && calls[0].limit >= 1 && LimitedTo(calls, calls[0].key, calls[0].limit)
    requires calls[0].key in windows ==> windows[calls[0].key].resetAtMs <= calls[0].nowMs
    requires Ordered(calls[0].nowMs, calls)
    requires forall call :: call in calls ==> call.nowMs <= calls[0].nowMs + 59_999
    requires i < |calls| && calls[i].key == calls[0].key
    ensures var decision, uses := Run(windows, calls)[i], Uses(calls[..i + 1], calls[0].key);
            && (decision.allowed <==> uses <= calls[0].limit)
            && decision.limit == calls[0].limit
            && decision.remaining == (if uses <= calls[0].limit then calls[0].limit - uses else 0)
            && decision.resetAtMs == calls[0].nowMs + 60_000
  {
    PruningIsUnobservable(windows, calls[0].nowMs, calls);
    var started := Keep(windows, calls[0]).0;
    assert calls[..i + 1][1..] == calls[1..][..i];
    if i > 0 {
      forall call | call in calls[1..] ensures call in calls {
      }
      OpenWindowCounts(started, calls[0].key, calls[0].limit, calls[1..], i - 1);
    } else {
      assert Uses(calls[..1], calls[0].key) == 1;
    }
  }

  /** And the first call on the key a minute after the opening one is allowed and opens the next window. */
  lemma NextWindowOpens(windows: Windows, calls: seq<Call>, next: Call)
    requires calls != [] && calls[0].limit >= 1 && LimitedTo(calls, calls[0].key, calls[0].limit)
    requires calls[0].key in windows ==> windows[calls[0].key].resetAtMs <= calls[0].nowMs
    requires Ordered(calls[0].nowMs, calls + [next])
    requires forall call :: call in calls ==> call.nowMs <= calls[0].nowMs + 59_999
    requires next.key == calls[0].key && next.limit == calls[0].limit && next.nowMs >= calls[0].nowMs + 60_000
    ensures var decision := Run(windows, calls + [next])[|calls|];
            && decision.allowed && decision.remaining == next.limit - 1
            && decision.resetAtMs == next.nowMs + 60_000
  {
    PruningIsUnobservable(windows, calls[0].nowMs, calls + [next]);
    RunAppend(windows, calls, [next]);
    forall call | call in calls[1..] ensures call in calls {
    }
    OpenWindowStays(Keep(windows, calls[0]).0, calls[0].key, calls[0].limit, calls[1..]);
    assert RunKeeping(After(windows, calls), [next])[0] == Keep(After(windows, calls), next).1;
  }

  /** A limit of zero or less means no limit, and is not counted. */
  lemma NoLimit(windows: Windows, call: Call)
    requires call.limit <= 0
    ensures Check(windows, call) == (windows, Decision(true, 0, 0, 0, 0))
  {
  }

  /** Windows of other keys that have expired are dropped exactly from 10 000 windows on. */
  lemma PruningStarts(windows: Windows, call: Call, key: string)
    requires call.limit > 0 && key in windows && key != call.key && windows[key].resetAtMs <= call.nowMs
    ensures key in Check(windows, call).0 <==> |windows| < 10_000
  {
  }

  // ---------------------------------------------------------------------------
  // Retry-after
  // ---------------------------------------------------------------------------

  lemma {:induction false} OthersLeaveKey(windows: Windows, key: string, others: seq<Call>)
    requires forall call :: call in others ==> call.key != key
    ensures key in After(windows, others) <==> key in windows
    ensures key in windows ==> After(windows, others)[key] == windows[key]
    decreases |others|
  {
    if others != [] {
      OthersLeaveKey(Keep(windows, others[0]).0, key, others[1..]);
    }
  }

  /**
   After a rejected call, the next call on the key is allowed exactly from the reset time on,
   whatever happens on other keys in between. Waiting `retryAfterSeconds` is enough, and waiting
   one second less is not.
   */
  lemma RetryAfterIsExact(windows: Windows, rejected: Call, others: seq<Call>, retry: Call)
    requires rejected.limit >= 1 && retry.key == rejected.key && retry.limit == rejected.limit
    requires forall call :: call in others ==> call.key != rejected.key
    requires Ordered(rejected.nowMs, [rejected] + others + [retry])
    requires !Run(windows, [rejected] + others + [retry])[0].allowed
    ensures var decisions := Run(windows, [rejected] + others + [retry]);
            var first, last := decisions[0], decisions[|decisions| - 1];
            && (last.allowed <==> retry.nowMs >= first.resetAtMs)
            && (retry.nowMs >= rejected.nowMs + 1_000 * first.retryAfterSeconds ==> last.allowed)
            && (retry.nowMs <= rejected.nowMs + 1_000 * (first.retryAfterSeconds - 1) ==> !last.allowed)
  {
    var calls := [rejected] + others + [retry];
    PruningIsUnobservable(windows, rejected.nowMs, calls);
    assert calls == [rejected] + (others + [retry]);
    var w1 := Keep(windows, rejected).0;
    assert calls[1..] == others + [retry];
    RunAppend(w1, others, [retry]);
    OthersLeaveKey(w1, rejected.key, others);
    var w2 := After(w1, others);
    assert RunKeeping(w2, [retry]) == [Keep(w2, retry).1];
  }
}
