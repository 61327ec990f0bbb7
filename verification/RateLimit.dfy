/** The fixed-window rate limiter, and the sliding-window bound it gives on every sequence of calls. */
module RateLimit {
  import opened Wrappers

  datatype Dimension = Token | App | Tenant

  datatype Rule = Rule(dimension: Dimension, limit: Option<nat>, windowMs: nat)

  const RULES: seq<Rule> :=
    [Rule(Token, Some(300), 60000), Rule(App, Some(2000), 60000), Rule(Tenant, Some(10000), 60000)]

  datatype Context = Context(tenantId: string, appId: string, apiTokenId: string)

  datatype Counter = Counter(count: nat, resetAt: int)

  datatype Decision = Decision(
    allowed: bool,
    dimension: Dimension,
    limit: Option<nat>,
    remaining: Option<nat>,
    resetAt: int,
    retryAfterSeconds: int)

  function IdFor(dimension: Dimension, context: Context): string {
    match dimension
    case Token => context.apiTokenId
    case App => context.appId
    case Tenant => context.tenantId
  }

  function BuildKey(dimension: Dimension, id: string): string {
    match dimension
    case Token => "token:" + id
    case App => "app:" + id
    case Tenant => "tenant:" + id
  }

  /** Keys of different dimensions, or of different ids, never collide. */
  lemma KeysAreDistinct(d: Dimension, id: string, d': Dimension, id': string)
    requires BuildKey(d, id) == BuildKey(d', id')
    ensures d == d' && id == id'
  {
    var key, key' := BuildKey(d, id), BuildKey(d', id');
    assert key[0] == key'[0] && key[1] == key'[1];
    var n := match d case Token => 6 case App => 4 case Tenant => 7;
    assert d == d';
    assert key[n..] == id && key'[n..] == id';
  }

  // The counter of a key after one more call.
  function Bump(counter: Option<Counter>, windowMs: nat, now: int): Counter {
    if counter.None? || counter.value.resetAt <= now then Counter(1, now + windowMs)
    else Counter(counter.value.count + 1, counter.value.resetAt)
  }

  // Rounds towards positive infinity, as Math.ceil does.
  function CeilDiv(a: int, b: int): int
    requires b > 0
  {
    (a + b - 1) / b
  }

  // ------------------------------------------------------ one key's history

  function CounterAfter(times: seq<int>, windowMs: nat): Option<Counter> {
    if times == [] then None
    else Some(Bump(CounterAfter(times[..|times| - 1], windowMs), windowMs, times[|times| - 1]))
  }

  ghost predicate NonDecreasing(times: seq<int>) {
    forall i, j | 0 <= i < j < |times| :: times[i] <= times[j]
  }

  // The last window opened with call j and holds every call since.
  ghost predicate OpenedAt(times: seq<int>, windowMs: nat, j: nat) {
    && j < |times|
    && CounterAfter(times, windowMs) == Some(Counter(|times| - j, times[j] + windowMs))
    && (forall i | j <= i < |times| :: times[i] < times[j] + windowMs)
    && (j > 0 ==> CounterAfter(times[..j], windowMs).value.resetAt <= times[j])
  }

  /** A counter equals the number of calls on its key since its window opened. */
  lemma {:induction false} CountsSinceOpening(times: seq<int>, windowMs: nat)
    requires times != [] && windowMs > 0 && NonDecreasing(times)
    ensures exists j: nat :: OpenedAt(times, windowMs, j)
  {
    var n := |times| - 1;
    if n == 0 {
      assert OpenedAt(times, windowMs, 0);
    } else {
      CountsSinceOpening(times[..n], windowMs);
      var j: nat :| OpenedAt(times[..n], windowMs, j);
      if times[j] + windowMs <= times[n] {
        assert OpenedAt(times, windowMs, n);
      } else {
        assert times[..n][..j] == times[..j];
        WindowGoesOn(times, windowMs, j);
      }
    }
  }

  lemma WindowGoesOn(times: seq<int>, windowMs: nat, j: nat)
    requires |times| > 1 && OpenedAt(times[..|times| - 1], windowMs, j) && times[..|times| - 1][..j] == times[..j]
    requires times[|times| - 1] < times[j] + windowMs
    ensures OpenedAt(times, windowMs, j)
  {
    assert forall i | j <= i < |times| - 1 :: times[i] == times[..|times| - 1][i];
  }

  // Calls of the history that were admitted at a time in [from, from + length).
  function Admitted(times: seq<int>, limit: nat, windowMs: nat, from: int, length: nat): nat {
    if times == [] then 0 else
    var now := times[|times| - 1];
    Admitted(times[..|times| - 1], limit, windowMs, from, length)
    + (if from <= now < from + length && CounterAfter(times, windowMs).value.count <= limit then 1 else 0)
  }

  function Min(a: nat, b: nat): nat {
    if a < b then a else b
  }

  // `windows` windows have seen a call in the interval; `outside` is 1 if the first of them opened before it, so that
  // its opening call is not one of those counted.
  ghost predicate Budget(
    times: seq<int>, limit: nat, windowMs: nat, from: int, length: nat, windows: nat, outside: nat)
  {
    var admitted := Admitted(times, limit, windowMs, from, length);
    if times == [] || times[|times| - 1] < from then windows == 0 && admitted == 0 else
    var counter := CounterAfter(times, windowMs).value;
    && windows >= 1 && outside <= 1 && counter.count >= 1
    && admitted + outside <= limit * (windows - 1) + Min(limit, counter.count)
    && counter.resetAt >= from + outside + windowMs * (windows - outside)
    && times[|times| - 1] < counter.resetAt <= times[|times| - 1] + windowMs
  }

  lemma Distribute(a: nat, b: nat)
    ensures a * (b + 1) == a * b + a
  {
  }

  lemma {:induction false} BudgetHolds(times: seq<int>, limit: nat, windowMs: nat, from: int, length: nat)
    returns (windows: nat, outside: nat)
    requires windowMs > 0 && limit > 0 && NonDecreasing(times)
    requires forall i | 0 <= i < |times| :: times[i] < from + length
    ensures Budget(times, limit, windowMs, from, length, windows, outside)
  {
    if times == [] {
      return 0, 0;
    }
    var n := |times| - 1;
    var before := times[..n];
    windows, outside := BudgetHolds(before, limit, windowMs, from, length);
    LastResetBound(before, windowMs);
    if times[n] < from {
      return;
    }
    var opens := before == [] || CounterAfter(before, windowMs).value.resetAt <= times[n];
    if windows == 0 {
      windows, outside := 1, if opens then 0 else 1;
    } else if opens {
      Distribute(limit, windows - 1);
      Distribute(windowMs, windows - outside);
      windows := windows + 1;
    }
  }

  lemma {:induction false} LastResetBound(times: seq<int>, windowMs: nat)
    requires NonDecreasing(times)
    ensures times != [] ==>
      CounterAfter(times, windowMs).value.resetAt <= times[|times| - 1] + windowMs
      && CounterAfter(times, windowMs).value.count >= 1
  {
    if |times| > 1 {
      LastResetBound(times[..|times| - 1], windowMs);
    }
  }

  lemma MulMonotone(a: nat, b: nat, c: nat)
    requires b <= c
    ensures a * b <= a * c
  {
  }

  /**
   The most calls of one key that any history admits in an interval of `length` milliseconds.  A window that opened
   before the interval has spent its opening call there; it gains nothing if the windows fit the interval exactly.
   */
  function MostAdmitted(limit: nat, windowMs: nat, length: nat): nat
    requires windowMs > 0
  {
    if limit == 0 || length == 0 then 0
    else if (length - 1) % windowMs == 0 then limit * CeilDiv(length, windowMs)
    else limit + limit * CeilDiv(length, windowMs) - 1
  }

  lemma BudgetSpent(windows: nat, outside: nat, admitted: nat, limit: nat, windowMs: nat, length: nat)
    requires windowMs > 0 && limit > 0 && windows >= 1 && outside <= 1 && length > 0
    requires admitted + outside <= limit * (windows - 1) + limit
    requires outside + windowMs * (windows - outside) < length + windowMs
    ensures admitted <= MostAdmitted(limit, windowMs, length)
  {
    var ceil := CeilDiv(length, windowMs);
    Distribute(limit, windows - 1);
    if windows > outside {
      Distribute(windowMs, windows - outside - 1);
      WindowsFit(windows - outside - 1, outside, windowMs, length);
    }
    if windows <= ceil {
      MulMonotone(limit, windows, ceil);
    } else {
      Distribute(limit, ceil);
    }
  }

  // Whole windows that fit below the interval's length, or one less.
  lemma WindowsFit(k: nat, outside: nat, windowMs: nat, length: nat)
    requires windowMs > 0 && length > 0 && outside <= 1 && outside + windowMs * k < length
    ensures k < CeilDiv(length, windowMs)
    ensures outside == 1 && (length - 1) % windowMs == 0 ==> k + 1 < CeilDiv(length, windowMs)
  {
    var q, r := (length - 1) / windowMs, (length - 1) % windowMs;
    assert CeilDiv(length, windowMs) == q + 1 by { CeilIsNext(length, windowMs); }
    assert length - 1 == windowMs * q + r;
    Distribute(windowMs, q);
    if k > q {
      MulMonotone(windowMs, q + 1, k);
    }
    if k == q && r == 0 {
      assert windowMs * k == length - 1;
    }
  }

  lemma CeilIsNext(length: nat, windowMs: nat)
    requires windowMs > 0 && length > 0
    ensures CeilDiv(length, windowMs) == (length - 1) / windowMs + 1
  {
    var q, r := (length - 1) / windowMs, (length - 1) % windowMs;
    assert length + windowMs - 1 == windowMs * (q + 1) + r by { Distribute(windowMs, q); }
    QuotientIs(length + windowMs - 1, windowMs, q + 1, r);
  }

  lemma QuotientIs(a: nat, b: nat, q: nat, r: nat)
    requires r < b && a == b * q + r
    ensures a / b == q
  {
    var d := a / b;
    assert a == b * d + a % b;
    if d < q {
      MulMonotone(b, d + 1, q);
      Distribute(b, d);
    } else if d > q {
      MulMonotone(b, q + 1, d);
      Distribute(b, q);
    }
  }

  lemma {:induction false} LaterCallsDoNotCount(
    times: seq<int>, n: nat, limit: nat, windowMs: nat, from: int, length: nat)
    requires n <= |times| && forall i | n <= i < |times| :: from + length <= times[i]
    ensures Admitted(times, limit, windowMs, from, length) == Admitted(times[..n], limit, windowMs, from, length)
  {
    if n == |times| {
      assert times[..n] == times;
    } else {
      var m := |times| - 1;
      LaterCallsDoNotCount(times[..m], n, limit, windowMs, from, length);
      assert times[..m][..n] == times[..n];
    }
  }

  lemma {:induction false} SplitAt(times: seq<int>, bound: int) returns (n: nat)
    requires NonDecreasing(times)
    ensures n <= |times|
    ensures forall i | 0 <= i < n :: times[i] < bound
    ensures forall i | n <= i < |times| :: bound <= times[i]
  {
    if times == [] || times[|times| - 1] < bound {
      n := |times|;
    } else {
      n := SplitAt(times[..|times| - 1], bound);
    }
  }

  /** No interval of `length` milliseconds admits more calls of a key than MostAdmitted says. */
  lemma NoneAdmitMore(times: seq<int>, limit: nat, windowMs: nat, from: int, length: nat)
    requires windowMs > 0 && NonDecreasing(times)
    ensures Admitted(times, limit, windowMs, from, length) <= MostAdmitted(limit, windowMs, length)
  {
    if limit == 0 || length == 0 {
      NothingAdmitted(times, limit, windowMs, from, length);
      return;
    }
    var n := SplitAt(times, from + length);
    LaterCallsDoNotCount(times, n, limit, windowMs, from, length);
    var windows, outside := BudgetHolds(times[..n], limit, windowMs, from, length);
    if windows >= 1 {
      BudgetSpent(windows, outside, Admitted(times, limit, windowMs, from, length), limit, windowMs, length);
    }
  }

  /** The most there can be stays below limit * (ceil(length / window) + 1). */
  lemma SlidingWindowBound(times: seq<int>, limit: nat, windowMs: nat, from: int, length: nat)
    requires windowMs > 0 && limit > 0 && length > 0 && NonDecreasing(times)
    ensures Admitted(times, limit, windowMs, from, length) < limit * (CeilDiv(length, windowMs) + 1)
  {
    NoneAdmitMore(times, limit, windowMs, from, length);
    CeilIsNext(length, windowMs);
    Distribute(limit, CeilDiv(length, windowMs));
  }

  /** In particular no stretch as long as a window admits twice the limit. */
  lemma UnderTwiceTheLimit(times: seq<int>, limit: nat, windowMs: nat, from: int)
    requires windowMs > 0 && limit > 0 && NonDecreasing(times)
    ensures Admitted(times, limit, windowMs, from, windowMs) <= 2 * limit - 1
  {
    SlidingWindowBound(times, limit, windowMs, from, windowMs);
    assert CeilDiv(windowMs, windowMs) == 1;
  }

  /** A limit of zero admits nothing, and neither does an empty interval. */
  lemma {:induction false} NothingAdmitted(times: seq<int>, limit: nat, windowMs: nat, from: int, length: nat)
    requires (limit == 0 || length == 0) && NonDecreasing(times)
    ensures Admitted(times, limit, windowMs, from, length) == 0
  {
    if times == [] {
    } else {
      NothingAdmitted(times[..|times| - 1], limit, windowMs, from, length);
      LastResetBound(times, windowMs);
    }
  }

  // --------------------------------------------------- a history that admits as many

  // Calls so far, in order and none after `now`.
  ghost predicate UpTo(times: seq<int>, now: int) {
    NonDecreasing(times) && (times != [] ==> times[|times| - 1] <= now)
  }

  lemma OneMoreCall(times: seq<int>, now: int, limit: nat, windowMs: nat, from: int, length: nat)
    requires UpTo(times, now)
    ensures UpTo(times + [now], now)
    ensures CounterAfter(times + [now], windowMs) == Some(Bump(CounterAfter(times, windowMs), windowMs, now))
    ensures var allowed := Bump(CounterAfter(times, windowMs), windowMs, now).count <= limit;
      Admitted(times + [now], limit, windowMs, from, length)
      == Admitted(times, limit, windowMs, from, length) + (if from <= now < from + length && allowed then 1 else 0)
  {
    assert (times + [now])[..|times|] == times;
    forall i, j | 0 <= i < j < |times + [now]| ensures (times + [now])[i] <= (times + [now])[j] {
      assert i < |times| - 1 ==> times[i] <= times[|times| - 1];
    }
  }

  // `n` calls at one instant of an open window.
  lemma {:induction false} Burst(
    times: seq<int>, counter: Counter, now: int, n: nat, limit: nat, windowMs: nat, from: int, length: nat)
    returns (longer: seq<int>)
    requires UpTo(times, now) && CounterAfter(times, windowMs) == Some(counter) && now < counter.resetAt
    requires from <= now < from + length && counter.count + n <= limit
    ensures UpTo(longer, now)
    ensures CounterAfter(longer, windowMs) == Some(Counter(counter.count + n, counter.resetAt))
    ensures Admitted(longer, limit, windowMs, from, length) == Admitted(times, limit, windowMs, from, length) + n
  {
    if n == 0 {
      longer := times;
    } else {
      longer := Burst(times, counter, now, n - 1, limit, windowMs, from, length);
      OneMoreCall(longer, now, limit, windowMs, from, length);
      longer := longer + [now];
    }
  }

  // The next call opens a window.
  ghost predicate Opens(times: seq<int>, windowMs: nat, now: int) {
    UpTo(times, now) && (times != [] ==> CounterAfter(times, windowMs).value.resetAt <= now)
  }

  lemma FullWindow(times: seq<int>, now: int, limit: nat, windowMs: nat, from: int, length: nat)
    returns (longer: seq<int>)
    requires windowMs > 0 && limit > 0 && Opens(times, windowMs, now) && from <= now < from + length
    ensures Opens(longer, windowMs, now + windowMs)
    ensures Admitted(longer, limit, windowMs, from, length) == Admitted(times, limit, windowMs, from, length) + limit
  {
    OneMoreCall(times, now, limit, windowMs, from, length);
    longer := Burst(times + [now], Counter(1, now + windowMs), now, limit - 1, limit, windowMs, from, length);
  }

  // `n` windows in a row, each filled at the instant it opens.
  lemma {:induction false} FullWindows(
    times: seq<int>, start: int, n: nat, limit: nat, windowMs: nat, from: int, length: nat)
    returns (longer: seq<int>)
    requires windowMs > 0 && limit > 0 && Opens(times, windowMs, start)
    requires from <= start && (n > 0 ==> start + windowMs * (n - 1) < from + length)
    ensures Opens(longer, windowMs, start + windowMs * n)
    ensures Admitted(longer, limit, windowMs, from, length)
      == Admitted(times, limit, windowMs, from, length) + limit * n
  {
    if n == 0 {
      longer := times;
    } else {
      if n > 1 {
        MulMonotone(windowMs, n - 2, n - 1);
      }
      longer := FullWindows(times, start, n - 1, limit, windowMs, from, length);
      var now := start + windowMs * (n - 1);
      longer := FullWindow(longer, now, limit, windowMs, from, length);
      Distribute(windowMs, n - 1);
      Distribute(limit, n - 1);
    }
  }

  /** For every limit, window and length some history admits the most in some interval of that length. */
  lemma MostIsReached(limit: nat, windowMs: nat, length: nat) returns (times: seq<int>, from: int)
    requires windowMs > 0
    ensures NonDecreasing(times)
    ensures Admitted(times, limit, windowMs, from, length) == MostAdmitted(limit, windowMs, length)
  {
    if limit == 0 || length == 0 {
      return [], 0;
    }
    var ceil := CeilDiv(length, windowMs);
    CeilIsNext(length, windowMs);
    if (length - 1) % windowMs == 0 {
      from := 0;
      times := FullWindows([], 0, ceil, limit, windowMs, from, length);
    } else {
      from := windowMs - 1;
      OneMoreCall([], 0, limit, windowMs, from, length);
      assert [] + [0] == [0];
      times := Burst([0], Counter(1, windowMs), from, limit - 1, limit, windowMs, from, length);
      times := FullWindows(times, windowMs, ceil, limit, windowMs, from, length);
    }
  }

  // ------------------------------------------------------------ the service

  datatype Call = Call(rule: Rule, id: string, now: int)

  function KeyOf(call: Call): string {
    BuildKey(call.rule.dimension, call.id)
  }

  // The times of the calls made on one key.
  ghost function TimesOf(history: seq<Call>, key: string): seq<int> {
    if history == [] then [] else
    var last := history[|history| - 1];
    var before := TimesOf(history[..|history| - 1], key);
    if KeyOf(last) == key then before + [last.now] else before
  }

  // The decision on a call that left its key's counter like this.
  ghost predicate Decides(decision: Decision, rule: Rule, counter: Counter, now: int) {
    && now < counter.resetAt
    && decision.dimension == rule.dimension && decision.limit == rule.limit && decision.resetAt == counter.resetAt
    && (decision.allowed <==> rule.limit.None? || counter.count <= rule.limit.value)
    && (decision.remaining.Some? <==> rule.limit.Some?)
    && (rule.limit.Some? ==> decision.remaining.value + Min(counter.count, rule.limit.value) == rule.limit.value)
    && decision.retryAfterSeconds >= 1
    && forall seconds: int :: counter.resetAt <= now + 1000 * seconds <==> decision.retryAfterSeconds <= seconds
  }

  /** Field by field: the count decides; the wait is the least whole number of seconds, at least one, that is enough. */
  lemma DecisionFields(decision: Decision, rule: Rule, counter: Counter, now: int)
    requires Decides(decision, rule, counter, now)
    ensures decision.allowed <==> rule.limit.None? || counter.count <= rule.limit.value
    ensures decision.dimension == rule.dimension && decision.limit == rule.limit && decision.resetAt == counter.resetAt
    ensures rule.limit.None? ==> decision.remaining == None
    ensures rule.limit.Some? && counter.count <= rule.limit.value ==>
      decision.remaining == Some(rule.limit.value - counter.count)
    ensures rule.limit.Some? && counter.count > rule.limit.value ==> decision.remaining == Some(0)
    ensures decision.retryAfterSeconds >= 1
    ensures counter.resetAt <= now + 1000 * decision.retryAfterSeconds
    ensures now + 1000 * (decision.retryAfterSeconds - 1) < counter.resetAt
  {
    assert counter.resetAt <= now + 1000 * decision.retryAfterSeconds <==>
      decision.retryAfterSeconds <= decision.retryAfterSeconds;
    assert counter.resetAt <= now + 1000 * (decision.retryAfterSeconds - 1) <==>
      decision.retryAfterSeconds <= decision.retryAfterSeconds - 1;
  }

  /** Each dimension counts by its own id: the token's, the app's, the tenant's. */
  lemma DimensionsCount(context: Context)
    ensures BuildKey(Token, IdFor(Token, context)) == "token:" + context.apiTokenId
    ensures BuildKey(App, IdFor(App, context)) == "app:" + context.appId
    ensures BuildKey(Tenant, IdFor(Tenant, context)) == "tenant:" + context.tenantId
  {
  }

  /** A call counts on the key of its dimension and id, and on no other. */
  lemma CallsCount(history: seq<Call>, call: Call, key: string)
    ensures TimesOf(history + [call], BuildKey(call.rule.dimension, call.id))
      == TimesOf(history, BuildKey(call.rule.dimension, call.id)) + [call.now]
    ensures key != BuildKey(call.rule.dimension, call.id) ==>
      TimesOf(history + [call], key) == TimesOf(history, key)
  {
    assert (history + [call])[..|history|] == history;
  }

  const WINDOW_MS: nat := 60000

  class RateLimitService {
    const rules: seq<Rule>
    var counters: map<string, Counter>
    ghost var history: seq<Call>

    // Each counter is the one its key's own history determines.
    ghost predicate Valid()
      reads this
    {
      && (forall key: string :: Stored(key) == CounterAfter(TimesOf(history, key), WINDOW_MS))
      && (forall i | 0 <= i < |rules| :: rules[i].windowMs == WINDOW_MS)
    }

    function Stored(key: string): Option<Counter>
      reads this
    {
      if key in counters then Some(counters[key]) else None
    }

    constructor ()
      ensures Valid() && history == [] && rules == RULES
      ensures rules
        == [Rule(Token, Some(300), 60_000), Rule(App, Some(2_000), 60_000), Rule(Tenant, Some(10_000), 60_000)]
    {
      rules := RULES;
      counters, history := map[], [];
    }

    method Consume(rule: Rule, context: Context, now: int) returns (decision: Decision)
      requires Valid() && rule in rules
      modifies this
      ensures Valid() && history == old(history) + [Call(rule, IdFor(rule.dimension, context), now)]
      ensures var key := BuildKey(rule.dimension, IdFor(rule.dimension, context));
        var counter := CounterAfter(TimesOf(history, key), rule.windowMs);
        counter.Some? && Decides(decision, rule, counter.value, now)
    {
      var id := IdFor(rule.dimension, context);
      var key := BuildKey(rule.dimension, id);
      ghost var was := Stored(key);
      var state :=
        if key in counters && counters[key].resetAt > now then counters[key] else Counter(0, now + rule.windowMs);
      state := state.(count := state.count + 1);
      assert state == Bump(was, rule.windowMs, now);
      counters := counters[key := state];
      ghost var call := Call(rule, id, now);
      assert (history + [call])[..|history|] == history;
      history := history + [call];
      assert CounterAfter(TimesOf(history, key), WINDOW_MS) == Some(state);
      decision := Decide(rule, state, now);
    }

    // One call of Date.now per rule.
    method Evaluate(context: Context, clock: seq<int>) returns (decisions: seq<Decision>)
      requires Valid() && |clock| == |rules|
      modifies this
      ensures Valid() && history == old(history) + CallsOf(rules, context, clock)
      ensures AllDecided(old(history), rules, context, clock, decisions)
    {
      decisions := [];
      for i := 0 to |rules|
        invariant Valid() && history == old(history) + CallsOf(rules[..i], context, clock[..i])
        invariant AllDecided(old(history), rules[..i], context, clock[..i], decisions)
      {
        var decision := Consume(rules[i], context, clock[i]);
        OneMoreDecided(old(history), rules, context, clock, decisions, i, decision);
        decisions := decisions + [decision];
      }
      assert rules[..|rules|] == rules && clock[..|rules|] == clock;
    }
  }

  function CallsOf(rules: seq<Rule>, context: Context, clock: seq<int>): seq<Call>
    requires |clock| == |rules|
  {
    if rules == [] then [] else
    var n := |rules| - 1;
    CallsOf(rules[..n], context, clock[..n]) + [Call(rules[n], IdFor(rules[n].dimension, context), clock[n])]
  }

  // The decision on the last call of a history.
  ghost predicate Settles(history: seq<Call>, decision: Decision) {
    && history != []
    && var last := history[|history| - 1];
      var counter := CounterAfter(TimesOf(history, KeyOf(last)), last.rule.windowMs);
      counter.Some? && Decides(decision, last.rule, counter.value, last.now)
  }

  // Every rule got the decision on its own call, made after those of the rules before it.
  ghost predicate AllDecided(
    before: seq<Call>, rules: seq<Rule>, context: Context, clock: seq<int>, decisions: seq<Decision>)
    requires |clock| == |rules|
  {
    && |decisions| == |rules|
    && (rules != [] ==>
      var n := |rules| - 1;
      && AllDecided(before, rules[..n], context, clock[..n], decisions[..n])
      && Settles(before + CallsOf(rules, context, clock), decisions[n]))
  }

  lemma OneMoreDecided(
    before: seq<Call>, rules: seq<Rule>, context: Context, clock: seq<int>, decisions: seq<Decision>, i: nat,
    decision: Decision)
    requires |clock| == |rules| && i < |rules| && AllDecided(before, rules[..i], context, clock[..i], decisions)
    ensures var call := Call(rules[i], IdFor(rules[i].dimension, context), clock[i]);
      var calls := before + CallsOf(rules[..i], context, clock[..i]) + [call];
      && calls == before + CallsOf(rules[..i + 1], context, clock[..i + 1])
      && (Settles(calls, decision) ==>
            AllDecided(before, rules[..i + 1], context, clock[..i + 1], decisions + [decision]))
  {
    assert rules[..i + 1][..i] == rules[..i] && clock[..i + 1][..i] == clock[..i];
    assert (decisions + [decision])[..i] == decisions;
  }

  function Decide(rule: Rule, state: Counter, now: int): (decision: Decision)
    requires now < state.resetAt
    ensures Decides(decision, rule, state, now)
  {
    var wait := CeilDiv(state.resetAt - now, 1000);
    Decision(
      rule.limit.None? || state.count <= rule.limit.value,
      rule.dimension,
      rule.limit,
      if rule.limit.None? then None
      else Some(if rule.limit.value < state.count then 0 else rule.limit.value - state.count),
      state.resetAt,
      if wait < 1 then 1 else wait)
  }
}
