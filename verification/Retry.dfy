/** src/retry.rs: one retry budget shared by every call nested in an operation,
    and the deadlines that nesting hands down.  Times are milliseconds on a clock
    that never goes back; jitter is any value in its range. */
module Retry {
  import opened Errors

  const MAX_RETRIES: nat := 16
  const MAX_ELAPSED: nat := 60000
  const BASE_MS: nat := 200
  const CAP_MS: nat := 5000

  function Pow2(n: nat): nat {
    if n == 0 then 1 else 2 * Pow2(n - 1)
  }

  /** The exclusive upper bound of the delay before retry number `attempt`. */
  function Maximum(attempt: nat): nat {
    var grown := BASE_MS * Pow2(attempt);
    if grown < CAP_MS then grown else CAP_MS
  }

  /** Task-local: the budget and caller deadline. */
  datatype Budget = Budget(id: nat, deadline: nat)
  datatype Env = Env(budget: Option<Budget>, caller: Option<nat>)

  function Min(a: nat, b: nat): nat { if a <= b then a else b }

  /** `cap_deadline`. */
  function Cap(env: Env, deadline: nat): nat {
    var bounded := if env.budget.Some? then Min(deadline, env.budget.value.deadline) else deadline;
    if env.caller.Some? then Min(bounded, env.caller.value) else bounded
  }

  datatype Exhaustion = Deadline | RetryLimit | Interrupted

  /** One `backoff` call; `limit` is its effective deadline. */
  datatype Call =
    | Entered(limit: nat)
    | InTime(limit: nat, checked: nat)
    | Drawn(limit: nat, checked: nat, attempt: nat, wait: nat)
    | Sleeping(limit: nat, checked: nat, attempt: nat, claimed: nat, wait: nat)
    | Granted(limit: nat, checked: nat, attempt: nat, claimed: nat, wait: nat, at: nat)
    | Refused(limit: nat, reason: Exhaustion)

  /** A budget in use: its deadline, its counter, the clock, the calls on it, and
      the delays drawn so far in the order of their retry numbers. */
  datatype State = State(deadline: nat, retries: nat, now: nat, calls: map<nat, Call>, waits: seq<nat>)

  datatype Action =
    | Enter(c: nat, env: Env) | Check(c: nat) | Claim(c: nat, wait: nat) | Doze(c: nat)
    | Wake(c: nat) | Interrupt(c: nat) | Tick(elapsed: nat)

  predicate Enabled(s: State, a: Action) {
    match a
    case Enter(c, _) => c !in s.calls
    case Check(c) => c in s.calls && s.calls[c].Entered?
    case Claim(c, wait) => c in s.calls && s.calls[c].InTime? && Maximum(s.retries) / 2 <= wait < Maximum(s.retries)
    case Doze(c) => c in s.calls && s.calls[c].Drawn?
    case Wake(c) =>
      && c in s.calls && s.calls[c].Sleeping?
      && (s.calls[c].claimed + s.calls[c].wait <= s.now || s.calls[c].limit <= s.now)
    case Interrupt(c) => c in s.calls && s.calls[c].Sleeping?
    case Tick(_) => true
  }

  function Apply(s: State, a: Action): State
    requires Enabled(s, a)
  {
    match a
    case Enter(c, env) => s.(calls := s.calls[c := Entered(Cap(env, s.deadline))])
    case Check(c) =>
      var limit := s.calls[c].limit;
      s.(calls := s.calls[c := if limit <= s.now then Refused(limit, Deadline) else InTime(limit, s.now)])
    case Claim(c, wait) =>
      if s.retries < MAX_RETRIES then
        s.(retries := s.retries + 1, waits := s.waits + [wait],
           calls := s.calls[c := Drawn(s.calls[c].limit, s.calls[c].checked, s.retries, wait)])
      else s.(calls := s.calls[c := Refused(s.calls[c].limit, RetryLimit)])
    case Doze(c) =>
      var call := s.calls[c];
      s.(calls := s.calls[c := Sleeping(call.limit, call.checked, call.attempt, s.now, call.wait)])
    case Wake(c) =>
      var call := s.calls[c];
      s.(calls := s.calls[c := if call.limit <= s.now then Refused(call.limit, Deadline)
                               else Granted(call.limit, call.checked, call.attempt, call.claimed, call.wait, s.now)])
    case Interrupt(c) => s.(calls := s.calls[c := Refused(s.calls[c].limit, Interrupted)])
    case Tick(elapsed) => s.(now := s.now + elapsed)
  }

  ghost predicate Legal(s: State, run: seq<Action>)
    decreases |run|
  {
    run != [] ==> Enabled(s, run[0]) && Legal(Apply(s, run[0]), run[1..])
  }

  ghost function After(s: State, run: seq<Action>): State
    requires Legal(s, run)
    decreases |run|
  {
    if run == [] then s else After(Apply(s, run[0]), run[1..])
  }

  ghost predicate Claimed(call: Call) {
    call.Drawn? || call.Sleeping? || call.Granted?
  }

  ghost predicate CallOk(s: State, call: Call) {
    && call.limit <= s.deadline
    && (call.InTime? || Claimed(call) ==> call.checked < call.limit)
    && (Claimed(call) ==> call.attempt < |s.waits| && call.wait == s.waits[call.attempt])
    && (call.Granted? ==> call.claimed + call.wait <= call.at < call.limit)
    && (call.Refused? && call.reason.Deadline? ==> call.limit <= s.now)
    && (call.Refused? && call.reason.RetryLimit? ==> |s.waits| == MAX_RETRIES)
  }

  ghost predicate Inv(s: State) {
    && s.retries == |s.waits| && s.retries <= MAX_RETRIES
    && (forall i | 0 <= i < |s.waits| :: Maximum(i) / 2 <= s.waits[i] < Maximum(i))
    && (forall c <- s.calls :: CallOk(s, s.calls[c]))
    && (forall c <- s.calls, d <- s.calls :: Claimed(s.calls[c]) && Claimed(s.calls[d]) && c != d ==>
          s.calls[c].attempt != s.calls[d].attempt)
  }

  lemma CallKept(s: State, a: Action, d: nat)
    requires Inv(s) && Enabled(s, a) && d in Apply(s, a).calls
    ensures CallOk(Apply(s, a), Apply(s, a).calls[d])
  {
    hide Maximum;
    assert d in s.calls ==> CallOk(s, s.calls[d]);
  }

  lemma InvKept(s: State, a: Action)
    requires Inv(s) && Enabled(s, a)
    ensures Inv(Apply(s, a)) && Apply(s, a).deadline == s.deadline
  {
    hide Maximum, CallOk;
    forall d | d in Apply(s, a).calls ensures CallOk(Apply(s, a), Apply(s, a).calls[d]) {
      CallKept(s, a, d);
    }
    NumbersBelow(s);
  }

  lemma NumbersBelow(s: State)
    requires Inv(s)
    ensures forall c <- s.calls :: Claimed(s.calls[c]) ==> s.calls[c].attempt < s.retries
  {
    forall c | c in s.calls ensures CallOk(s, s.calls[c]) { }
  }

  lemma {:induction false} InvAfter(s: State, run: seq<Action>)
    requires Inv(s) && Legal(s, run)
    ensures Inv(After(s, run)) && After(s, run).deadline == s.deadline
    decreases |run|
  {
    hide Inv, Apply, Enabled;
    if run != [] {
      InvKept(s, run[0]);
      InvAfter(Apply(s, run[0]), run[1..]);
    }
  }

  ghost function Sum(xs: seq<nat>): nat {
    if xs == [] then 0 else Sum(xs[..|xs| - 1]) + xs[|xs| - 1]
  }

  ghost function SumMaximum(n: nat): nat {
    if n == 0 then 0 else SumMaximum(n - 1) + Maximum(n - 1)
  }

  lemma {:induction false} WaitsBounded(waits: seq<nat>)
    requires forall i | 0 <= i < |waits| :: waits[i] < Maximum(i)
    ensures Sum(waits) + |waits| <= SumMaximum(|waits|)
  {
    hide Maximum;
    if waits != [] {
      var init := waits[..|waits| - 1];
      assert forall i | 0 <= i < |init| :: init[i] == waits[i];
      WaitsBounded(init);
    }
  }

  lemma {:induction false} Pow2Grows(n: nat)
    requires n >= 5
    ensures Pow2(n) >= 32
  {
    if n == 5 {
      assert Pow2(2) == 4 && Pow2(4) == 16;
    } else {
      Pow2Grows(n - 1);
    }
  }

  lemma {:induction false} SumMaximumIs(n: nat)
    requires n >= 5
    ensures SumMaximum(n) == 6200 + CAP_MS * (n - 5)
  {
    if n == 5 {
      assert Pow2(0) == 1 && Pow2(1) == 2 && Pow2(2) == 4 && Pow2(3) == 8 && Pow2(4) == 16;
      assert SumMaximum(1) == 200 && SumMaximum(2) == 600 && SumMaximum(3) == 1400 && SumMaximum(4) == 3000;
    } else {
      SumMaximumIs(n - 1);
      Pow2Grows(n - 1);
    }
  }

  lemma {:induction false} SumMaximumMonotone(n: nat, m: nat)
    requires n <= m
    ensures SumMaximum(n) <= SumMaximum(m)
  {
    hide Maximum;
    if n < m { SumMaximumMonotone(n, m - 1); }
  }

  /** Calls that use distinct retry numbers below `n` are at most `n`. */
  lemma {:induction false} Pigeonhole(calls: map<nat, Call>, chosen: set<nat>, n: nat)
    requires forall c <- chosen :: c in calls && Claimed(calls[c]) && calls[c].attempt < n
    requires forall c <- chosen, d <- chosen ::
      c in calls && d in calls && Claimed(calls[c]) && Claimed(calls[d]) && c != d ==>
      calls[c].attempt != calls[d].attempt
    ensures |chosen| <= n
  {
    if n == 0 {
      assert chosen == {};
    } else if c :| c in chosen && calls[c].attempt == n - 1 {
      Pigeonhole(calls, chosen - {c}, n - 1);
    } else {
      Pigeonhole(calls, chosen, n - 1);
    }
  }

  ghost function Grants(s: State): set<nat> {
    set c | c in s.calls && s.calls[c].Granted?
  }

  /** However the calls on one budget interleave: at most sixteen are granted, all
      delays drawn together stay under 61.2 seconds, and a granted call has slept
      its whole delay and returned before its effective deadline.  A retry number is
      spent only by a call that was in time, and a refusal is
      justified: the deadline has passed or all sixteen retries are taken. */
  lemma BudgetBounds(s: State, run: seq<Action>)
    requires s.retries == 0 && s.calls == map[] && s.waits == [] && Legal(s, run)
    ensures var e := After(s, run);
      && |Grants(e)| <= MAX_RETRIES
      && Sum(e.waits) < 61200
      && (forall c <- Grants(e) ::
            e.calls[c].claimed + e.calls[c].wait <= e.calls[c].at < e.calls[c].limit <= s.deadline)
      && (forall c <- Grants(e) :: Maximum(e.calls[c].attempt) / 2 <= e.calls[c].wait < Maximum(e.calls[c].attempt))
      && (forall c <- e.calls :: Claimed(e.calls[c]) ==> e.calls[c].checked < e.calls[c].limit)
      && (forall c <- e.calls :: e.calls[c].Refused? ==>
            match e.calls[c].reason
            case Deadline => e.calls[c].limit <= e.now
            case RetryLimit => |e.waits| == MAX_RETRIES
            case Interrupted => true)
  {
    hide Inv, After, Legal, Maximum, Sum, Grants;
    InvInitially(s);
    InvAfter(s, run);
    var e := After(s, run);
    FewGrants(e);
    ShortWaits(e);
    GrantsAreCalls(e);
    forall c | c in e.calls ensures CallOk(e, e.calls[c]) && DrawnInRange(e.calls[c]) { CallTold(e, c); }
  }

  lemma InvInitially(s: State)
    requires s.retries == 0 && s.calls == map[] && s.waits == []
    ensures Inv(s)
  {
  }

  lemma GrantsAreCalls(s: State)
    ensures forall c <- Grants(s) :: c in s.calls && s.calls[c].Granted?
  {
  }

  lemma FewGrants(s: State)
    requires Inv(s)
    ensures |Grants(s)| <= MAX_RETRIES
  {
    hide Maximum, CallOk;
    NumbersBelow(s);
    Pigeonhole(s.calls, Grants(s), s.retries);
  }

  lemma ShortWaits(s: State)
    requires Inv(s)
    ensures Sum(s.waits) < 61200
  {
    hide Maximum, CallOk, Claimed;
    WaitsBounded(s.waits);
    SumMaximumMonotone(|s.waits|, MAX_RETRIES);
    SumMaximumIs(MAX_RETRIES);
    assert |s.waits| > 0 || Sum(s.waits) == 0;
  }

  ghost predicate DrawnInRange(call: Call) {
    Claimed(call) ==> Maximum(call.attempt) / 2 <= call.wait < Maximum(call.attempt)
  }

  lemma CallTold(s: State, c: nat)
    requires Inv(s) && c in s.calls
    ensures CallOk(s, s.calls[c]) && DrawnInRange(s.calls[c])
  {
    hide Maximum;
    assert CallOk(s, s.calls[c]);
  }

  // What one call comes to.

  lemma NoSteps(s: State)
    ensures Legal(s, []) && After(s, []) == s
  {
  }

  lemma {:induction false} AfterAppend(s: State, run: seq<Action>, a: Action)
    requires Legal(s, run) && Enabled(After(s, run), a)
    ensures Legal(s, run + [a]) && After(s, run + [a]) == Apply(After(s, run), a)
    decreases |run|
  {
    hide Enabled, Apply;
    if run == [] {
      assert ([a])[1..] == [] && [] + [a] == [a];
    } else {
      AfterAppend(Apply(s, run[0]), run[1..], a);
      assert (run + [a])[1..] == run[1..] + [a];
    }
  }

  /** The call is made, checks its deadline and draws a delay. */
  lemma Draws(s: State, c: nat, env: Env, wait: nat) returns (run: seq<Action>)
    requires c !in s.calls && s.now < Cap(env, s.deadline)
    requires Maximum(s.retries) / 2 <= wait < Maximum(s.retries)
    ensures Legal(s, run) && (forall a <- run :: !a.Tick?)
    ensures var limit := Cap(env, s.deadline);
      After(s, run) ==
      if s.retries < MAX_RETRIES
      then s.(retries := s.retries + 1, waits := s.waits + [wait],
              calls := s.calls[c := Drawn(limit, s.now, s.retries, wait)])
      else s.(calls := s.calls[c := Refused(limit, RetryLimit)])
  {
    hide Legal, After, Maximum, Cap;
    NoSteps(s);
    AfterAppend(s, [], Enter(c, env));
    AfterAppend(s, [] + [Enter(c, env)], Check(c));
    AfterAppend(s, [] + [Enter(c, env)] + [Check(c)], Claim(c, wait));
    run := [] + [Enter(c, env)] + [Check(c)] + [Claim(c, wait)];
  }

  /** A call that nobody disturbs, made in time on a budget in any state: it is refused at
      once if and only if all sixteen retries are taken; otherwise it sleeps until its
      delay is over or its deadline is reached, and is granted if and only if the delay
      is over first. */
  lemma UndisturbedCall(s: State, c: nat, env: Env, wait: nat) returns (run: seq<Action>)
    requires c !in s.calls && s.now < Cap(env, s.deadline)
    requires Maximum(s.retries) / 2 <= wait < Maximum(s.retries)
    ensures Legal(s, run) && c in After(s, run).calls
    ensures var limit, e := Cap(env, s.deadline), After(s, run);
      if s.retries >= MAX_RETRIES then e.calls[c] == Refused(limit, RetryLimit) && e.now == s.now
      else if s.now + wait < limit then
        e.calls[c] == Granted(limit, s.now, s.retries, s.now, wait, s.now + wait) && e.now == s.now + wait
      else e.calls[c] == Refused(limit, Deadline) && e.now == limit
  {
    hide Legal, After, Maximum, Cap;
    var limit := Cap(env, s.deadline);
    run := Draws(s, c, env, wait);
    if s.retries < MAX_RETRIES {
      var slept := Min(wait, limit - s.now);
      AfterAppend(s, run, Doze(c));
      AfterAppend(s, run + [Doze(c)], Tick(slept));
      AfterAppend(s, run + [Doze(c)] + [Tick(slept)], Wake(c));
      run := run + [Doze(c)] + [Tick(slept)] + [Wake(c)];
    }
  }

  // Nesting.

  datatype Nesting =
    | Scope(id: nat, now: nat) | WithTimeout(timeout: Option<nat>, now: nat) | Inherit | Cleanup(id: nat, now: nat)

  /** The surroundings of the future inside; `Inherit` restores a captured pair in a detached task. */
  function Inside(env: Env, n: Nesting): Env {
    match n
    case Scope(id, now) =>
      if env.budget.Some? then env else env.(budget := Some(Budget(id, Cap(env, now + MAX_ELAPSED))))
    case WithTimeout(timeout, now) => if timeout.Some? then env.(caller := Some(Cap(env, now + timeout.value))) else env
    case Inherit =>
      var detached := Env(None, None);
      var budgeted := if env.budget.Some? then detached.(budget := env.budget) else detached;
      if env.caller.Some? then budgeted.(caller := env.caller) else budgeted
    case Cleanup(id, now) => Env(Some(Budget(id, now + MAX_ELAPSED)), Some(now + MAX_ELAPSED))
  }

  function Nested(env: Env, path: seq<Nesting>): Env
    decreases |path|
  {
    if path == [] then env else Nested(Inside(env, path[0]), path[1..])
  }

  /** Along any nesting without cleanup the effective deadline never grows, and
      the outermost budget stays the one in force. */
  lemma {:induction false} NestingOnlyTightens(env: Env, path: seq<Nesting>, deadline: nat)
    requires forall n <- path :: !n.Cleanup?
    ensures Cap(Nested(env, path), deadline) <= Cap(env, deadline)
    ensures env.budget.Some? ==> Nested(env, path).budget == env.budget
    decreases |path|
  {
    if path != [] {
      assert !path[0].Cleanup?;
      NestingOnlyTightens(Inside(env, path[0]), path[1..], deadline);
    }
  }

  /** Cleanup is the one exception: it starts afresh, whatever the caller's deadline
      was, so it loosens every deadline that is already closer than its own bound. */
  lemma OnlyCleanupLoosens(env: Env, n: Nesting, deadline: nat)
    ensures Cap(Inside(env, n), deadline) > Cap(env, deadline) <==>
      n.Cleanup? && Cap(env, deadline) < Min(deadline, n.now + MAX_ELAPSED)
  {
    if !n.Cleanup? { NestingOnlyTightens(env, [n], deadline); assert ([n])[1..] == []; }
  }

  /** A `backoff` in a nested scope is bounded by every timeout around it. */
  lemma {:induction false} TimeoutsReachInside(env: Env, timeout: nat, now: nat, path: seq<Nesting>, deadline: nat)
    requires forall n <- path :: !n.Cleanup?
    ensures Cap(Nested(Inside(env, WithTimeout(Some(timeout), now)), path), deadline) <= now + timeout
  {
    NestingOnlyTightens(Inside(env, WithTimeout(Some(timeout), now)), path, deadline);
  }

  /** The budget in force, if any, was made by now. */
  ghost predicate Recent(env: Env, now: nat) {
    env.budget.Some? ==> env.budget.value.deadline <= now + MAX_ELAPSED
  }

  lemma {:induction false} RecentNested(env: Env, path: seq<Nesting>, now: nat)
    requires Recent(env, now) && forall n <- path :: n.Inherit? || n.now <= now
    ensures Recent(Nested(env, path), now)
    decreases |path|
  {
    if path != [] {
      assert path[0].Inherit? || path[0].now <= now;
      RecentNested(Inside(env, path[0]), path[1..], now);
    }
  }

  /** Wherever a scope is entered there is a budget from then on, the one already in
      force or a new one, and it bounds every deadline by the scope's own sixty
      seconds, through any nesting without cleanup. */
  lemma ScopeInstalls(before: seq<Nesting>, id: nat, now: nat, path: seq<Nesting>, deadline: nat)
    requires forall n <- before :: n.Inherit? || n.now <= now
    requires forall n <- path :: !n.Cleanup?
    ensures var env := Nested(Env(None, None), before);
      var inside := Nested(Inside(env, Scope(id, now)), path);
      && inside.budget == (if env.budget.Some? then env.budget else Some(Budget(id, Cap(env, now + MAX_ELAPSED))))
      && Cap(inside, deadline) <= now + MAX_ELAPSED
  {
    var env := Nested(Env(None, None), before);
    RecentNested(Env(None, None), before, now);
    NestingOnlyTightens(Inside(env, Scope(id, now)), path, deadline);
  }
}
