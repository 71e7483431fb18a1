/** The login lockout (app/user_identity.py): too many failures of a subject in a window lock
    it for a while. Times and spans are whole clock ticks. */
module LoginLockout {
  import opened Outcomes

  /** The configuration the source accepts: all three are at least 1. */
  datatype Policy = Policy(maximum: nat, window: nat, lock: nat) {
    predicate Valid() { maximum >= 1 && window >= 1 && lock >= 1 }
  }

  datatype Row = Row(count: nat, windowStart: int, lockedUntil: Option<int>)

  predicate Admits(row: Option<Row>, now: int) {
    row.None? || row.value.lockedUntil.None? || row.value.lockedUntil.value <= now
  }

  /** The row after one more failure. */
  function AfterFailure(p: Policy, row: Option<Row>, now: int): Row {
    var renewed := row.None? || now - row.value.windowStart > p.window;
    var count := if renewed then 1 else row.value.count + 1;
    Row(count, if renewed then now else row.value.windowStart, if count >= p.maximum then Some(now + p.lock) else None)
  }

  // ---------------------------------------------------------------- the store, in place

  /** What a login presents: an empty name or password or the reserved enrollment name, which is
      rejected before anything is looked up; or credentials that turn out wrong or right. */
  datatype Credentials = Inadmissible | Wrong | Right

  /** A login attempt. */
  datatype Attempt = Attempt(subject: string, credentials: Credentials, now: int)

  datatype Verdict = Locked | Rejected | Accepted

  type Failures = map<string, Row>

  function Lookup(failures: Failures, subject: string): Option<Row> {
    if subject in failures then Some(failures[subject]) else None
  }

  function AfterRecord(p: Policy, failures: Failures, subject: string, now: int): Failures {
    failures[subject := AfterFailure(p, Lookup(failures, subject), now)]
  }

  function Step(p: Policy, failures: Failures, a: Attempt): Failures {
    if a.credentials.Inadmissible? || !Admits(Lookup(failures, a.subject), a.now) then failures
    else if a.credentials.Right? then failures - {a.subject}
    else AfterRecord(p, failures, a.subject, a.now)
  }

  class LoginDefense {
    const policy: Policy
    var failures: Failures

    constructor (policy: Policy)
      ensures this.policy == policy && failures == map[]
    {
      this.policy := policy;
      failures := map[];
    }

    method RecordAuthFailure(subject: string, now: int)
      modifies this`failures
      ensures failures == AfterRecord(policy, old(failures), subject, now)
    {
      var count, windowStart := 1, now;
      if subject in failures && now - failures[subject].windowStart <= policy.window {
        count := failures[subject].count + 1;
        windowStart := failures[subject].windowStart;
      }
      var lockedUntil := None;
      if count >= policy.maximum { lockedUntil := Some(now + policy.lock); }
      failures := failures[subject := Row(count, windowStart, lockedUntil)];
    }

    /** One login. A locked subject is turned away before its credentials are looked at. */
    method Authenticate(a: Attempt) returns (verdict: Verdict)
      modifies this`failures
      ensures failures == Step(policy, old(failures), a)
      ensures verdict.Locked? <==> !a.credentials.Inadmissible? && !Admits(Lookup(old(failures), a.subject), a.now)
      ensures verdict.Accepted? <==> a.credentials.Right? && Admits(Lookup(old(failures), a.subject), a.now)
    {
      if a.credentials.Inadmissible? { return Rejected; }
      if a.subject in failures {
        var until := failures[a.subject].lockedUntil;
        if until.Some? && until.value > a.now { return Locked; }
      }
      if a.credentials.Wrong? {
        RecordAuthFailure(a.subject, a.now);
        return Rejected;
      }
      failures := failures - {a.subject};
      return Accepted;
    }
  }

  // ---------------------------------------------------------------- runs

  function Run(p: Policy, attempts: seq<Attempt>): Failures {
    if attempts == [] then map[] else Step(p, Run(p, attempts[..|attempts| - 1]), attempts[|attempts| - 1])
  }

  ghost predicate Ordered(attempts: seq<Attempt>) {
    forall i, j :: 0 <= i < j < |attempts| ==> attempts[i].now <= attempts[j].now
  }

  /** The times of a subject's admitted failures since its last successful login. */
  function FailureTimes(p: Policy, attempts: seq<Attempt>, subject: string): seq<int> {
    if attempts == [] then []
    else
      var before, a := attempts[..|attempts| - 1], attempts[|attempts| - 1];
      var earlier := FailureTimes(p, before, subject);
      if a.subject != subject || a.credentials.Inadmissible? || !Admits(Lookup(Run(p, before), subject), a.now) then
        earlier
      else if a.credentials.Right? then []
      else earlier + [a.now]
  }

  /** The row that the first `n` of these failures leave behind. */
  function After(p: Policy, times: seq<int>, n: nat): Option<Row>
    requires n <= |times|
  {
    if n == 0 then None else Some(AfterFailure(p, After(p, times, n - 1), times[n - 1]))
  }

  /** Failure times that can happen: in order, each one admitted. */
  ghost predicate Possible(p: Policy, times: seq<int>) {
    && (forall i, j :: 0 <= i < j < |times| ==> times[i] <= times[j])
    && (forall k {:trigger After(p, times, k)} :: 0 <= k < |times| ==> Admits(After(p, times, k), times[k]))
  }

  lemma {:induction false} AfterPrefix(p: Policy, times: seq<int>, more: seq<int>, n: nat)
    requires n <= |times|
    ensures After(p, times + more, n) == After(p, times, n)
  {
    if n > 0 { AfterPrefix(p, times, more, n - 1); }
  }

  lemma OneMoreFailure(p: Policy, times: seq<int>, now: int)
    requires Possible(p, times) && Admits(After(p, times, |times|), now)
    requires forall t :: t in times ==> t <= now
    ensures Possible(p, times + [now])
    ensures After(p, times + [now], |times| + 1) == Some(AfterFailure(p, After(p, times, |times|), now))
  {
    assert forall i :: 0 <= i < |times| ==> times[i] in times;
    forall k: nat | k <= |times| ensures After(p, times + [now], k) == After(p, times, k) {
      AfterPrefix(p, times, [now], k);
    }
  }

  lemma {:induction false} FailuresBefore(p: Policy, attempts: seq<Attempt>, subject: string, now: int)
    requires forall a :: a in attempts ==> a.now <= now
    ensures forall t :: t in FailureTimes(p, attempts, subject) ==> t <= now
    decreases attempts
  {
    if attempts != [] {
      assert attempts[|attempts| - 1] in attempts;
      FailuresBefore(p, attempts[..|attempts| - 1], subject, now);
    }
  }

  /** The stored row of a subject is a summary of exactly those failures. */
  lemma {:induction false} RowSummarizes(p: Policy, attempts: seq<Attempt>, subject: string)
    requires Ordered(attempts)
    ensures var times := FailureTimes(p, attempts, subject);
      && Possible(p, times)
      && Lookup(Run(p, attempts), subject) == After(p, times, |times|)
    decreases attempts
  {
    if attempts != [] {
      var n := |attempts| - 1;
      var before, a := attempts[..n], attempts[n];
      RowSummarizes(p, before, subject);
      if a.subject == subject && a.credentials.Wrong? && Admits(Lookup(Run(p, before), subject), a.now) {
        FailuresBefore(p, before, subject, a.now);
        OneMoreFailure(p, FailureTimes(p, before, subject), a.now);
      }
    }
  }

  // ---------------------------------------------------------------- the bound

  /** How many failures in a row cannot be crowded: two if one failure locks, else 2·max - 1. */
  function Burst(p: Policy): nat
    requires p.Valid()
  {
    if p.maximum == 1 then 2 else 2 * p.maximum - 1
  }

  /** Within one window the count goes up by one at a time. */
  lemma {:induction false} CountsUp(p: Policy, times: seq<int>, a: nat, b: nat)
    requires Possible(p, times) && 0 < a <= b <= |times|
    requires times[b - 1] - After(p, times, a).value.windowStart <= p.window
    ensures After(p, times, b).value.count == After(p, times, a).value.count + (b - a)
    ensures After(p, times, b).value.windowStart == After(p, times, a).value.windowStart
    decreases b
  {
    if a < b {
      assert times[b - 2] <= times[b - 1];
      CountsUp(p, times, a, b - 1);
    }
  }

  lemma {:induction false} WindowStartsAt(p: Policy, times: seq<int>, n: nat)
    requires Possible(p, times) && 0 < n <= |times|
    ensures var row := After(p, times, n).value;
      row.count >= 1 && row.windowStart <= times[n - 1] && (row.count == 1 ==> row.windowStart == times[n - 1])
  {
    if n > 1 { WindowStartsAt(p, times, n - 1); }
  }

  /** A failure at or above the maximum keeps the next one `lock` ticks away. */
  lemma LockSeparates(p: Policy, times: seq<int>, n: nat)
    requires Possible(p, times) && 0 < n < |times|
    requires After(p, times, n).value.count >= p.maximum
    ensures times[n] - times[n - 1] >= p.lock
  {
    assert Admits(After(p, times, n), times[n]);
  }

  /** `maximum` failures counted from a fresh window at `a` reach the lock, unless they
      outlast the window; either way the next one or the last one is far off. */
  lemma FreshWindowEnds(p: Policy, times: seq<int>, a: nat, i: nat)
    requires p.Valid() && Possible(p, times)
    requires i < a && a + p.maximum <= |times| && After(p, times, a).value.count == 1
    ensures var last := times[a + p.maximum - 1];
      last - times[i] > p.window || last - times[i] >= p.lock
  {
    var b := a + p.maximum - 1;
    WindowStartsAt(p, times, a);
    assert times[i] <= times[a - 1] <= times[b];
    if times[b] - times[i] <= p.window {
      assert times[b - 1] <= times[b];
      CountsUp(p, times, a, b);
      LockSeparates(p, times, b);
      assert times[i] <= times[b - 1];
    }
  }

  /** The first failure falls into a window that was open before it. */
  lemma OpenWindowEnds(p: Policy, times: seq<int>, i: nat)
    requires p.Valid() && Possible(p, times) && p.maximum > 1 && i + 2 * p.maximum - 1 <= |times|
    requires After(p, times, i + 1).value.count > 1
    ensures var span := times[i + 2 * p.maximum - 2] - times[i]; span > p.window || span >= p.lock
  {
    var m, last, b := p.maximum, times[i + 2 * p.maximum - 2], i + p.maximum - 1;
    if times[b - 1] - After(p, times, i + 1).value.windowStart <= p.window {
      CountsUp(p, times, i + 1, b);
      LockSeparates(p, times, b);
      assert times[i] <= times[b - 1] && times[b] <= last;
    } else {
      var a := Renewal(p, times, i + 1, b);
      FreshWindowEnds(p, times, a, i);
      assert times[a + m - 1] <= last;
    }
  }

  /** `Burst(p)` failures of one subject, without a successful login in between, outlast the
      window or take at least as long as the lock. */
  lemma BurstTakesTime(p: Policy, times: seq<int>, i: nat)
    requires p.Valid() && Possible(p, times) && i + Burst(p) <= |times|
    ensures var span := times[i + Burst(p) - 1] - times[i]; span > p.window || span >= p.lock
  {
    WindowStartsAt(p, times, i + 1);
    if p.maximum == 1 {
      LockSeparates(p, times, i + 1);
    } else if After(p, times, i + 1).value.count == 1 {
      FreshWindowEnds(p, times, i + 1, i);
      assert times[i + p.maximum] <= times[i + Burst(p) - 1];
    } else {
      OpenWindowEnds(p, times, i);
    }
  }

  /** Where the window open after `a` failures gives way to a fresh one. */
  lemma {:induction false} Renewal(p: Policy, times: seq<int>, a: nat, b: nat) returns (c: nat)
    requires Possible(p, times) && 0 < a < b <= |times|
    requires times[b - 1] - After(p, times, a).value.windowStart > p.window
    ensures a < c <= b && After(p, times, c).value.count == 1
    decreases b
  {
    if b == a + 1 { return b; }
    if times[b - 2] - After(p, times, a).value.windowStart > p.window {
      c := Renewal(p, times, a, b - 1);
    } else {
      CountsUp(p, times, a, b - 1);
      c := b;
    }
  }

  /** The lockout bound, over any serial run with any number of subjects. */
  lemma LockoutBound(p: Policy, attempts: seq<Attempt>, subject: string, i: nat)
    requires p.maximum >= 1 && p.window >= 1 && p.lock >= 1 && Ordered(attempts)
    requires i + Burst(p) <= |FailureTimes(p, attempts, subject)|
    ensures var times := FailureTimes(p, attempts, subject);
      var span := times[i + Burst(p) - 1] - times[i]; span > p.window || span >= p.lock
  {
    RowSummarizes(p, attempts, subject);
    BurstTakesTime(p, FailureTimes(p, attempts, subject), i);
  }

  // ---------------------------------------------------------------- no lock without cause

  /** The count is that of the last failures, all of them in the window that the first of
      them opened. */
  lemma {:induction false} CountIsRecent(p: Policy, times: seq<int>, n: nat)
    requires Possible(p, times) && 0 < n <= |times|
    ensures var row := After(p, times, n).value;
      1 <= row.count <= n && row.windowStart == times[n - row.count] && times[n - 1] - row.windowStart <= p.window
  {
    if n > 1 { CountIsRecent(p, times, n - 1); }
  }

  /** The last `maximum` failures lie within one window, the very last less than `lock` ago. */
  ghost predicate Earned(p: Policy, times: seq<int>, now: int) {
    var n := |times|;
    n >= p.maximum >= 1 && times[n - 1] - times[n - p.maximum] <= p.window && now < times[n - 1] + p.lock
  }

  lemma LockedRow(p: Policy, times: seq<int>, now: int)
    requires p.Valid() && Possible(p, times) && !Admits(After(p, times, |times|), now)
    ensures Earned(p, times, now)
  {
    var n := |times|;
    CountIsRecent(p, times, n);
    assert times[n - After(p, times, n).value.count] <= times[n - p.maximum];
  }

  /** Nobody is locked out without cause: a subject that is turned away has failed `maximum`
      times within one window since its last success, and the last time less than `lock` ago. */
  lemma LockIsEarned(p: Policy, attempts: seq<Attempt>, subject: string, now: int)
    requires p.Valid() && Ordered(attempts)
    requires !Admits(Lookup(Run(p, attempts), subject), now)
    ensures Earned(p, FailureTimes(p, attempts, subject), now)
  {
    RowSummarizes(p, attempts, subject);
    LockedRow(p, FailureTimes(p, attempts, subject), now);
  }

  // ---------------------------------------------------------------- no better bound

  function Repeat(t: int, n: nat): seq<int> {
    seq(n, i => t)
  }

  /** One early failure, then failures at the very end of its window, then just after it. */
  function Crowd(p: Policy): seq<int>
    requires p.Valid() && p.maximum >= 2
  {
    [0] + Repeat(p.window, p.maximum - 2) + Repeat(p.window + 1, p.maximum)
  }

  lemma {:induction false} CrowdCounts(p: Policy, n: nat)
    requires p.Valid() && p.maximum >= 2 && 0 < n < 2 * p.maximum - 1
    ensures var row := After(p, Crowd(p), n).value; var m := p.maximum;
      if n < m then row == Row(n, 0, None)
        else row.count == n - m + 1 && row.windowStart == p.window + 1 && row.lockedUntil.None?
  {
    if n > 1 { CrowdCounts(p, n - 1); }
  }

  lemma CrowdIsPossible(p: Policy)
    requires p.Valid() && p.maximum >= 2
    ensures var times := Crowd(p);
      Possible(p, times) && |times| == Burst(p) && times[|times| - 1] == p.window + 1 && times[1] >= p.window
  {
    var times := Crowd(p);
    forall k | 0 <= k < |times| ensures Admits(After(p, times, k), times[k]) {
      if k > 0 { CrowdCounts(p, k); }
    }
  }

  function Serial(subject: string, times: seq<int>): seq<Attempt> {
    seq(|times|, i requires 0 <= i < |times| => Attempt(subject, Wrong, times[i]))
  }

  lemma PossiblePrefix(p: Policy, times: seq<int>, n: nat)
    requires Possible(p, times) && n <= |times|
    ensures Possible(p, times[..n]) && forall k: nat :: k <= n ==> After(p, times[..n], k) == After(p, times, k)
  {
    forall k: nat | k <= n ensures After(p, times[..n], k) == After(p, times, k) {
      AfterPrefix(p, times[..n], times[n..], k);
      assert times[..n] + times[n..] == times;
    }
    forall k: nat | k < n ensures Admits(After(p, times[..n], k), times[..n][k]) {
      assert Admits(After(p, times, k), times[k]);
    }
  }

  lemma SerialRunGrows(p: Policy, subject: string, times: seq<int>, now: int)
    requires var run := Serial(subject, times);
      && Ordered(run) && FailureTimes(p, run, subject) == times && (forall t :: t in times ==> t <= now)
      && Admits(Lookup(Run(p, run), subject), now)
    ensures var run, more := Serial(subject, times), Serial(subject, times + [now]);
      && Ordered(more) && FailureTimes(p, more, subject) == times + [now]
      && Lookup(Run(p, more), subject) == Some(AfterFailure(p, Lookup(Run(p, run), subject), now))
  {
    var run, more := Serial(subject, times), Serial(subject, times + [now]);
    assert more[..|run|] == run && more[|run|] == Attempt(subject, Wrong, now);
    forall i | 0 <= i < |run| ensures more[i].now in times { assert more[i].now == times[i]; }
  }

  /** Every possible sequence of times is that of a run: one subject failing at these times. */
  lemma {:induction false} PossibleIsRun(p: Policy, subject: string, times: seq<int>)
    requires Possible(p, times)
    ensures var run := Serial(subject, times);
      && Ordered(run) && FailureTimes(p, run, subject) == times
      && Lookup(Run(p, run), subject) == After(p, times, |times|)
    decreases times
  {
    if times != [] {
      var n := |times| - 1;
      PossiblePrefix(p, times, n);
      PossibleIsRun(p, subject, times[..n]);
      assert times == times[..n] + [times[n]] && Admits(After(p, times, n), times[n]);
      forall t | t in times[..n] ensures t <= times[n] {
        var i :| 0 <= i < n && times[..n][i] == t;
        assert times[i] <= times[n];
      }
      SerialRunGrows(p, subject, times[..n], times[n]);
    }
  }

  /** The bound is sharp: in some run one failure less than `Burst(p)` falls within a single
      tick, whatever the window and the lock. */
  lemma BurstIsSharp(p: Policy, subject: string) returns (attempts: seq<Attempt>, i: nat)
    requires p.Valid()
    ensures Ordered(attempts)
    ensures var times := FailureTimes(p, attempts, subject);
      i + Burst(p) - 1 <= |times| && times[i + Burst(p) - 2] - times[i] <= 1
  {
    if p.maximum == 1 {
      PossibleIsRun(p, subject, [0]);
      return Serial(subject, [0]), 0;
    }
    CrowdIsPossible(p);
    PossibleIsRun(p, subject, Crowd(p));
    return Serial(subject, Crowd(p)), 1;
  }
}
