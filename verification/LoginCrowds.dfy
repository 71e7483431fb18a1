/** How many failures of one subject can fall into a short span of time when several of its
    logins overlap (app/user_identity.py): the bound as a function of their number, and its
    sharpness. */
module LoginCrowds {
  import opened Outcomes
  import opened LoginLockout
  import opened LoginRaces

  /** How many of these times lie in a span. */
  function InSpan(times: seq<int>, from: int, to: int): nat {
    if times == [] then 0
    else InSpan(times[..|times| - 1], from, to) + (if from <= times[|times| - 1] <= to then 1 else 0)
  }

  /** u + (u + 1) + ... + k. */
  function Rest(u: nat, k: nat): nat
    decreases if u <= k then k + 1 - u else 0
  {
    if u > k then 0 else u + Rest(u + 1, k)
  }

  /** The largest number of failures in a short span, see `Short` below, with up to `k`
      logins of the subject pending: k(k+1)/2 if one failure locks, else k more and twice
      max - 2. */
  function Capacity(p: Policy, k: nat): nat
    requires p.Valid()
  {
    if p.maximum == 1 then Rest(1, k) else 2 * (p.maximum - 2) + k + Rest(1, k)
  }

  // ---------------------------------------------------------------- what is still to come

  /** A row the store can hold: it counts something, and locks only from the maximum on. */
  predicate RowOk(p: Policy, row: Option<Row>) {
    row.Some? ==> row.value.count >= 1 && (row.value.lockedUntil.Some? ==> row.value.count >= p.maximum)
  }

  /** Locked for the whole span. */
  predicate Shut(row: Option<Row>, to: int) {
    row.Some? && row.value.lockedUntil.Some? && row.value.lockedUntil.value > to
  }

  /** Failures that the count admits before it reaches the lock. */
  function Grace(p: Policy, row: Row): nat {
    if row.count + 1 <= p.maximum then p.maximum - 1 - row.count else 0
  }

  /** How many failures of the span can still be recorded, given the row, `u` the number of
      pending logins allowed beside those that began before the span, and `f` the number of
      pending logins of the span. A login from before the span may lift the lock when it is
      recorded, for it sets the lock by its own time. */
  function Potential(p: Policy, k: nat, from: int, row: Option<Row>, to: int, u: nat, f: nat): int
    requires p.Valid()
  {
    var m := p.maximum;
    if m == 1 || (row.Some? && row.value.windowStart >= from) then
      // the window of the row lasts through the span
      if Shut(row, to) then f + Rest(u + 1, k) else (if row.Some? then Grace(p, row.value) else 0) + Rest(u, k)
    else if row.None? || row.value.windowStart + p.window < from then
      // the next failure of the span opens a window
      2 * (m - 2) + k + Rest(u, k)
    else
      // the window of the row gives way to one more in the span
      (if Shut(row, to) then f + Rest(u + 1, k) else Grace(p, row.value) + Rest(u, k)) + k + m - 2
  }

  /** A span no longer than the window and shorter than the lock. */
  predicate Short(p: Policy, from: int, to: int) {
    from <= to && to - from <= p.window && to - from < p.lock
  }

  lemma {:induction false} RestShrinks(u: nat, v: nat, k: nat)
    requires u <= v
    ensures Rest(v, k) <= Rest(u, k)
    decreases v - u
  {
    if u < v { RestShrinks(u + 1, v, k); }
  }

  lemma PotentialIsBounded(p: Policy, k: nat, from: int, to: int, row: Option<Row>, u: nat, f: nat)
    requires p.Valid() && k >= 1 && RowOk(p, row) && f <= u <= k
    ensures f <= Potential(p, k, from, row, to, u, f) <= Capacity(p, k)
  {
    RestShrinks(0, u, k);
    RestShrinks(0, 1, k);
    RestShrinks(u, u + 1, k);
    assert Rest(u, k) == u + Rest(u + 1, k);
    assert Rest(0, k) == Rest(1, k);
  }

  /** A failure of the span uses up one of those still to come. */
  lemma SpanFailure(p: Policy, k: nat, from: int, to: int, row: Option<Row>, u: nat, f: nat, now: int)
    requires p.Valid() && Short(p, from, to) && RowOk(p, row) && 1 <= f <= u <= k && from <= now <= to
    ensures var next := Some(AfterFailure(p, row, now));
      RowOk(p, next) && Potential(p, k, from, next, to, u, f - 1) + 1 <= Potential(p, k, from, row, to, u, f)
  {
    assert Rest(u, k) == u + Rest(u + 1, k);
  }

  /** A failure from before the span adds none. */
  lemma EarlyFailure(p: Policy, k: nat, from: int, to: int, row: Option<Row>, u: nat, f: nat, now: int)
    requires p.Valid() && Short(p, from, to) && RowOk(p, row) && f <= u < k && now < from
    ensures var next := Some(AfterFailure(p, row, now));
      RowOk(p, next) && Potential(p, k, from, next, to, u + 1, f) <= Potential(p, k, from, row, to, u, f)
  {
    assert Rest(u, k) == u + Rest(u + 1, k) && Rest(u + 1, k) == u + 1 + Rest(u + 2, k);
  }

  /** Nor does a login that is given up, or one that begins. */
  lemma QuietMoves(p: Policy, k: nat, from: int, to: int, row: Option<Row>, u: nat, f: nat)
    requires p.Valid() && RowOk(p, row) && f <= u <= k
    ensures f >= 1 ==> Potential(p, k, from, row, to, u, f - 1) <= Potential(p, k, from, row, to, u, f)
    ensures u < k ==> Potential(p, k, from, row, to, u + 1, f) <= Potential(p, k, from, row, to, u, f)
    ensures !Shut(row, to) ==> Potential(p, k, from, row, to, u, f + 1) == Potential(p, k, from, row, to, u, f)
  {
    RestShrinks(u, u + 1, k);
    RestShrinks(u + 1, u + 2, k);
  }

  // ---------------------------------------------------------------- the account of a run

  /** What matters of a run: the row; how many logins are pending that began before the span, and
      in it; how many failures of the span are recorded; whether a login of the span, and one
      past it, has begun. */
  datatype Summary = Summary(row: Option<Row>, e: nat, f: nat, n: nat, begun: bool, passed: bool)

  /** Before the first login of the span nothing has happened; after the first one past it only
      those pending are still to come. */
  predicate Held(p: Policy, k: nat, from: int, to: int, x: Summary)
    requires p.Valid()
  {
    && RowOk(p, x.row) && x.e + x.f <= k
    && if x.passed then x.n + x.f <= Capacity(p, k)
       else if !x.begun then x.n == 0 && x.f == 0
       else x.n + Potential(p, k, from, x.row, to, k - x.e, x.f) <= Capacity(p, k)
  }

  function AfterBegin(x: Summary, from: int, to: int, now: int, joins: bool): Summary {
    var e := if joins && now < from then x.e + 1 else x.e;
    var f := if joins && from <= now <= to then x.f + 1 else x.f;
    x.(e := e, f := f, begun := x.begun || now >= from, passed := x.passed || now > to)
  }

  lemma HeldBegin(p: Policy, k: nat, from: int, to: int, x: Summary, now: int, joins: bool)
    requires p.Valid() && k >= 1 && from <= to && Held(p, k, from, to, x)
    requires (x.begun ==> now >= from) && (x.passed ==> now > to) && (joins ==> Admits(x.row, now))
    requires joins && now <= to ==> x.e + x.f < k
    ensures Held(p, k, from, to, AfterBegin(x, from, to, now, joins))
  {
    if !x.passed && now > to {
      PotentialIsBounded(p, k, from, to, x.row, k - x.e, x.f);
    } else if !x.passed && now >= from {
      if x.begun {
        QuietMoves(p, k, from, to, x.row, k - x.e, x.f);
      } else {
        PotentialIsBounded(p, k, from, to, x.row, k - x.e, if joins then 1 else 0);
      }
    }
  }

  lemma HeldFewerEarly(p: Policy, k: nat, from: int, to: int, x: Summary)
    requires p.Valid() && Held(p, k, from, to, x) && x.e >= 1
    ensures Held(p, k, from, to, x.(e := x.e - 1))
  {
    if x.begun && !x.passed { QuietMoves(p, k, from, to, x.row, k - x.e, x.f); }
  }

  lemma HeldFewerInside(p: Policy, k: nat, from: int, to: int, x: Summary)
    requires p.Valid() && Held(p, k, from, to, x) && x.f >= 1
    ensures Held(p, k, from, to, x.(f := x.f - 1))
  {
    if x.begun && !x.passed { QuietMoves(p, k, from, to, x.row, k - x.e, x.f); }
  }

  lemma HeldLess(p: Policy, k: nat, from: int, to: int, x: Summary, e: nat, f: nat)
    requires p.Valid() && Held(p, k, from, to, x)
    requires e <= x.e <= e + 1 && f <= x.f <= f + 1
    ensures Held(p, k, from, to, x.(e := e, f := f))
  {
    if e < x.e { HeldFewerEarly(p, k, from, to, x); }
    var mid := x.(e := e);
    if f < x.f { HeldFewerInside(p, k, from, to, mid); }
  }

  function AfterFinish(p: Policy, x: Summary, from: int, to: int, it: Attempt): Summary {
    var e := if it.now < from && x.e > 0 then x.e - 1 else x.e;
    var f := if from <= it.now <= to && x.f > 0 then x.f - 1 else x.f;
    if it.credentials.Right? then Summary(None, e, f, 0, x.begun, x.passed)
    else
      var n := if from <= it.now <= to then x.n + 1 else x.n;
      Summary(Some(AfterFailure(p, x.row, it.now)), e, f, n, x.begun, x.passed)
  }

  lemma HeldFinish(p: Policy, k: nat, from: int, to: int, x: Summary, it: Attempt)
    requires p.Valid() && k >= 1 && Short(p, from, to) && Held(p, k, from, to, x) && (x.f > 0 ==> x.begun)
    requires (it.now < from ==> x.e >= 1) && (from <= it.now <= to ==> x.f >= 1) && (it.now > to ==> x.passed)
    ensures Held(p, k, from, to, AfterFinish(p, x, from, to, it))
  {
    var next := AfterFinish(p, x, from, to, it);
    if it.credentials.Right? {
      PotentialIsBounded(p, k, from, to, None, k - next.e, next.f);
    } else if x.begun && !x.passed {
      if it.now < from {
        EarlyFailure(p, k, from, to, x.row, k - x.e, x.f, it.now);
      } else {
        SpanFailure(p, k, from, to, x.row, k - x.e, x.f, it.now);
      }
    }
  }

  // ---------------------------------------------------------------- over all runs

  datatype Place = Before | Inside | After

  function PlaceOf(time: int, from: int, to: int): Place {
    if time < from then Before else if time <= to then Inside else After
  }

  /** The pending logins of a subject that began before, in or after the span. */
  function Waiting(pending: map<nat, Attempt>, subject: string, from: int, to: int, place: Place): set<nat> {
    set c | c in pending && pending[c].subject == subject && PlaceOf(pending[c].now, from, to) == place
  }

  ghost predicate BegunAt(actions: seq<Action>, time: int) {
    exists i :: 0 <= i < |actions| && actions[i].Begin? && actions[i].attempt.now >= time
  }

  lemma Apart(a: set<nat>, b: set<nat>, c: set<nat>)
    requires a !! b && a + b <= c
    ensures |a| + |b| <= |c|
  {
    Smaller(a + b, c);
  }

  ghost function Sum(p: Policy, actions: seq<Action>, subject: string, from: int, to: int): Summary {
    var st := Interleave(p, actions);
    Summary(Lookup(st.failures, subject), |Waiting(st.pending, subject, from, to, Before)|,
      |Waiting(st.pending, subject, from, to, Inside)|, InSpan(RaceTimes(p, actions, subject), from, to),
      BegunAt(actions, from), BegunAt(actions, to + 1))
  }

  lemma {:induction false} SpanOfMore(times: seq<int>, t: int, from: int, to: int)
    ensures InSpan(times + [t], from, to) == InSpan(times, from, to) + (if from <= t <= to then 1 else 0)
  {
    assert (times + [t])[..|times|] == times;
  }

  lemma OneMore(p: Policy, before: seq<Action>, a: Action, subject: string)
    ensures Interleave(p, before + [a]) == Act(p, Interleave(p, before), a)
    ensures Landed(p, before + [a], subject) == Landed(p, before, subject) + LandedBy(Interleave(p, before), a, subject)
    ensures forall time :: BegunAt(before + [a], time) <==> BegunAt(before, time) || (a.Begin? && a.attempt.now >= time)
  {
    var all := before + [a];
    assert all[..|before|] == before;
    forall time ensures BegunAt(all, time) <==> BegunAt(before, time) || (a.Begin? && a.attempt.now >= time) {
      if BegunAt(before, time) {
        var i :| 0 <= i < |before| && before[i].Begin? && before[i].attempt.now >= time;
        assert all[i] == before[i];
      }
      if a.Begin? && a.attempt.now >= time { assert all[|before|] == a; }
    }
  }

  /** What the subject's record gains by an action. */
  lemma TimesAfter(p: Policy, before: seq<Action>, a: Action, subject: string)
    ensures var st := Interleave(p, before);
      RaceTimes(p, before + [a], subject) ==
        if LandedBy(st, a, subject) == [] then RaceTimes(p, before, subject)
        else if st.pending[a.c].credentials.Right? then []
        else RaceTimes(p, before, subject) + [st.pending[a.c].now]
  {
    OneMore(p, before, a, subject);
    var landed, st := Landed(p, before, subject), Interleave(p, before);
    if LandedBy(st, a, subject) == [] {
      assert landed + [] == landed;
    } else {
      assert (landed + [st.pending[a.c]])[..|landed|] == landed;
    }
  }

  lemma PendingBegan(p: Policy, actions: seq<Action>, c: nat, time: int)
    requires c in Interleave(p, actions).pending && Interleave(p, actions).pending[c].now >= time
    ensures BegunAt(actions, time)
  {
    if !BegunAt(actions, time) { AllBegan(p, actions, "", time - 1); }
  }

  /** Who joins the pending logins of the subject. */
  predicate Joins(st: State, c: nat, it: Attempt, subject: string) {
    && c !in st.pending && !it.credentials.Inadmissible? && it.subject == subject
    && Admits(Lookup(st.failures, subject), it.now)
  }

  lemma SumBegin(p: Policy, before: seq<Action>, c: nat, it: Attempt, subject: string, from: int, to: int)
    ensures Sum(p, before + [Begin(c, it)], subject, from, to)
      == AfterBegin(Sum(p, before, subject, from, to), from, to, it.now, Joins(Interleave(p, before), c, it, subject))
  {
    var a, st := Begin(c, it), Interleave(p, before);
    OneMore(p, before, a, subject);
    TimesAfter(p, before, a, subject);
    WaitingBegin(p, st, c, it, subject, from, to, Before);
    WaitingBegin(p, st, c, it, subject, from, to, Inside);
  }

  lemma WaitingMore(pending: map<nat, Attempt>, c: nat, it: Attempt, subject: string, from: int, to: int, place: Place)
    requires c !in pending
    ensures |Waiting(pending[c := it], subject, from, to, place)| == |Waiting(pending, subject, from, to, place)|
      + (if it.subject == subject && PlaceOf(it.now, from, to) == place then 1 else 0)
  {
    var was, now := Waiting(pending, subject, from, to, place), Waiting(pending[c := it], subject, from, to, place);
    assert c !in was && (c in now <==> it.subject == subject && PlaceOf(it.now, from, to) == place);
    assert forall d :: d != c ==> (d in now <==> d in was);
    assert now - {c} == was;
    Without(now, c);
  }

  lemma WaitingBegin(p: Policy, st: State, c: nat, it: Attempt, subject: string, from: int, to: int, place: Place)
    ensures var next := Act(p, st, Begin(c, it));
      && next.failures == st.failures
      && |Waiting(next.pending, subject, from, to, place)| == |Waiting(st.pending, subject, from, to, place)|
           + (if Joins(st, c, it, subject) && PlaceOf(it.now, from, to) == place then 1 else 0)
  {
    if Act(p, st, Begin(c, it)) != st { WaitingMore(st.pending, c, it, subject, from, to, place); }
  }

  /** The pending logins counted are among those of the subject. */
  lemma FewPending(st: State, subject: string, from: int, to: int)
    ensures |Waiting(st.pending, subject, from, to, Before)| + |Waiting(st.pending, subject, from, to, Inside)|
      <= |PendingOf(st, subject)|
  {
    Apart(Waiting(st.pending, subject, from, to, Before), Waiting(st.pending, subject, from, to, Inside),
      PendingOf(st, subject));
  }

  lemma AccountBegin(p: Policy, before: seq<Action>, c: nat, it: Attempt, subject: string, k: nat, from: int, to: int)
    requires p.Valid() && k >= 1 && Short(p, from, to) && Held(p, k, from, to, Sum(p, before, subject, from, to))
    requires Clocked(before + [Begin(c, it)]) && |PendingOf(Interleave(p, before + [Begin(c, it)]), subject)| <= k
    ensures Held(p, k, from, to, Sum(p, before + [Begin(c, it)], subject, from, to))
  {
    SumBegin(p, before, c, it, subject, from, to);
    BeginsInOrder(before, Begin(c, it));
    FewPending(Interleave(p, before + [Begin(c, it)]), subject, from, to);
    HeldBegin(p, k, from, to, Sum(p, before, subject, from, to), it.now, Joins(Interleave(p, before), c, it, subject));
  }

  lemma BeginsInOrder(before: seq<Action>, a: Action)
    requires a.Begin? && Clocked(before + [a])
    ensures forall time :: BegunAt(before, time) ==> a.attempt.now >= time
  {
    var all := before + [a];
    forall time | BegunAt(before, time) ensures a.attempt.now >= time {
      var i :| 0 <= i < |before| && before[i].Begin? && before[i].attempt.now >= time;
      assert all[i] == before[i] && all[|before|] == a;
    }
  }

  lemma Without(s: set<nat>, c: nat)
    ensures |s - {c}| == if c in s then |s| - 1 else |s|
  {
    if c !in s { assert s - {c} == s; }
  }

  lemma WaitingLess(pending: map<nat, Attempt>, c: nat, subject: string, from: int, to: int, place: Place)
    ensures var was := Waiting(pending, subject, from, to, place);
      |Waiting(pending - {c}, subject, from, to, place)| == |was| - (if c in was then 1 else 0)
  {
    var was := Waiting(pending, subject, from, to, place);
    assert Waiting(pending - {c}, subject, from, to, place) == was - {c};
    Without(was, c);
  }

  lemma WaitingCounts(pending: map<nat, Attempt>, c: nat, subject: string, from: int, to: int)
    requires c in pending && pending[c].subject == subject
    ensures |Waiting(pending, subject, from, to, PlaceOf(pending[c].now, from, to))| >= 1
  {
    assert c in Waiting(pending, subject, from, to, PlaceOf(pending[c].now, from, to));
  }

  lemma AccountAbandon(p: Policy, before: seq<Action>, c: nat, subject: string, k: nat, from: int, to: int)
    requires p.Valid() && Held(p, k, from, to, Sum(p, before, subject, from, to))
    ensures Held(p, k, from, to, Sum(p, before + [Abandon(c)], subject, from, to))
  {
    var a, st, x := Abandon(c), Interleave(p, before), Sum(p, before, subject, from, to);
    OneMore(p, before, a, subject);
    TimesAfter(p, before, a, subject);
    WaitingLess(st.pending, c, subject, from, to, Before);
    WaitingLess(st.pending, c, subject, from, to, Inside);
    var next := Sum(p, before + [a], subject, from, to);
    assert next == x.(e := next.e, f := next.f);
    HeldLess(p, k, from, to, x, next.e, next.f);
  }

  lemma SpanAfterFinish(p: Policy, before: seq<Action>, c: nat, subject: string, from: int, to: int)
    requires c in Interleave(p, before).pending && Interleave(p, before).pending[c].subject == subject
    ensures var it, n := Interleave(p, before).pending[c], InSpan(RaceTimes(p, before, subject), from, to);
      InSpan(RaceTimes(p, before + [Finish(c)], subject), from, to)
        == if it.credentials.Right? then 0 else n + (if from <= it.now <= to then 1 else 0)
  {
    TimesAfter(p, before, Finish(c), subject);
    SpanOfMore(RaceTimes(p, before, subject), Interleave(p, before).pending[c].now, from, to);
  }

  lemma RowAfterFinish(p: Policy, st: State, c: nat, subject: string)
    requires c in st.pending && st.pending[c].subject == subject
    ensures var it, next := st.pending[c], Act(p, st, Finish(c));
      && next.pending == st.pending - {c}
      && Lookup(next.failures, subject) == if it.credentials.Right? then None
           else Some(AfterFailure(p, Lookup(st.failures, subject), it.now))
  {
  }

  lemma SumFinish(p: Policy, before: seq<Action>, c: nat, subject: string, from: int, to: int)
    requires from <= to && c in Interleave(p, before).pending && Interleave(p, before).pending[c].subject == subject
    ensures var it, x := Interleave(p, before).pending[c], Sum(p, before, subject, from, to);
      && Sum(p, before + [Finish(c)], subject, from, to) == AfterFinish(p, x, from, to, it)
      && (it.now < from ==> x.e >= 1) && (from <= it.now <= to ==> x.f >= 1)
  {
    var st := Interleave(p, before);
    OneMore(p, before, Finish(c), subject);
    RowAfterFinish(p, st, c, subject);
    SpanAfterFinish(p, before, c, subject, from, to);
    WaitingLess(st.pending, c, subject, from, to, Before);
    WaitingLess(st.pending, c, subject, from, to, Inside);
    WaitingCounts(st.pending, c, subject, from, to);
  }

  lemma InsideHasBegun(p: Policy, before: seq<Action>, subject: string, from: int, to: int)
    requires Waiting(Interleave(p, before).pending, subject, from, to, Inside) != {}
    ensures BegunAt(before, from)
  {
    var d :| d in Waiting(Interleave(p, before).pending, subject, from, to, Inside);
    PendingBegan(p, before, d, from);
  }

  lemma AccountFinish(p: Policy, before: seq<Action>, c: nat, subject: string, k: nat, from: int, to: int)
    requires p.Valid() && k >= 1 && Short(p, from, to) && Held(p, k, from, to, Sum(p, before, subject, from, to))
    requires c in Interleave(p, before).pending && Interleave(p, before).pending[c].subject == subject
    ensures Held(p, k, from, to, Sum(p, before + [Finish(c)], subject, from, to))
  {
    var it := Interleave(p, before).pending[c];
    SumFinish(p, before, c, subject, from, to);
    if Waiting(Interleave(p, before).pending, subject, from, to, Inside) != {} {
      InsideHasBegun(p, before, subject, from, to);
    }
    if it.now > to { PendingBegan(p, before, c, to + 1); }
    HeldFinish(p, k, from, to, Sum(p, before, subject, from, to), it);
  }

  lemma SumOther(p: Policy, before: seq<Action>, c: nat, subject: string, from: int, to: int)
    requires c in Interleave(p, before).pending ==> Interleave(p, before).pending[c].subject != subject
    ensures Sum(p, before + [Finish(c)], subject, from, to) == Sum(p, before, subject, from, to)
  {
    var a, st := Finish(c), Interleave(p, before);
    OneMore(p, before, a, subject);
    TimesAfter(p, before, a, subject);
    if c in st.pending {
      WaitingLess(st.pending, c, subject, from, to, Before);
      WaitingLess(st.pending, c, subject, from, to, Inside);
      assert Lookup(Act(p, st, a).failures, subject) == Lookup(st.failures, subject);
    }
  }

  lemma SumStart(p: Policy, subject: string, from: int, to: int)
    ensures Sum(p, [], subject, from, to) == Summary(None, 0, 0, 0, false, false)
  {
    assert Waiting(map[], subject, from, to, Before) == {} && Waiting(map[], subject, from, to, Inside) == {};
  }

  lemma {:induction false} AccountHolds(p: Policy, actions: seq<Action>, subject: string, k: nat, from: int, to: int)
    requires p.Valid() && k >= 1 && Short(p, from, to) && AtMost(p, actions, subject, k) && Clocked(actions)
    ensures Held(p, k, from, to, Sum(p, actions, subject, from, to))
    decreases actions
  {
    if actions == [] {
      SumStart(p, subject, from, to);
    } else {
      var before, a := actions[..|actions| - 1], actions[|actions| - 1];
      AccountHolds(p, before, subject, k, from, to);
      assert before + [a] == actions;
      match a
      case Begin(c, it) => AccountBegin(p, before, c, it, subject, k, from, to);
      case Abandon(c) => AccountAbandon(p, before, c, subject, k, from, to);
      case Finish(c) =>
        if c in Interleave(p, before).pending && Interleave(p, before).pending[c].subject == subject {
          AccountFinish(p, before, c, subject, k, from, to);
        } else {
          SumOther(p, before, c, subject, from, to);
        }
    }
  }

  /** With at most `k` logins of the subject pending at a time, no span within the window and
      shorter than the lock holds the beginnings of more than `Capacity(p, k)` failures since the
      last success. */
  lemma CrowdIsBounded(p: Policy, actions: seq<Action>, subject: string, k: nat, from: int, to: int)
    requires p.Valid() && k >= 1 && Short(p, from, to) && AtMost(p, actions, subject, k) && Clocked(actions)
    ensures InSpan(RaceTimes(p, actions, subject), from, to) <= Capacity(p, k)
  {
    AccountHolds(p, actions, subject, k, from, to);
    var x := Sum(p, actions, subject, from, to);
    PotentialIsBounded(p, k, from, to, x.row, k - x.e, x.f);
  }

  // ---------------------------------------------------------------- and no better bound

  /** The parameters of the worst run: all logins are of one subject. */
  datatype Case = Case(p: Policy, subject: string, k: nat, from: int, to: int)

  /** A run with at most `k` logins pending that ends in `st` with `n` failures of the span, no
      login having begun after `clock`. */
  ghost predicate Arrives(x: Case, actions: seq<Action>, st: State, n: nat, clock: int) {
    && Interleave(x.p, actions) == st && InSpan(RaceTimes(x.p, actions, x.subject), x.from, x.to) == n
    && AtMost(x.p, actions, x.subject, x.k) && Clocked(actions) && BeganBy(actions, clock)
  }

  ghost predicate Reached(x: Case, st: State, n: nat, clock: int) {
    exists actions :: Arrives(x, actions, st, n, clock)
  }

  lemma ReachedStart(x: Case, clock: int)
    ensures Reached(x, State(map[], map[]), 0, clock)
  {
    var none: seq<Action> := [];
    assert PendingOf(State(map[], map[]), x.subject) == {};
    assert Arrives(x, none, State(map[], map[]), 0, clock);
  }

  lemma ReachedBegin(x: Case, st: State, n: nat, clock: int, c: nat, it: Attempt)
    requires Reached(x, st, n, clock) && clock <= it.now
    requires c !in st.pending && |st.pending| < x.k
    requires !it.credentials.Inadmissible? && Admits(Lookup(st.failures, it.subject), it.now)
    ensures Reached(x, State(st.failures, st.pending[c := it]), n, it.now)
  {
    var actions :| Arrives(x, actions, st, n, clock);
    var a, next := Begin(c, it), State(st.failures, st.pending[c := it]);
    OneMore(x.p, actions, a, x.subject);
    TimesAfter(x.p, actions, a, x.subject);
    ClockedOne(actions, a, clock, it.now);
    OneMorePending(st, c, it, x.subject);
    AtMostOne(x.p, actions, a, x.subject, x.k);
    assert Arrives(x, actions + [a], next, n, it.now);
  }

  lemma OneMorePending(st: State, c: nat, it: Attempt, subject: string)
    requires c !in st.pending
    ensures |PendingOf(State(st.failures, st.pending[c := it]), subject)| <= |st.pending| + 1
  {
    var next := st.pending[c := it];
    Smaller(PendingOf(State(st.failures, next), subject), next.Keys);
    assert next.Keys == st.pending.Keys + {c};
  }

  lemma AtMostOne(p: Policy, actions: seq<Action>, a: Action, subject: string, k: nat)
    requires AtMost(p, actions, subject, k) && |PendingOf(Interleave(p, actions + [a]), subject)| <= k
    ensures AtMost(p, actions + [a], subject, k)
  {
    assert (actions + [a])[..|actions|] == actions;
  }

  lemma ClockedOne(actions: seq<Action>, a: Action, clock: int, now: int)
    requires Clocked(actions) && BeganBy(actions, clock) && clock <= now && (a.Begin? ==> a.attempt.now == now)
    ensures Clocked(actions + [a]) && BeganBy(actions + [a], now)
  {
  }

  lemma ReachedFinish(x: Case, st: State, n: nat, clock: int, c: nat)
    requires Reached(x, st, n, clock)
    requires c in st.pending && st.pending[c].subject == x.subject && !st.pending[c].credentials.Right?
    ensures var it := st.pending[c];
      Reached(x, State(AfterRecord(x.p, st.failures, x.subject, it.now), st.pending - {c}),
        if x.from <= it.now <= x.to then n + 1 else n, clock)
  {
    var actions :| Arrives(x, actions, st, n, clock);
    var a, it := Finish(c), st.pending[c];
    var next := State(AfterRecord(x.p, st.failures, x.subject, it.now), st.pending - {c});
    OneMore(x.p, actions, a, x.subject);
    SpanAfterFinish(x.p, actions, c, x.subject, x.from, x.to);
    ClockedOne(actions, a, clock, clock);
    Smaller(PendingOf(next, x.subject), PendingOf(st, x.subject));
    AtMostOne(x.p, actions, a, x.subject, x.k);
    assert Arrives(x, actions + [a], next, if x.from <= it.now <= x.to then n + 1 else n, clock);
  }

  // ---------------------------------------------------------------- one subject, two kinds of logins

  /** Pending are `s` logins `older`, numbered from 0, and `j` logins `newer`, numbered from `k`. */
  function Pend(k: nat, s: nat, older: Attempt, j: nat, newer: Attempt): map<nat, Attempt> {
    if j > 0 then Pend(k, s, older, j - 1, newer)[k + j - 1 := newer]
    else if s > 0 then Pend(k, s - 1, older, 0, newer)[s - 1 := older]
    else map[]
  }

  lemma PutOne(m: map<nat, Attempt>, c: nat, it: Attempt)
    requires c !in m
    ensures |m[c := it]| == |m| + 1 && m[c := it].Keys == m.Keys + {c} && m[c := it] - {c} == m
  {
    assert m[c := it].Keys == m.Keys + {c};
  }

  function Below(n: nat): set<nat> {
    if n == 0 then {} else Below(n - 1) + {n - 1}
  }

  lemma {:induction false} BelowHolds(n: nat)
    ensures forall c: nat :: c in Below(n) <==> c < n
  {
    if n > 0 { BelowHolds(n - 1); }
  }

  lemma {:induction false} OldKeys(k: nat, s: nat, older: Attempt, newer: Attempt)
    ensures var m := Pend(k, s, older, 0, newer); |m| == s && m.Keys == Below(s)
  {
    if s > 0 {
      OldKeys(k, s - 1, older, newer);
      BelowHolds(s - 1);
      PutOne(Pend(k, s - 1, older, 0, newer), s - 1, older);
    }
  }

  lemma {:induction false} PendKeys(k: nat, s: nat, older: Attempt, j: nat, newer: Attempt)
    requires s <= k
    ensures |Pend(k, s, older, j, newer)| == s + j
    ensures forall c: nat :: c in Pend(k, s, older, j, newer) <==> c < s || k <= c < k + j
  {
    if j > 0 {
      PendKeys(k, s, older, j - 1, newer);
      PutOne(Pend(k, s, older, j - 1, newer), k + j - 1, newer);
    } else {
      OldKeys(k, s, older, newer);
      BelowHolds(s);
    }
  }

  /** With none of a kind pending it does not matter what they would be. */
  lemma {:induction false} PendNone(k: nat, s: nat, older: Attempt, j: nat, newer: Attempt,
      older': Attempt, newer': Attempt)
    requires (s == 0 || older' == older) && (j == 0 || newer' == newer)
    ensures Pend(k, s, older', j, newer') == Pend(k, s, older, j, newer)
  {
    if j > 0 {
      PendNone(k, s, older, j - 1, newer, older', newer');
    } else if s > 0 {
      PendNone(k, s - 1, older, 0, newer, older', newer');
    }
  }

  /** One older login joins any number of newer ones. */
  lemma {:induction false} PendFirst(k: nat, older: Attempt, j: nat, newer: Attempt)
    requires k >= 1
    ensures Pend(k, 0, older, j, newer)[0 := older] == Pend(k, 1, older, j, newer)
  {
    if j > 0 {
      PendFirst(k, older, j - 1, newer);
      var m: map<nat, Attempt>, last: nat := Pend(k, 0, older, j - 1, newer), k + j - 1;
      assert m[last := newer][0 := older] == m[0 := older][last := newer];
    }
  }

  function Rows(subject: string, row: Option<Row>): Failures {
    if row.None? then map[] else map[subject := row.value]
  }

  lemma RowsAfter(p: Policy, subject: string, row: Option<Row>, now: int)
    ensures Lookup(Rows(subject, row), subject) == row
    ensures AfterRecord(p, Rows(subject, row), subject, now) == Rows(subject, Some(AfterFailure(p, row, now)))
  {
  }

  function Fail(subject: string, now: int): Attempt {
    Attempt(subject, Wrong, now)
  }

  /** A stage of the run: the row, `s` logins of time `z` and `j` of time `t` pending, `n` failures
      of the span, and the time of the latest beginning. */
  datatype Stage = Stage(row: Option<Row>, s: nat, z: int, j: nat, t: int, n: nat, clock: int)

  /** The next transaction: a new login begins, or fails; an old one does; the old one begins
      beside new ones; a time that no pending login has is changed. */
  datatype Move = BeginNew | FinishNew | BeginOld | FinishOld | BeginLast | SetOld(z: int) | SetNew(t: int)

  predicate Can(x: Case, g: Stage, m: Move) {
    match m
    case BeginNew => g.clock <= g.t && g.s + g.j < x.k && Admits(g.row, g.t)
    case FinishNew => g.j > 0 && g.s <= x.k
    case BeginOld => g.j == 0 && g.clock <= g.z && g.s < x.k && Admits(g.row, g.z)
    case FinishOld => g.j == 0 && 0 < g.s <= x.k
    case BeginLast => g.s == 0 && g.clock <= g.z && g.j < x.k && Admits(g.row, g.z)
    case SetOld(_) => g.s == 0
    case SetNew(_) => g.j == 0
  }

  function Counted(x: Case, n: nat, now: int): nat {
    if x.from <= now <= x.to then n + 1 else n
  }

  function Moved(x: Case, g: Stage, m: Move): Stage
    requires Can(x, g, m)
  {
    match m
    case BeginNew => g.(j := g.j + 1, clock := g.t)
    case FinishNew => g.(row := Some(AfterFailure(x.p, g.row, g.t)), j := g.j - 1, n := Counted(x, g.n, g.t))
    case BeginOld => g.(s := g.s + 1, clock := g.z)
    case FinishOld => g.(row := Some(AfterFailure(x.p, g.row, g.z)), s := g.s - 1, n := Counted(x, g.n, g.z))
    case BeginLast => g.(s := 1, clock := g.z)
    case SetOld(z) => g.(z := z)
    case SetNew(t) => g.(t := t)
  }

  function Pending(x: Case, g: Stage): map<nat, Attempt> {
    Pend(x.k, g.s, Fail(x.subject, g.z), g.j, Fail(x.subject, g.t))
  }

  ghost predicate At(x: Case, g: Stage) {
    Reached(x, State(Rows(x.subject, g.row), Pending(x, g)), g.n, g.clock)
  }

  lemma BeginWith(x: Case, row: Option<Row>, pending: map<nat, Attempt>, n: nat, clock: int, c: nat, now: int)
    requires Reached(x, State(Rows(x.subject, row), pending), n, clock) && clock <= now && Admits(row, now)
    requires c !in pending && |pending| < x.k
    ensures Reached(x, State(Rows(x.subject, row), pending[c := Fail(x.subject, now)]), n, now)
  {
    RowsAfter(x.p, x.subject, row, now);
    ReachedBegin(x, State(Rows(x.subject, row), pending), n, clock, c, Fail(x.subject, now));
  }

  lemma FinishWith(x: Case, row: Option<Row>, left: map<nat, Attempt>, n: nat, clock: int, c: nat, now: int)
    requires Reached(x, State(Rows(x.subject, row), left[c := Fail(x.subject, now)]), n, clock) && c !in left
    ensures Reached(x, State(Rows(x.subject, Some(AfterFailure(x.p, row, now))), left), Counted(x, n, now), clock)
  {
    RowsAfter(x.p, x.subject, row, now);
    PutOne(left, c, Fail(x.subject, now));
    ReachedFinish(x, State(Rows(x.subject, row), left[c := Fail(x.subject, now)]), n, clock, c);
  }

  lemma PendMore(k: nat, s: nat, older: Attempt, j: nat, newer: Attempt)
    requires s <= k
    ensures var m := Pend(k, s, older, j, newer);
      |m| == s + j && k + j !in m && Pend(k, s, older, j + 1, newer) == m[k + j := newer]
  {
    PendKeys(k, s, older, j, newer);
  }

  lemma NewBegins(x: Case, g: Stage)
    requires At(x, g) && Can(x, g, BeginNew)
    ensures At(x, Moved(x, g, BeginNew))
  {
    PendMore(x.k, g.s, Fail(x.subject, g.z), g.j, Fail(x.subject, g.t));
    BeginWith(x, g.row, Pending(x, g), g.n, g.clock, x.k + g.j, g.t);
    assert Pending(x, Moved(x, g, BeginNew)) == Pending(x, g)[x.k + g.j := Fail(x.subject, g.t)];
  }

  lemma OldBegins(x: Case, g: Stage)
    requires At(x, g) && Can(x, g, BeginOld)
    ensures At(x, Moved(x, g, BeginOld))
  {
    PendKeys(x.k, g.s, Fail(x.subject, g.z), 0, Fail(x.subject, g.t));
    BeginWith(x, g.row, Pending(x, g), g.n, g.clock, g.s, g.z);
  }

  lemma LastBegins(x: Case, g: Stage)
    requires At(x, g) && Can(x, g, BeginLast)
    ensures At(x, Moved(x, g, BeginLast))
  {
    PendKeys(x.k, 0, Fail(x.subject, g.z), g.j, Fail(x.subject, g.t));
    PendFirst(x.k, Fail(x.subject, g.z), g.j, Fail(x.subject, g.t));
    BeginWith(x, g.row, Pending(x, g), g.n, g.clock, 0, g.z);
  }

  lemma NewFinishes(x: Case, g: Stage)
    requires At(x, g) && Can(x, g, FinishNew)
    ensures At(x, Moved(x, g, FinishNew))
  {
    PendKeys(x.k, g.s, Fail(x.subject, g.z), g.j - 1, Fail(x.subject, g.t));
    FinishWith(x, g.row, Pending(x, g.(j := g.j - 1)), g.n, g.clock, x.k + g.j - 1, g.t);
  }

  lemma OldFinishes(x: Case, g: Stage)
    requires At(x, g) && Can(x, g, FinishOld)
    ensures At(x, Moved(x, g, FinishOld))
  {
    PendKeys(x.k, g.s - 1, Fail(x.subject, g.z), 0, Fail(x.subject, g.t));
    FinishWith(x, g.row, Pending(x, g.(s := g.s - 1)), g.n, g.clock, g.s - 1, g.z);
  }

  lemma MoveSets(x: Case, g: Stage, m: Move)
    requires At(x, g) && Can(x, g, m) && (m.SetOld? || m.SetNew?)
    ensures At(x, Moved(x, g, m))
  {
    var next := Moved(x, g, m);
    PendNone(x.k, g.s, Fail(x.subject, g.z), g.j, Fail(x.subject, g.t),
      Fail(x.subject, next.z), Fail(x.subject, next.t));
  }

  lemma AtMoves(x: Case, g: Stage, m: Move)
    requires At(x, g) && Can(x, g, m)
    ensures At(x, Moved(x, g, m))
  {
    match m
    case BeginNew => NewBegins(x, g);
    case BeginOld => OldBegins(x, g);
    case BeginLast => LastBegins(x, g);
    case FinishNew => NewFinishes(x, g);
    case FinishOld => OldFinishes(x, g);
    case SetOld(_) => MoveSets(x, g, m);
    case SetNew(_) => MoveSets(x, g, m);
  }

  // ---------------------------------------------------------------- the worst run

  /** A property of stages that every possible move keeps. */
  ghost predicate Closed(x: Case, good: Stage -> bool) {
    forall g, m {:trigger Can(x, g, m)} :: good(g) && Can(x, g, m) ==> good(Moved(x, g, m))
  }

  function AfterMany(p: Policy, row: Option<Row>, t: int, j: nat): Option<Row> {
    if j == 0 then row else Some(AfterFailure(p, AfterMany(p, row, t, j - 1), t))
  }

  /** Failures at one time in a window that is open: the count goes up, the maximum locks. */
  lemma {:induction false} ManyCount(p: Policy, row: Row, t: int, j: nat)
    requires t - row.windowStart <= p.window && j >= 1
    ensures AfterMany(p, Some(row), t, j)
      == Some(Row(row.count + j, row.windowStart, if row.count + j >= p.maximum then Some(t + p.lock) else None))
  {
    if j > 1 { ManyCount(p, row, t, j - 1); }
  }

  lemma {:induction false} ManyFromNone(p: Policy, t: int, j: nat)
    requires p.Valid() && p.maximum == 1 && j >= 1
    ensures AfterMany(p, None, t, j) == Some(Row(j, t, Some(t + p.lock)))
  {
    if j > 1 { ManyFromNone(p, t, j - 1); }
  }

  lemma {:induction false} BeginMany(x: Case, good: Stage -> bool, g: Stage, j: nat)
    requires Closed(x, good) && good(g) && g.j == 0 && g.clock <= g.t && g.s + j <= x.k && Admits(g.row, g.t)
    ensures good(g.(j := j, clock := if j == 0 then g.clock else g.t))
  {
    if j > 0 {
      BeginMany(x, good, g, j - 1);
      var before := g.(j := j - 1, clock := if j == 1 then g.clock else g.t);
      assert Can(x, before, BeginNew);
      assert Moved(x, before, BeginNew) == g.(j := j, clock := g.t);
    } else {
      assert g.(j := 0, clock := g.clock) == g;
    }
  }

  lemma {:induction false} FinishMany(x: Case, good: Stage -> bool, g: Stage, i: nat)
    requires Closed(x, good) && good(g) && g.s <= x.k && i <= g.j && x.from <= g.t <= x.to
    ensures good(g.(row := AfterMany(x.p, g.row, g.t, i), j := g.j - i, n := g.n + i))
  {
    if i > 0 {
      FinishMany(x, good, g, i - 1);
      var before := g.(row := AfterMany(x.p, g.row, g.t, i - 1), j := g.j - (i - 1), n := g.n + (i - 1));
      assert Can(x, before, FinishNew);
      assert Moved(x, before, FinishNew) == g.(row := AfterMany(x.p, g.row, g.t, i), j := g.j - i, n := g.n + i);
    } else {
      assert g.(row := g.row, j := g.j - 0, n := g.n + 0) == g;
    }
  }

  /** Several logins at once, all of which fail. */
  lemma Stretch(x: Case, good: Stage -> bool, g: Stage, u: nat)
    requires Closed(x, good) && good(g) && g.j == 0 && g.clock <= g.t && u >= 1 && g.s + u <= x.k
    requires Admits(g.row, g.t) && x.from <= g.t <= x.to
    ensures good(g.(row := AfterMany(x.p, g.row, g.t, u), n := g.n + u, clock := g.t))
  {
    BeginMany(x, good, g, u);
    var begun := g.(j := u, clock := g.t);
    FinishMany(x, good, begun, u);
    assert begun.(row := AfterMany(x.p, g.row, g.t, u), j := u - u, n := g.n + u)
      == g.(row := AfterMany(x.p, g.row, g.t, u), n := g.n + u, clock := g.t);
  }

  /** One failure after the other, as long as the count stays below the maximum. */
  lemma {:induction false} SerialMany(x: Case, good: Stage -> bool, g: Stage, row: Row, i: nat)
    requires Closed(x, good) && good(g) && g.j == 0 && g.clock <= g.t && g.s < x.k && x.from <= g.t <= x.to
    requires g.row == Some(row) && row.lockedUntil.None?
    requires g.t - row.windowStart <= x.p.window && row.count + i < x.p.maximum
    ensures good(g.(row := Some(row.(count := row.count + i)), n := g.n + i, clock := if i == 0 then g.clock else g.t))
  {
    if i == 0 {
      assert row.(count := row.count + 0) == row && g.(row := Some(row), n := g.n + 0, clock := g.clock) == g;
    } else {
      SerialMany(x, good, g, row, i - 1);
      var before := g.(row := Some(row.(count := row.count + (i - 1))), n := g.n + (i - 1),
        clock := if i == 1 then g.clock else g.t);
      Stretch(x, good, before, 1);
      assert AfterMany(x.p, before.row, g.t, 1) == Some(row.(count := row.count + i)) by {
        ManyCount(x.p, before.row.value, g.t, 1);
      }
    }
  }

  function LongAgo(p: Policy): int {
    0 - (p.lock as int)
  }

  lemma {:induction false} StaleMany(x: Case, good: Stage -> bool, g: Stage, s: nat)
    requires Closed(x, good) && good(g) && g.row == None && g.s == 0 && g.j == 0 && g.clock == g.z && s <= x.k
    ensures good(g.(s := s))
  {
    if s > 0 {
      StaleMany(x, good, g, s - 1);
      assert Can(x, g.(s := s - 1), BeginOld);
      assert Moved(x, g.(s := s - 1), BeginOld) == g.(s := s);
    } else {
      assert g.(s := 0) == g;
    }
  }

  /** The next failure locks, and has not yet. */
  predicate Ready(p: Policy, row: Option<Row>, t: int) {
    && Admits(row, t)
    && if row.None? then p.maximum == 1 && t >= 0
       else row.value.count + 1 >= p.maximum && row.value.windowStart >= 0 && t - row.value.windowStart <= p.window
  }

  /** After a stretch the row is locked; a login from long ago unlocks it. */
  lemma StaleUnlocks(p: Policy, row: Option<Row>, t: int, u: nat)
    requires p.Valid() && Ready(p, row, t) && u >= 1 && t >= 0
    ensures var next := AfterFailure(p, AfterMany(p, row, t, u), LongAgo(p));
      Ready(p, Some(next), t) && (row.Some? ==> next.windowStart == row.value.windowStart)
  {
    if row.Some? {
      ManyCount(p, row.value, t, u);
    } else {
      ManyFromNone(p, t, u);
    }
  }

  /** Stretches of growing length, each followed by a login from long ago, until none is left. */
  lemma {:induction false} Climb(x: Case, good: Stage -> bool, g: Stage) returns (last: Stage)
    requires x.p.Valid() && Closed(x, good) && good(g) && Ready(x.p, g.row, g.t)
    requires g.j == 0 && g.z == LongAgo(x.p) && 0 <= g.t && x.from == g.t <= x.to && g.clock <= g.t && g.s < x.k
    ensures good(last) && Ready(x.p, last.row, last.t)
    ensures last == g.(row := last.row, s := 0, n := g.n + Rest(x.k - g.s, x.k - 1), clock := last.clock)
    ensures last.clock <= g.t
    ensures g.row.Some? ==> last.row.Some? && last.row.value.windowStart == g.row.value.windowStart
    decreases g.s
  {
    last := g;
    if g.s > 0 {
      var u := x.k - g.s;
      Stretch(x, good, g, u);
      var locked := g.(row := AfterMany(x.p, g.row, g.t, u), n := g.n + u, clock := g.t);
      assert Can(x, locked, FinishOld);
      StaleUnlocks(x.p, g.row, g.t, u);
      last := Climb(x, good, Moved(x, locked, FinishOld));
      assert Rest(u, x.k - 1) == u + Rest(u + 1, x.k - 1);
    }
  }

  lemma {:induction false} RestEnds(u: nat, k: nat)
    requires 1 <= u <= k
    ensures Rest(u, k) == Rest(u, k - 1) + k
    decreases k - u
  {
    if u < k { RestEnds(u + 1, k); }
  }

  /** One failure locks: stretches of 1, 2, ..., k logins. */
  lemma WorstOfOne(x: Case, good: Stage -> bool) returns (last: Stage)
    requires x.p.Valid() && x.p.maximum == 1 && x.k >= 1 && x.from == 0 && x.to == 0
    requires Closed(x, good) && good(Stage(None, 0, LongAgo(x.p), 0, 0, 0, LongAgo(x.p)))
    ensures good(last) && last.n == Capacity(x.p, x.k)
  {
    var start := Stage(None, 0, LongAgo(x.p), 0, 0, 0, LongAgo(x.p));
    StaleMany(x, good, start, x.k - 1);
    last := Climb(x, good, start.(s := x.k - 1));
    Stretch(x, good, last, x.k);
    last := last.(row := AfterMany(x.p, last.row, last.t, x.k), n := last.n + x.k, clock := last.t);
    RestEnds(1, x.k);
  }

  /** Several failures lock: one early failure, then failures at the very end of its window up to
      one short of the lock, then the stretches; in the last one a login just past the window,
      whose failure opens a new one; there the same again, with one stretch. */
  lemma WorstOfMany(x: Case, good: Stage -> bool) returns (last: Stage)
    requires x.p.Valid() && x.p.maximum >= 2 && x.k >= 1 && x.from == x.p.window && x.to == x.p.window + 1
    requires Closed(x, good) && good(Stage(None, 0, LongAgo(x.p), 0, 0, 0, LongAgo(x.p)))
    ensures good(last) && last.n == Capacity(x.p, x.k)
  {
    var m := x.p.maximum;
    last := OldWindow(x, good);
    last := GivesWay(x, good, last);
    SerialMany(x, good, last, last.row.value, m - 2);
    last := last.(row := Some(last.row.value.(count := m - 1)), n := last.n + (m - 2));
    Stretch(x, good, last, x.k);
    last := last.(row := AfterMany(x.p, last.row, last.t, x.k), n := last.n + x.k);
    RestEnds(1, x.k);
  }

  lemma OldWindow(x: Case, good: Stage -> bool) returns (last: Stage)
    requires x.p.Valid() && x.p.maximum >= 2 && x.k >= 1 && x.from == x.p.window && x.to == x.p.window + 1
    requires Closed(x, good) && good(Stage(None, 0, LongAgo(x.p), 0, 0, 0, LongAgo(x.p)))
    ensures good(last) && Ready(x.p, last.row, x.p.window) && last.row.Some? && last.row.value.windowStart == 0
    ensures last.s == 0 && last.j == 0 && last.t == x.p.window && last.clock <= x.p.window
    ensures last.n == x.p.maximum - 2 + Rest(1, x.k - 1)
  {
    var m := x.p.maximum;
    var start := Stage(None, 0, LongAgo(x.p), 0, 0, 0, LongAgo(x.p));
    StaleMany(x, good, start, x.k - 1);
    var stale := start.(s := x.k - 1);
    assert Can(x, stale, BeginNew);
    var begun := Moved(x, stale, BeginNew);
    assert Can(x, begun, FinishNew);
    var failed := Moved(x, begun, FinishNew);
    assert Can(x, failed, SetNew(x.p.window));
    var moved := Moved(x, failed, SetNew(x.p.window));
    assert moved.row == Some(Row(1, 0, None));
    SerialMany(x, good, moved, moved.row.value, m - 2);
    var full := moved.(row := Some(Row(m - 1, 0, None)), n := m - 2, clock := if m == 2 then 0 else x.p.window);
    last := Climb(x, good, full);
  }

  /** k - 1 logins at the end of the window and one past it, which fails last. */
  lemma GivesWay(x: Case, good: Stage -> bool, g: Stage) returns (last: Stage)
    requires x.p.Valid() && x.p.maximum >= 2 && x.k >= 1 && x.from == x.p.window && x.to == x.p.window + 1
    requires Closed(x, good) && good(g) && Ready(x.p, g.row, x.p.window)
    requires g.row.Some? && g.row.value.windowStart == 0
    requires g.s == 0 && g.j == 0 && g.t == x.p.window && g.clock <= x.p.window
    ensures good(last) && last == Stage(Some(Row(1, x.to, None)), 0, x.to, 0, x.to, g.n + x.k, x.to)
  {
    BeginMany(x, good, g, x.k - 1);
    var begun := g.(j := x.k - 1, clock := if x.k == 1 then g.clock else g.t);
    assert Can(x, begun, SetOld(x.to));
    var set1 := Moved(x, begun, SetOld(x.to));
    assert Can(x, set1, BeginLast);
    var both := Moved(x, set1, BeginLast);
    FinishMany(x, good, both, x.k - 1);
    var one := both.(row := AfterMany(x.p, both.row, both.t, x.k - 1), j := 0, n := both.n + (x.k - 1));
    assert one.j == both.j - (x.k - 1);
    if x.k > 1 { ManyCount(x.p, both.row.value, both.t, x.k - 1); }
    assert one.row.Some? && one.row.value.windowStart == 0;
    assert Can(x, one, FinishOld);
    var renewed := Moved(x, one, FinishOld);
    assert Can(x, renewed, SetNew(x.to));
    last := Moved(x, renewed, SetNew(x.to));
  }

  /** The bound is sharp for every policy and every number of logins: some run fills it within
      two neighbouring ticks. */
  lemma CrowdIsReached(p: Policy, subject: string, k: nat) returns (actions: seq<Action>, from: int, to: int)
    requires p.Valid() && k >= 1
    ensures from <= to <= from + 1 && AtMost(p, actions, subject, k) && Clocked(actions)
    ensures InSpan(RaceTimes(p, actions, subject), from, to) == Capacity(p, k)
  {
    from := if p.maximum == 1 then 0 else p.window;
    to := if p.maximum == 1 then 0 else p.window + 1;
    var x := Case(p, subject, k, from, to);
    var good := (g: Stage) => At(x, g);
    forall g, m {:trigger Can(x, g, m)} | good(g) && Can(x, g, m) ensures good(Moved(x, g, m)) { AtMoves(x, g, m); }
    var start := Stage(None, 0, LongAgo(p), 0, 0, 0, LongAgo(p));
    ReachedStart(x, LongAgo(p));
    assert Pending(x, start) == map[];
    var last: Stage;
    if p.maximum == 1 { last := WorstOfOne(x, good); } else { last := WorstOfMany(x, good); }
    assert At(x, last);
    actions :| Arrives(x, actions, State(Rows(x.subject, last.row), Pending(x, last)), last.n, last.clock);
  }

  /** One login at a time gives the serial bound, and every further one allows strictly more. */
  lemma CapacityGrows(p: Policy, k: nat)
    requires p.Valid() && k >= 1
    ensures Capacity(p, 1) == Burst(p) - 1 && Capacity(p, k) < Capacity(p, k + 1)
  {
    RestEnds(1, k + 1);
    assert Rest(1, 1) == 1 + Rest(2, 1) && Rest(2, 1) == 0;
  }
}
