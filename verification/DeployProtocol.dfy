/** The exactly-bound deploy protocol (app/control_plane.py), with any number of callers that
    may each stop between any two steps. */
module DeployProtocol {
  import opened Outcomes
  import opened Text

  type Key = string

  /** A request; the repository and the target are constants of the bridge. */
  datatype Request = Request(sha: string, expected: string)

  /** SHA-256 of the canonical request, as an injective constructor. */
  datatype Digest = RequestHash(request: Request)

  datatype Status = Reserved | Completed | Rejected | SubmissionUnverified

  datatype Result =
    | Deployment(id: string, request: Request)
    | ChangedAfterReservation(observed: string)
    | HttpStatus(code: nat)
    | CommitNotFound
    | Ambiguous
    | Transport(reason: string)

  datatype Row = Row(hash: Digest, status: Status, result: Option<Result>)

  type Rows = map<Key, Row>

  datatype Error =
    | AuthenticationRejected
    | BindingRejected
    | CompareAndSwapRejected
    | IdempotencyConflict
    | OutcomeUnverified
    | ControlError
    | Unhandled

  datatype Answer = Returned(result: Result) | Refused(error: Error)

  /** What reading the current deployment yields. */
  datatype Observation = Unreadable | Current(id: string)

  /** What posting the mutation yields. `commitNotFound`: the error messages say so. */
  datatype Body = NotJson | Json(hasErrors: bool, commitNotFound: bool, deploymentId: string)
  datatype Reply = TransportError(reason: string) | Http(code: nat, body: Body)

  // ---------------------------------------------------------------- local decisions

  predicate IsCommitSha(s: string) {
    |s| == 40 && forall i :: 0 <= i < |s| ==> '0' <= s[i] <= '9' || 'a' <= s[i] <= 'f'
  }

  /** The fields as the bridge reads them. */
  function Normalized(raw: Request): Request {
    Request(Lower(Strip(raw.sha)), Strip(raw.expected))
  }

  /** White space at both ends of a field does not count, nor does the case of the digits. */
  lemma FieldsAreRead(raw: Request) returns (i: nat, j: nat, k: nat, l: nat)
    ensures Trimmed(raw.expected, i, j) && Normalized(raw).expected == raw.expected[i..j]
    ensures Trimmed(raw.sha, k, l) && |Normalized(raw).sha| == l - k
    ensures forall n :: 0 <= n < l - k ==> Lowers(raw.sha[k + n], Normalized(raw).sha[n])
  {
    i, j := StripTrims(raw.expected);
    k, l := StripTrims(raw.sha);
    forall n | 0 <= n < l - k ensures Lowers(raw.sha[k + n], Normalized(raw).sha[n]) {
      LowersIff(raw.sha[k + n], Fold(raw.sha[k + n]));
    }
  }

  predicate ValidKey(key: Key) {
    0 < |key| <= 200
  }

  /** Whether an earlier attempt under the key settles the call: `None` lets it go on. */
  function ExistingResult(rows: Rows, key: Key, hash: Digest): Option<Answer> {
    if key !in rows then None
    else if rows[key].hash != hash then Some(Refused(IdempotencyConflict))
    else if rows[key].status.Completed? && rows[key].result.Some? then Some(Returned(rows[key].result.value))
    else if rows[key].status.SubmissionUnverified? then Some(Refused(OutcomeUnverified))
    else Some(Refused(IdempotencyConflict))
  }

  /** Why a reservation is refused, if it is. */
  function ReserveError(rows: Rows, key: Key, hash: Digest): Option<Error> {
    if !ValidKey(key) then Some(IdempotencyConflict)
    else if key !in rows then None
    else if rows[key].hash == hash && rows[key].status.SubmissionUnverified? then Some(OutcomeUnverified)
    else Some(IdempotencyConflict)
  }

  /** The verdict on a reply; `None` when its body cannot be decoded, which escapes unmarked. */
  function Classify(reply: Reply, request: Request): Option<(Status, Result)> {
    match reply
    case TransportError(reason) => Some((SubmissionUnverified, Transport(reason)))
    case Http(code, body) =>
      if code >= 500 then Some((SubmissionUnverified, HttpStatus(code)))
      else if code >= 400 then Some((Rejected, HttpStatus(code)))
      else if body.NotJson? then None
      else if body.hasErrors || body.deploymentId == "" then
        Some(if body.hasErrors && body.commitNotFound then (Rejected, CommitNotFound)
             else (SubmissionUnverified, Ambiguous))
      else Some((Completed, Deployment(body.deploymentId, request)))
  }

  /** What the caller is told once the mark is durable. */
  function FinalAnswer(status: Status, result: Result): Answer {
    match status
    case Completed => Returned(result)
    case Rejected => Refused(if result.ChangedAfterReservation? then CompareAndSwapRejected else ControlError)
    case _ => Refused(OutcomeUnverified)
  }

  // ---------------------------------------------------------------- the ledger, in place

  class IdempotencyLedger {
    var rows: Rows

    constructor ()
      ensures rows == map[]
    {
      rows := map[];
    }

    method Reserve(key: Key, hash: Digest) returns (error: Option<Error>)
      modifies this
      ensures error == ReserveError(old(rows), key, hash)
      ensures rows == if error.None? then old(rows)[key := Row(hash, Reserved, None)] else old(rows)
    {
      if !ValidKey(key) { return Some(IdempotencyConflict); }
      if key in rows {
        var existing := rows[key];
        if existing.hash != hash { return Some(IdempotencyConflict); }
        if existing.status == SubmissionUnverified { return Some(OutcomeUnverified); }
        return Some(IdempotencyConflict);
      }
      rows := rows[key := Row(hash, Reserved, None)];
      return None;
    }

    method Mark(key: Key, status: Status, result: Result) returns (found: bool)
      modifies this
      ensures found <==> key in old(rows)
      ensures rows == if found then old(rows)[key := old(rows)[key].(status := status, result := Some(result))]
        else old(rows)
    {
      found := key in rows;
      if found {
        rows := rows[key := rows[key].(status := status, result := Some(result))];
      }
    }
  }

  // ---------------------------------------------------------------- interleaved callers

  /** Where a caller stands: the ledger said nothing (`Fresh`), the target was as expected
      (`Seen`), the reservation is durable (`Holding`), the second look agreed (`Cleared`),
      or the outcome is known and waits to be marked (`Deciding`). */
  datatype Caller =
    | Fresh(key: Key, request: Request)
    | Seen(key: Key, request: Request)
    | Holding(key: Key, request: Request)
    | Cleared(key: Key, request: Request)
    | Deciding(key: Key, request: Request, status: Status, result: Result)
    | Done(answer: Answer)
  {
    /** Between its reservation and its mark. */
    predicate Owns(k: Key) {
      (Holding? || Cleared? || Deciding?) && key == k
    }
  }

  /** The observable acts, in the order in which they happen. */
  datatype Event =
    | DidReserve(key: Key, request: Request)
    | DidConfirm(key: Key, id: string)
    | DidSubmit(key: Key, request: Request, reply: Reply)
    | DidMark(key: Key, status: Status)

  datatype State = State(rows: Rows, callers: map<nat, Caller>, log: seq<Event>)

  datatype Action =
    | Arrive(c: nat, authentic: bool, key: Key, request: Request)
    | Observe(c: nat, seen: Observation)
    | TakeReservation(c: nat)
    | Recheck(c: nat, seen: Observation)
    | Submit(c: nat, reply: Reply)
    | RecordOutcome(c: nat)
    | Crash(c: nat)

  const INITIAL := State(map[], map[], [])

  function Move(st: State, c: nat, to: Caller): State {
    st.(callers := st.callers[c := to])
  }

  function Refuse(st: State, c: nat, error: Error): State {
    Move(st, c, Done(Refused(error)))
  }

  /** One atomic step; an action its caller is not ready for changes nothing. */
  function Step(st: State, a: Action): State {
    if a.Arrive? then
      if a.c in st.callers then st
      else if !a.authentic then Refuse(st, a.c, AuthenticationRejected)
      else if !IsCommitSha(a.request.sha) then Refuse(st, a.c, BindingRejected)
      else if a.request.expected == "" then Refuse(st, a.c, CompareAndSwapRejected)
      else
        var existing := ExistingResult(st.rows, a.key, RequestHash(a.request));
        Move(st, a.c, if existing.Some? then Done(existing.value) else Fresh(a.key, a.request))
    else if a.c !in st.callers then st
    else
      var me := st.callers[a.c];
      match a
      case Observe(c, seen) =>
        if !me.Fresh? then st
        else if seen.Unreadable? then Refuse(st, c, BindingRejected)
        else if seen.id != me.request.expected then Refuse(st, c, CompareAndSwapRejected)
        else Move(st, c, Seen(me.key, me.request))
      case TakeReservation(c) =>
        if !me.Seen? then st
        else
          var error := ReserveError(st.rows, me.key, RequestHash(me.request));
          if error.Some? then Refuse(st, c, error.value)
          else State(st.rows[me.key := Row(RequestHash(me.request), Reserved, None)],
                     st.callers[c := Holding(me.key, me.request)],
                     st.log + [DidReserve(me.key, me.request)])
      case Recheck(c, seen) =>
        if !me.Holding? then st
        else if seen.Unreadable? then Refuse(st, c, BindingRejected)
        else if seen.id != me.request.expected then
          Move(st, c, Deciding(me.key, me.request, Rejected, ChangedAfterReservation(seen.id)))
        else Move(st, c, Cleared(me.key, me.request)).(log := st.log + [DidConfirm(me.key, seen.id)])
      case Submit(c, reply) =>
        if !me.Cleared? then st
        else
          var verdict := Classify(reply, me.request);
          Move(st, c, if verdict.None? then Done(Refused(Unhandled))
                      else Deciding(me.key, me.request, verdict.value.0, verdict.value.1))
            .(log := st.log + [DidSubmit(me.key, me.request, reply)])
      case RecordOutcome(c) =>
        if !me.Deciding? then st
        else if me.key !in st.rows then Refuse(st, c, IdempotencyConflict)
        else State(st.rows[me.key := st.rows[me.key].(status := me.status, result := Some(me.result))],
                   st.callers[c := Done(FinalAnswer(me.status, me.result))],
                   st.log + [DidMark(me.key, me.status)])
      case Crash(c) => st.(callers := st.callers - {c})
  }

  function Execute(st: State, actions: seq<Action>): State
    decreases actions
  {
    if actions == [] then st else Execute(Step(st, actions[0]), actions[1..])
  }

  /** What the remote side replied to the mutations posted under the key, in order. */
  function Replies(log: seq<Event>, key: Key): seq<Reply> {
    if log == [] then []
    else Replies(log[..|log| - 1], key) + ReplyOf(log[|log| - 1], key)
  }

  function ReplyOf(e: Event, key: Key): seq<Reply> {
    if e.DidSubmit? && e.key == key then [e.reply] else []
  }

  function Submissions(log: seq<Event>, key: Key): nat {
    |Replies(log, key)|
  }

  // ---------------------------------------------------------------- what a reply means

  /** The remote side created this deployment and said so. */
  predicate CarriedOut(reply: Reply, id: string) {
    reply.Http? && reply.code < 400 && reply.body.Json? && !reply.body.hasErrors && reply.body.deploymentId == id != ""
  }

  /** It refused the mutation: a client error, or an error naming the commit. */
  predicate TurnedDown(reply: Reply) {
    && reply.Http?
    && (400 <= reply.code < 500
        || (reply.code < 400 && reply.body.Json? && reply.body.hasErrors && reply.body.commitNotFound))
  }

  /** Nobody can tell whether it was carried out. */
  predicate InDoubt(reply: Reply) {
    || reply.TransportError?
    || reply.code >= 500
    || (reply.code < 400 && reply.body.Json?
        && if reply.body.hasErrors then !reply.body.commitNotFound else reply.body.deploymentId == "")
  }

  predicate Undecodable(reply: Reply) {
    reply.Http? && reply.code < 400 && reply.body.NotJson?
  }

  /** The mark a reply deserves. */
  predicate Deserved(reply: Reply, request: Request, status: Status, result: Result) {
    match status
    case Completed => result.Deployment? && CarriedOut(reply, result.id) && result.request == request
    case Rejected =>
      TurnedDown(reply) && result == if reply.code < 400 then CommitNotFound else HttpStatus(reply.code)
    case SubmissionUnverified =>
      && InDoubt(reply)
      && result == (match reply
                    case TransportError(reason) => Transport(reason)
                    case Http(code, _) => if code < 400 then Ambiguous else HttpStatus(code))
    case Reserved => false
  }

  /** Every reply is exactly one of the four. */
  lemma RepliesPartition(reply: Reply)
    ensures var done := reply.Http? && reply.body.Json? && CarriedOut(reply, reply.body.deploymentId);
      && (done || TurnedDown(reply) || InDoubt(reply) || Undecodable(reply))
      && !(done && TurnedDown(reply)) && !(done && InDoubt(reply)) && !(done && Undecodable(reply))
      && !(TurnedDown(reply) && InDoubt(reply)) && !(TurnedDown(reply) && Undecodable(reply))
      && !(InDoubt(reply) && Undecodable(reply))
  {
  }

  lemma VerdictIsDeserved(reply: Reply, request: Request)
    ensures var verdict := Classify(reply, request);
      if verdict.None? then Undecodable(reply)
      else Deserved(reply, request, verdict.value.0, verdict.value.1) && !verdict.value.1.ChangedAfterReservation?
  {
  }

  // ---------------------------------------------------------------- the invariant

  /** The reservation, the confirmation of the expected deployment and the submission are in
      the log, in this order: the first `stages` of them. */
  ghost predicate Proven(log: seq<Event>, key: Key, request: Request, stages: nat) {
    exists i, j, k :: Trail(log, key, request, stages, i, j, k)
  }

  ghost predicate Trail(log: seq<Event>, key: Key, request: Request, stages: nat, i: nat, j: nat, k: nat) {
    && (stages >= 1 ==> i < |log| && log[i] == DidReserve(key, request))
    && (stages >= 2 ==> i < j < |log| && log[j] == DidConfirm(key, request.expected))
    && (stages >= 3 ==> j < k < |log| && log[k].DidSubmit? && log[k].key == key && log[k].request == request)
  }

  lemma ProvenLater(log: seq<Event>, e: Event, key: Key, request: Request, stages: nat)
    requires Proven(log, key, request, stages)
    ensures Proven(log + [e], key, request, stages)
  {
    var i, j, k :| Trail(log, key, request, stages, i, j, k);
    assert Trail(log + [e], key, request, stages, i, j, k);
  }

  lemma ProvenNext(log: seq<Event>, e: Event, key: Key, request: Request, stages: nat)
    requires stages < 3 && (stages > 0 ==> Proven(log, key, request, stages))
    requires if stages == 2 then e.DidSubmit? && e.key == key && e.request == request
             else e == if stages == 0 then DidReserve(key, request) else DidConfirm(key, request.expected)
    ensures Proven(log + [e], key, request, stages + 1)
  {
    var n := |log|;
    if stages == 0 {
      assert Trail(log + [e], key, request, 1, n, n, n);
    } else {
      var i, j, k :| Trail(log, key, request, stages, i, j, k);
      if stages == 1 {
        assert Trail(log + [e], key, request, 2, i, n, n);
      } else {
        assert Trail(log + [e], key, request, 3, i, j, n);
      }
    }
  }

  /** How far the log must have gone for a caller between reservation and mark. */
  function Stages(caller: Caller): nat {
    match caller
    case Cleared(_, _) => 2
    case Deciding(_, _, _, result) => if result.ChangedAfterReservation? then 1 else 3
    case _ => 1
  }

  ghost predicate CallerOk(st: State, c: nat)
    requires c in st.callers
  {
    var me := st.callers[c];
    me.Holding? || me.Cleared? || me.Deciding? ==>
      && me.key in st.rows
      && st.rows[me.key] == Row(RequestHash(me.request), Reserved, None)
      && Proven(st.log, me.key, me.request, Stages(me))
      && Submissions(st.log, me.key) == (if Stages(me) == 3 then 1 else 0)
      && (me.Deciding? ==>
            if me.result.ChangedAfterReservation? then me.status.Rejected?
            else Deserved(Replies(st.log, me.key)[0], me.request, me.status, me.result))
  }

  /** A row against the log: who may have submitted under it, and what a mark implies. */
  ghost predicate RowOk(st: State, key: Key)
    requires key in st.rows
  {
    var row := st.rows[key];
    && Submissions(st.log, key) <= 1
    && (row.status.Reserved? <==> row.result.None?)
    && (row.result.Some? ==>
          if row.result.value.ChangedAfterReservation? then row.status.Rejected? && Submissions(st.log, key) == 0
          else
            && Submissions(st.log, key) == 1 && Proven(st.log, key, row.hash.request, 3)
            && Deserved(Replies(st.log, key)[0], row.hash.request, row.status, row.result.value))
  }

  ghost predicate Inv(st: State) {
    && (forall c :: c in st.callers ==> CallerOk(st, c))
    && (forall key :: key in st.rows ==> RowOk(st, key))
    && (forall c, d, k :: c in st.callers && d in st.callers && st.callers[c].Owns(k) && st.callers[d].Owns(k) ==>
      c == d)
    && (forall key :: key !in st.rows ==> Submissions(st.log, key) == 0)
  }

  lemma LogGrows(log: seq<Event>, e: Event)
    ensures forall key, request, stages: nat :: Proven(log, key, request, stages) ==>
      Proven(log + [e], key, request, stages)
    ensures forall key ::
      Replies(log + [e], key) == Replies(log, key) + ReplyOf(e, key)
  {
    forall key: Key, request: Request, stages: nat | Proven(log, key, request, stages)
      ensures Proven(log + [e], key, request, stages)
    {
      ProvenLater(log, e, key, request, stages);
    }
    assert (log + [e])[..|log|] == log;
  }

  /** A logged action of caller `c` under `key`: it touches no other caller and no other row. */
  ghost predicate OwnAct(st: State, next: State, c: nat, key: Key, e: Event) {
    && c in st.callers && next.callers.Keys == st.callers.Keys
    && (forall d :: d in st.callers && d != c ==> next.callers[d] == st.callers[d])
    && (forall k :: next.callers[c].Owns(k) ==> k == key)
    && next.rows.Keys == st.rows.Keys + {key}
    && (forall k :: k in st.rows && k != key ==> next.rows[k] == st.rows[k])
    && next.log == st.log + [e] && e.key == key
  }

  /** Nobody but `c` stands between a reservation and a mark under this key. */
  ghost predicate Alone(st: State, c: nat, key: Key) {
    forall d :: d in st.callers && d != c ==> !st.callers[d].Owns(key)
  }

  /** Such an action keeps the invariant if it leaves its caller and the row of its key in order. */
  lemma OwnActKeeps(st: State, next: State, c: nat, key: Key, e: Event)
    requires Inv(st) && OwnAct(st, next, c, key, e) && Alone(st, c, key)
    requires CallerOk(next, c) && RowOk(next, key)
    ensures Inv(next)
  {
    OneOwnerAKey(st, next, c, key, e);
    OthersStayOk(st, next, c, key, e);
  }

  lemma OneOwnerAKey(st: State, next: State, c: nat, key: Key, e: Event)
    requires Inv(st) && OwnAct(st, next, c, key, e) && Alone(st, c, key)
    ensures forall d1, d2, k ::
      d1 in next.callers && d2 in next.callers && next.callers[d1].Owns(k) && next.callers[d2].Owns(k) ==> d1 == d2
  {
  }

  lemma OthersStayOk(st: State, next: State, c: nat, key: Key, e: Event)
    requires Inv(st) && OwnAct(st, next, c, key, e) && Alone(st, c, key)
    ensures forall d :: d in next.callers && d != c ==> CallerOk(next, d)
    ensures forall k :: k in next.rows && k != key ==> RowOk(next, k)
    ensures forall k :: k !in next.rows ==> Submissions(next.log, k) == 0
  {
    LogGrows(st.log, e);
    forall d | d in next.callers && d != c ensures CallerOk(next, d) { assert CallerOk(st, d); }
    forall k | k in next.rows && k != key ensures RowOk(next, k) { assert RowOk(st, k); }
  }

  /** What the invariant says of a caller that owns its key. */
  lemma OwnerIsAlone(st: State, c: nat, key: Key)
    requires Inv(st) && c in st.callers && st.callers[c].Owns(key)
    ensures key in st.rows && CallerOk(st, c) && RowOk(st, key) && Alone(st, c, key)
  {
    assert CallerOk(st, c);
  }

  lemma FreeKeyHasNoOwner(st: State, c: nat, key: Key)
    requires Inv(st) && key !in st.rows
    ensures Submissions(st.log, key) == 0 && Alone(st, c, key)
  {
    forall d | d in st.callers ensures !st.callers[d].Owns(key) { assert CallerOk(st, d); }
  }

  lemma ReserveIsOwn(st: State, c: nat)
    requires c in st.callers && st.callers[c].Seen?
    requires ReserveError(st.rows, st.callers[c].key, RequestHash(st.callers[c].request)).None?
    ensures var me := st.callers[c];
      OwnAct(st, Step(st, TakeReservation(c)), c, me.key, DidReserve(me.key, me.request))
  {
  }

  lemma ReserveKeepsOwn(st: State, c: nat)
    requires c in st.callers && st.callers[c].Seen? && Submissions(st.log, st.callers[c].key) == 0
    requires ReserveError(st.rows, st.callers[c].key, RequestHash(st.callers[c].request)).None?
    ensures var next := Step(st, TakeReservation(c));
      CallerOk(next, c) && RowOk(next, st.callers[c].key)
  {
    var me := st.callers[c];
    var e := DidReserve(me.key, me.request);
    LogGrows(st.log, e);
    ProvenNext(st.log, e, me.key, me.request, 0);
  }

  lemma InvTakeReservation(st: State, c: nat)
    requires Inv(st) && c in st.callers && st.callers[c].Seen?
    ensures Inv(Step(st, TakeReservation(c)))
  {
    var next := Step(st, TakeReservation(c));
    var me := st.callers[c];
    if ReserveError(st.rows, me.key, RequestHash(me.request)).Some? {
      InvQuiet(st, next);
    } else {
      ReserveIsOwn(st, c);
      FreeKeyHasNoOwner(st, c, me.key);
      ReserveKeepsOwn(st, c);
      OwnActKeeps(st, next, c, me.key, DidReserve(me.key, me.request));
    }
  }

  lemma ConfirmIsOwn(st: State, c: nat)
    requires c in st.callers && st.callers[c].Holding? && st.callers[c].key in st.rows
    ensures var me := st.callers[c];
      OwnAct(st, Step(st, Recheck(c, Current(me.request.expected))), c, me.key, DidConfirm(me.key, me.request.expected))
  {
  }

  lemma ConfirmKeepsOwn(st: State, c: nat)
    requires c in st.callers && st.callers[c].Holding? && CallerOk(st, c) && RowOk(st, st.callers[c].key)
    ensures var next := Step(st, Recheck(c, Current(st.callers[c].request.expected)));
      CallerOk(next, c) && RowOk(next, st.callers[c].key)
  {
    var me := st.callers[c];
    var e := DidConfirm(me.key, me.request.expected);
    LogGrows(st.log, e);
    ProvenNext(st.log, e, me.key, me.request, 1);
  }

  lemma InvConfirm(st: State, c: nat)
    requires Inv(st) && c in st.callers && st.callers[c].Holding?
    ensures Inv(Step(st, Recheck(c, Current(st.callers[c].request.expected))))
  {
    var me := st.callers[c];
    OwnerIsAlone(st, c, me.key);
    ConfirmIsOwn(st, c);
    ConfirmKeepsOwn(st, c);
    OwnActKeeps(st, Step(st, Recheck(c, Current(me.request.expected))), c, me.key,
      DidConfirm(me.key, me.request.expected));
  }

  /** A second look that fails leaves ledger and log; its caller owns no more than before. */
  lemma InvSecondLookFails(st: State, c: nat, seen: Observation)
    requires Inv(st) && c in st.callers && st.callers[c].Holding?
    requires seen != Current(st.callers[c].request.expected)
    ensures Inv(Step(st, Recheck(c, seen)))
  {
    if seen.Unreadable? {
      InvQuiet(st, Step(st, Recheck(c, seen)));
    } else {
      var me := st.callers[c];
      OwnerIsAlone(st, c, me.key);
      InvRejected(st, c, seen.id);
    }
  }

  lemma InvRejected(st: State, c: nat, id: string)
    requires Inv(st) && c in st.callers && st.callers[c].Holding?
    ensures var me := st.callers[c];
      Inv(Move(st, c, Deciding(me.key, me.request, Rejected, ChangedAfterReservation(id))))
  {
    var me := st.callers[c];
    var next := Move(st, c, Deciding(me.key, me.request, Rejected, ChangedAfterReservation(id)));
    assert CallerOk(st, c);
    forall d | d in next.callers ensures CallerOk(next, d) { assert d != c ==> CallerOk(st, d); }
    forall k | k in next.rows ensures RowOk(next, k) { assert RowOk(st, k); }
    forall d, k | d in next.callers && next.callers[d].Owns(k) ensures st.callers[d].Owns(k) {}
  }

  lemma SubmitIsOwn(st: State, c: nat, reply: Reply)
    requires c in st.callers && st.callers[c].Cleared? && st.callers[c].key in st.rows
    ensures var me := st.callers[c];
      OwnAct(st, Step(st, Submit(c, reply)), c, me.key, DidSubmit(me.key, me.request, reply))
  {
  }

  lemma PostedKeepsOwn(st: State, next: State, c: nat, reply: Reply)
    requires c in st.callers && st.callers[c].Cleared? && CallerOk(st, c) && RowOk(st, st.callers[c].key)
    requires var me := st.callers[c];
      && next.rows == st.rows && next.log == st.log + [DidSubmit(me.key, me.request, reply)] && c in next.callers
      && (next.callers[c].Done?
          || exists status, result :: next.callers[c] == Deciding(me.key, me.request, status, result)
               && Deserved(reply, me.request, status, result) && !result.ChangedAfterReservation?)
    ensures CallerOk(next, c) && RowOk(next, st.callers[c].key)
  {
    var me := st.callers[c];
    var e := DidSubmit(me.key, me.request, reply);
    LogGrows(st.log, e);
    ProvenNext(st.log, e, me.key, me.request, 2);
    assert Replies(next.log, me.key) == [reply];
  }

  lemma SubmitKeepsOwn(st: State, c: nat, reply: Reply)
    requires c in st.callers && st.callers[c].Cleared? && CallerOk(st, c) && RowOk(st, st.callers[c].key)
    ensures var next := Step(st, Submit(c, reply));
      CallerOk(next, c) && RowOk(next, st.callers[c].key)
  {
    var me := st.callers[c];
    VerdictIsDeserved(reply, me.request);
    var verdict := Classify(reply, me.request);
    var next := Step(st, Submit(c, reply));
    if verdict.Some? { assert next.callers[c] == Deciding(me.key, me.request, verdict.value.0, verdict.value.1); }
    PostedKeepsOwn(st, next, c, reply);
  }

  lemma InvSubmit(st: State, c: nat, reply: Reply)
    requires Inv(st) && c in st.callers && st.callers[c].Cleared?
    ensures Inv(Step(st, Submit(c, reply)))
  {
    var me := st.callers[c];
    OwnerIsAlone(st, c, me.key);
    SubmitIsOwn(st, c, reply);
    SubmitKeepsOwn(st, c, reply);
    OwnActKeeps(st, Step(st, Submit(c, reply)), c, me.key, DidSubmit(me.key, me.request, reply));
  }

  lemma MarkIsOwn(st: State, c: nat)
    requires c in st.callers && st.callers[c].Deciding? && st.callers[c].key in st.rows
    ensures var me := st.callers[c]; OwnAct(st, Step(st, RecordOutcome(c)), c, me.key, DidMark(me.key, me.status))
  {
  }

  lemma MarkKeepsOwn(st: State, c: nat)
    requires c in st.callers && st.callers[c].Deciding? && CallerOk(st, c) && RowOk(st, st.callers[c].key)
    ensures var next := Step(st, RecordOutcome(c));
      CallerOk(next, c) && RowOk(next, st.callers[c].key)
  {
    LogGrows(st.log, DidMark(st.callers[c].key, st.callers[c].status));
  }

  lemma InvRecordOutcome(st: State, c: nat)
    requires Inv(st) && c in st.callers && st.callers[c].Deciding?
    ensures Inv(Step(st, RecordOutcome(c)))
  {
    var me := st.callers[c];
    OwnerIsAlone(st, c, me.key);
    MarkIsOwn(st, c);
    MarkKeepsOwn(st, c);
    OwnActKeeps(st, Step(st, RecordOutcome(c)), c, me.key, DidMark(me.key, me.status));
  }

  /** An action that touches neither the ledger nor the log and gives nobody ownership. */
  lemma InvQuiet(st: State, next: State)
    requires Inv(st) && next.rows == st.rows && next.log == st.log
    requires forall c :: c in next.callers ==>
      (c in st.callers && next.callers[c] == st.callers[c]) || next.callers[c].Fresh? || next.callers[c].Seen?
        || next.callers[c].Done?
    ensures Inv(next)
  {
    forall c | c in next.callers ensures CallerOk(next, c) {
      if c in st.callers && next.callers[c] == st.callers[c] { assert CallerOk(st, c); }
    }
    forall key | key in next.rows ensures RowOk(next, key) {
      assert RowOk(st, key);
    }
  }

  lemma InvStep(st: State, a: Action)
    requires Inv(st)
    ensures Inv(Step(st, a))
  {
    if a.Arrive? || a.c !in st.callers || a.Observe? || a.Crash? {
      InvQuiet(st, Step(st, a));
    } else {
      var me := st.callers[a.c];
      match a
      case TakeReservation(c) => if me.Seen? { InvTakeReservation(st, c); }
      case Recheck(c, seen) =>
        if me.Holding? {
          if seen == Current(me.request.expected) { InvConfirm(st, c); } else { InvSecondLookFails(st, c, seen); }
        }
      case Submit(c, reply) => if me.Cleared? { InvSubmit(st, c, reply); }
      case RecordOutcome(c) => if me.Deciding? { InvRecordOutcome(st, c); }
    }
  }

  lemma {:induction false} InvRun(st: State, actions: seq<Action>)
    requires Inv(st)
    ensures Inv(Execute(st, actions))
    decreases actions
  {
    if actions != [] {
      InvStep(st, actions[0]);
      InvRun(Step(st, actions[0]), actions[1..]);
    }
  }

  // ---------------------------------------------------------------- main results

  /** At most one remote mutation per idempotency key, whatever the interleaving. */
  lemma AtMostOnce(actions: seq<Action>, key: Key)
    ensures Submissions(Execute(INITIAL, actions).log, key) <= 1
  {
    InvRun(INITIAL, actions);
  }

  /** What a settled row says is what happened: one submission, preceded by the reservation
      and by a confirmation of the expected deployment made after it; none if the second look
      rejected the call. And its status is what the one reply deserves: COMPLETED, with the id
      the remote side gave, exactly if the deployment was carried out. */
  lemma SettledRowIsTrue(actions: seq<Action>, key: Key)
    ensures var st := Execute(INITIAL, actions);
      key in st.rows && !st.rows[key].status.Reserved? ==>
        var row, replies := st.rows[key], Replies(st.log, key);
        && row.result.Some?
        && if row.result.value.ChangedAfterReservation? then row.status.Rejected? && replies == []
           else
             && |replies| == 1 && Proven(st.log, key, row.hash.request, 3)
             && (row.status.Completed? <==> exists id :: CarriedOut(replies[0], id))
             && (row.status.Rejected? <==> TurnedDown(replies[0]))
             && (row.status.SubmissionUnverified? <==> InDoubt(replies[0]))
             && (forall id :: CarriedOut(replies[0], id) ==> row.result.value == Deployment(id, row.hash.request))
  {
    InvRun(INITIAL, actions);
    var st := Execute(INITIAL, actions);
    if key in st.rows && !st.rows[key].status.Reserved? {
      var row, replies := st.rows[key], Replies(st.log, key);
      assert RowOk(st, key);
      if !row.result.value.ChangedAfterReservation? {
        RepliesPartition(replies[0]);
        if row.status.Completed? { assert CarriedOut(replies[0], replies[0].body.deploymentId); }
      }
    }
  }

  /** A reply whose body nobody can read leaves the row RESERVED for good. */
  lemma UndecodableStaysReserved(actions: seq<Action>, key: Key)
    ensures var st := Execute(INITIAL, actions); var replies := Replies(st.log, key);
      |replies| > 0 && Undecodable(replies[0]) ==> key in st.rows && st.rows[key].status.Reserved?
  {
    InvRun(INITIAL, actions);
    var st := Execute(INITIAL, actions);
    if Submissions(st.log, key) > 0 {
      assert RowOk(st, key);
    }
  }

  // ---------------------------------------------------------------- who submits, and who is told

  /** Forty lower-case hexadecimal digits and nothing else. */
  predicate FortyHexDigits(s: string) {
    |s| == 40 && forall i :: 0 <= i < |s| ==> s[i] in "0123456789abcdef"
  }

  /** An authentic call with an exact commit and an expected deployment. */
  predicate Vetted(a: Action) {
    a.Arrive? && a.authentic && FortyHexDigits(a.request.sha) && a.request.expected != ""
  }

  /** Every call under way, and every mutation posted, is a granted one. */
  ghost predicate AllGranted(st: State, granted: (Key, Request) -> bool) {
    && (forall c :: c in st.callers ==> st.callers[c].Done? || granted(st.callers[c].key, st.callers[c].request))
    && (forall k :: 0 <= k < |st.log| && st.log[k].DidSubmit? ==> granted(st.log[k].key, st.log[k].request))
  }

  lemma GrantedStep(st: State, a: Action, granted: (Key, Request) -> bool)
    requires AllGranted(st, granted) && (Vetted(a) ==> granted(a.key, a.request))
    ensures AllGranted(Step(st, a), granted)
  {
  }

  lemma {:induction false} GrantedRun(st: State, actions: seq<Action>, granted: (Key, Request) -> bool)
    requires AllGranted(st, granted)
    requires forall a :: a in actions && Vetted(a) ==> granted(a.key, a.request)
    ensures AllGranted(Execute(st, actions), granted)
    decreases actions
  {
    if actions != [] {
      GrantedStep(st, actions[0], granted);
      GrantedRun(Step(st, actions[0]), actions[1..], granted);
    }
  }

  /** Whoever posts a mutation was let in with this very key and request: authentic, with forty
      hexadecimal digits and an expected deployment. */
  lemma OnlyVettedSubmit(actions: seq<Action>, k: nat)
    requires var log := Execute(INITIAL, actions).log; k < |log| && log[k].DidSubmit?
    ensures var e := Execute(INITIAL, actions).log[k];
      exists a :: a in actions && Vetted(a) && a.key == e.key && a.request == e.request
  {
    var granted := (key: Key, request: Request) =>
      exists a :: a in actions && Vetted(a) && a.key == key && a.request == request;
    GrantedRun(INITIAL, actions, granted);
  }

  /** The log holds a mutation of this request whose reply reports this very deployment. */
  ghost predicate Vouched(log: seq<Event>, result: Result) {
    && result.Deployment?
    && exists k :: 0 <= k < |log| && log[k].DidSubmit? && log[k].request == result.request
         && CarriedOut(log[k].reply, result.id)
  }

  /** Every success that is stored, about to be stored, or told to a caller is vouched for. */
  ghost predicate AllVouched(st: State) {
    && (forall key :: key in st.rows && st.rows[key].status.Completed? && st.rows[key].result.Some? ==>
          Vouched(st.log, st.rows[key].result.value))
    && (forall c :: c in st.callers && st.callers[c].Deciding? && st.callers[c].status.Completed? ==>
          Vouched(st.log, st.callers[c].result))
    && (forall c :: c in st.callers && st.callers[c].Done? && st.callers[c].answer.Returned? ==>
          Vouched(st.log, st.callers[c].answer.result))
  }

  lemma VouchedLater(log: seq<Event>, next: seq<Event>, result: Result)
    requires Vouched(log, result) && log <= next
    ensures Vouched(next, result)
  {
    var k :| 0 <= k < |log| && log[k].DidSubmit? && log[k].request == result.request
      && CarriedOut(log[k].reply, result.id);
    assert next[k] == log[k];
  }

  lemma VouchedStep(st: State, a: Action)
    requires AllVouched(st)
    ensures AllVouched(Step(st, a))
  {
    var next := Step(st, a);
    if next.log == st.log {
      VouchedQuiet(st, a);
    } else {
      assert st.log <= next.log;
      forall result | Vouched(st.log, result) ensures Vouched(next.log, result) {
        VouchedLater(st.log, next.log, result);
      }
      if a.Submit? {
        VerdictIsDeserved(a.reply, st.callers[a.c].request);
        var e := next.log[|st.log|];
        assert e.DidSubmit? && e.request == st.callers[a.c].request && e.reply == a.reply;
      }
    }
  }

  lemma VouchedQuiet(st: State, a: Action)
    requires AllVouched(st) && Step(st, a).log == st.log
    ensures AllVouched(Step(st, a))
  {
  }

  lemma {:induction false} VouchedRun(st: State, actions: seq<Action>)
    requires AllVouched(st)
    ensures AllVouched(Execute(st, actions))
    decreases actions
  {
    if actions != [] {
      VouchedStep(st, actions[0]);
      VouchedRun(Step(st, actions[0]), actions[1..]);
    }
  }

  /** Nobody is ever told of a deployment that the remote side did not report in reply to a
      mutation of that request, whether the answer is new or a repeated one. */
  lemma NoFalseSuccess(actions: seq<Action>, c: nat)
    ensures var st := Execute(INITIAL, actions);
      c in st.callers && st.callers[c].Done? && st.callers[c].answer.Returned? ==>
        Vouched(st.log, st.callers[c].answer.result)
  {
    VouchedRun(INITIAL, actions);
  }

  /** What one action can touch: rows and submissions of a key only its owner, and the owner
      of a taken key only if it owned it before. */
  lemma StepTouches(st: State, a: Action, key: Key)
    requires key in st.rows
    ensures var next := Step(st, a); var mine := a.c in st.callers && st.callers[a.c].Owns(key);
      && key in next.rows && (next.rows[key] == st.rows[key] || mine)
      && (next.log == st.log || (exists e :: next.log == st.log + [e] && (e.DidSubmit? && e.key == key ==> mine)))
      && (forall d :: d in next.callers && d != a.c ==> d in st.callers && next.callers[d] == st.callers[d])
      && (a.c in next.callers && next.callers[a.c].Owns(key) ==> mine)
  {
    var next := Step(st, a);
    if next.log != st.log {
      assert next.log == st.log + [next.log[|st.log|]];
    }
  }

  /** A row keeps its request for good. */
  lemma StepKeepsHash(st: State, a: Action, key: Key)
    requires key in st.rows
    ensures key in Step(st, a).rows && Step(st, a).rows[key].hash == st.rows[key].hash
  {
  }

  /** One step: a row nobody owns cannot move at all. */
  lemma RowStep(st: State, a: Action, key: Key)
    requires key in st.rows && Unowned(st, key)
    ensures var next := Step(st, a);
      && key in next.rows && next.rows[key] == st.rows[key]
      && Submissions(next.log, key) == Submissions(st.log, key) && Unowned(next, key)
  {
    StepTouches(st, a, key);
    var next := Step(st, a);
    if next.log != st.log {
      var e :| next.log == st.log + [e] && !(e.DidSubmit? && e.key == key);
      LogGrows(st.log, e);
    }
  }

  /** Nobody stands between a reservation and a mark under this key. */
  ghost predicate Unowned(st: State, key: Key) {
    forall c :: c in st.callers ==> !st.callers[c].Owns(key)
  }

  /** A settled row is unowned, and so is one whose reserving caller has crashed. */
  lemma SettledIsUnowned(st: State, key: Key)
    requires Inv(st) && key in st.rows && !st.rows[key].status.Reserved?
    ensures Unowned(st, key)
  {
    forall c | c in st.callers ensures !st.callers[c].Owns(key) { assert CallerOk(st, c); }
  }

  /** A row keeps its request; once it has left RESERVED, or once the caller that reserved it
      is gone, it never changes and nobody ever submits under its key. */
  lemma {:induction false} RowIsFinal(st: State, actions: seq<Action>, key: Key)
    requires Inv(st) && key in st.rows
    ensures var end := Execute(st, actions);
      && key in end.rows && end.rows[key].hash == st.rows[key].hash
      && (!st.rows[key].status.Reserved? || Unowned(st, key) ==>
            end.rows[key] == st.rows[key] && Submissions(end.log, key) == Submissions(st.log, key))
    decreases actions
  {
    if !st.rows[key].status.Reserved? { SettledIsUnowned(st, key); }
    if actions != [] {
      InvStep(st, actions[0]);
      StepKeepsHash(st, actions[0], key);
      if Unowned(st, key) { RowStep(st, actions[0], key); }
      RowIsFinal(Step(st, actions[0]), actions[1..], key);
    }
  }

  /** A later call under a completed key: the same request gets the stored result at once,
      any other request is refused, and neither touches the remote side or the ledger. */
  lemma Replay(st: State, c: nat, key: Key, request: Request)
    requires Inv(st) && c !in st.callers
    requires key in st.rows && st.rows[key].status.Completed?
    requires IsCommitSha(request.sha) && request.expected != ""
    ensures var next := Step(st, Arrive(c, true, key, request));
      && next.rows == st.rows && next.log == st.log
      && next.callers[c] == Done(if RequestHash(request) == st.rows[key].hash
                                 then Returned(st.rows[key].result.value) else Refused(IdempotencyConflict))
  {
    assert RowOk(st, key);
  }

  // ---------------------------------------------------------------- one call, in place

  /** The six actions of a single caller, undisturbed. */
  function Script(authentic: bool, key: Key, request: Request, before: Observation, after: Observation,
      reply: Reply): seq<Action> {
    [Arrive(0, authentic, key, request), Observe(0, before), TakeReservation(0), Recheck(0, after), Submit(0, reply),
      RecordOutcome(0)]
  }

  class RailwayControlBridge {
    var ledger: IdempotencyLedger
    var posted: seq<Request>

    constructor (ledger: IdempotencyLedger)
      ensures this.ledger == ledger && posted == []
    {
      this.ledger := ledger;
      posted := [];
    }

    /** The method body of the source, with the three remote answers as parameters, is the
        protocol's run of one caller that nobody interrupts. */
    method DeployExactCommit(authentic: bool, raw: Request, key: Key, before: Observation, after: Observation,
        reply: Reply)
      returns (answer: Answer)
      modifies this`posted, ledger
      ensures var request := Normalized(raw);
        var end := Execute(State(old(ledger.rows), map[], []), Script(authentic, key, request, before, after, reply));
        && 0 in end.callers && end.callers[0] == Done(answer)
        && ledger.rows == end.rows
        && posted == old(posted) + (if DidSubmit(key, request, reply) in end.log then [request] else [])
    {
      answer := DeployNormalized(authentic, Normalized(raw), key, before, after, reply);
    }

    /** The same for a request whose fields are stripped and in lower case. */
    method DeployNormalized(authentic: bool, request: Request, key: Key, before: Observation, after: Observation,
        reply: Reply)
      returns (answer: Answer)
      modifies this`posted, ledger
      ensures var end := Execute(State(old(ledger.rows), map[], []),
        Script(authentic, key, request, before, after, reply));
        && 0 in end.callers && end.callers[0] == Done(answer)
        && ledger.rows == end.rows
        && posted == old(posted) + (if DidSubmit(key, request, reply) in end.log then [request] else [])
    {
      ghost var script := Script(authentic, key, request, before, after, reply);
      ghost var st := State(ledger.rows, map[], []);
      UnfoldScript(st, script);
      if !authentic { return Refused(AuthenticationRejected); }
      if !IsCommitSha(request.sha) { return Refused(BindingRejected); }
      if request.expected == "" { return Refused(CompareAndSwapRejected); }
      var existing := ExistingResult(ledger.rows, key, RequestHash(request));
      if existing.Some? { return existing.value; }
      if before.Unreadable? { return Refused(BindingRejected); }
      if before.id != request.expected { return Refused(CompareAndSwapRejected); }
      var error := ledger.Reserve(key, RequestHash(request));
      if error.Some? { return Refused(error.value); }
      if after.Unreadable? { return Refused(BindingRejected); }
      if after.id != request.expected {
        var marked := ledger.Mark(key, Rejected, ChangedAfterReservation(after.id));
        return Refused(CompareAndSwapRejected);
      }
      posted := posted + [request];
      var verdict := Classify(reply, request);
      if verdict.None? { return Refused(Unhandled); }
      var found := ledger.Mark(key, verdict.value.0, verdict.value.1);
      return FinalAnswer(verdict.value.0, verdict.value.1);
    }
  }

  lemma UnfoldScript(st: State, script: seq<Action>)
    requires |script| == 6
    ensures Execute(st, script) == Step(Step(Step(Step(Step(Step(st, script[0]), script[1]), script[2]), script[3]),
      script[4]), script[5])
  {
    var s1 := Step(st, script[0]);
    var s2 := Step(s1, script[1]);
    var s3 := Step(s2, script[2]);
    var s4 := Step(s3, script[3]);
    var s5 := Step(s4, script[4]);
    assert Execute(s1, script[1..]) == Execute(s2, script[2..]) by { assert script[1..][1..] == script[2..]; }
    assert Execute(s2, script[2..]) == Execute(s3, script[3..]) by { assert script[2..][1..] == script[3..]; }
    assert Execute(s3, script[3..]) == Execute(s4, script[4..]) by { assert script[3..][1..] == script[4..]; }
    assert Execute(s4, script[4..]) == Execute(s5, script[5..]) by { assert script[4..][1..] == script[5..]; }
    assert Execute(s5, script[5..]) == Step(s5, script[5]) by { assert script[5..][1..] == []; }
  }

  /** The replies of a log of at most four events. */
  lemma ShortReplies(log: seq<Event>, key: Key)
    requires |log| <= 4
    ensures Replies(log, key) == (if |log| > 0 then ReplyOf(log[0], key) else []) +
      (if |log| > 1 then ReplyOf(log[1], key) else []) + (if |log| > 2 then ReplyOf(log[2], key) else []) +
      (if |log| > 3 then ReplyOf(log[3], key) else [])
  {
    if log != [] { ShortReplies(log[..|log| - 1], key); }
  }

  /** The undisturbed call, and what it comes to. */
  ghost predicate Comes(rows: Rows, key: Key, script: seq<Action>, after: Rows, replies: seq<Reply>, answer: Answer) {
    var end := Execute(State(rows, map[], []), script);
    end.rows == after && end.callers == map[0 := Done(answer)] && Replies(end.log, key) == replies
  }

  /** Which calls end before the reservation, and how: nothing is posted and no row changes. */
  lemma RefusedEarly(rows: Rows, authentic: bool, key: Key, request: Request, before: Observation,
      after: Observation, reply: Reply)
    ensures var script := Script(authentic, key, request, before, after, reply);
      if !authentic then Comes(rows, key, script, rows, [], Refused(AuthenticationRejected))
      else if !FortyHexDigits(request.sha) then Comes(rows, key, script, rows, [], Refused(BindingRejected))
      else if request.expected == "" then Comes(rows, key, script, rows, [], Refused(CompareAndSwapRejected))
      else if key in rows then
        var row := rows[key];
        Comes(rows, key, script, rows, [],
          if row.hash == RequestHash(request) && row.status.Completed? && row.result.Some? then
            Returned(row.result.value)
          else if row.hash == RequestHash(request) && row.status.SubmissionUnverified? then Refused(OutcomeUnverified)
          else Refused(IdempotencyConflict))
      else if before.Unreadable? then Comes(rows, key, script, rows, [], Refused(BindingRejected))
      else if before != Current(request.expected) then
        Comes(rows, key, script, rows, [], Refused(CompareAndSwapRejected))
      else |key| == 0 || |key| > 200 ==> Comes(rows, key, script, rows, [], Refused(IdempotencyConflict))
  {
    HexDigits(request.sha);
    UnfoldScript(State(rows, map[], []), Script(authentic, key, request, before, after, reply));
  }

  lemma HexDigits(s: string)
    ensures IsCommitSha(s) <==> FortyHexDigits(s)
  {
  }

  /** The first half of a call that meets no refusal: the reservation is made. */
  lemma ReachesHolding(rows: Rows, key: Key, request: Request)
    requires key !in rows && ValidKey(key) && IsCommitSha(request.sha) && request.expected != ""
    ensures Step(Step(Step(State(rows, map[], []), Arrive(0, true, key, request)),
      Observe(0, Current(request.expected))), TakeReservation(0)) ==
      State(rows[key := Row(RequestHash(request), Reserved, None)], map[0 := Holding(key, request)],
        [DidReserve(key, request)])
  {
    var s1 := Step(State(rows, map[], []), Arrive(0, true, key, request));
    assert s1 == State(rows, map[0 := Fresh(key, request)], []);
    var s2 := Step(s1, Observe(0, Current(request.expected)));
    assert s2 == State(rows, map[0 := Seen(key, request)], []);
  }

  /** The second, with no refusal in the way: the mutation is posted and its reply marked. */
  lemma FromHolding(held: State, key: Key, request: Request, reply: Reply)
    requires key in held.rows && held.callers == map[0 := Holding(key, request)]
    requires held.rows[key] == Row(RequestHash(request), Reserved, None)
    ensures var seen := Current(request.expected); var verdict := Classify(reply, request);
      var log := held.log + [DidConfirm(key, request.expected), DidSubmit(key, request, reply)];
      Step(Step(Step(held, Recheck(0, seen)), Submit(0, reply)), RecordOutcome(0)) ==
        if verdict.None? then State(held.rows, map[0 := Done(Refused(Unhandled))], log)
        else
          var (status, result) := verdict.value;
          State(held.rows[key := Row(RequestHash(request), status, Some(result))],
            map[0 := Done(FinalAnswer(status, result))], log + [DidMark(key, status)])
  {
    var s3 := Step(held, Recheck(0, Current(request.expected)));
    assert s3 == State(held.rows, map[0 := Cleared(key, request)], held.log + [DidConfirm(key, request.expected)]);
    var s4 := Step(s3, Submit(0, reply));
    var log := held.log + [DidConfirm(key, request.expected), DidSubmit(key, request, reply)];
    assert s4.log == log;
    var verdict := Classify(reply, request);
    assert s4.callers == map[0 := if verdict.None? then Done(Refused(Unhandled))
                                  else Deciding(key, request, verdict.value.0, verdict.value.1)];
  }

  lemma EndIsComes(rows: Rows, key: Key, script: seq<Action>, end: State, answer: Answer)
    requires Execute(State(rows, map[], []), script) == end && end.callers == map[0 := Done(answer)]
    ensures Comes(rows, key, script, end.rows, Replies(end.log, key), answer)
  {
  }

  lemma SecondLookEnd(held: State, key: Key, request: Request, after: Observation, reply: Reply)
    requires key in held.rows && held.callers == map[0 := Holding(key, request)]
    requires held.rows[key] == Row(RequestHash(request), Reserved, None)
    requires after != Current(request.expected)
    ensures var row := held.rows[key];
      Step(Step(Step(held, Recheck(0, after)), Submit(0, reply)), RecordOutcome(0)) ==
        if after.Unreadable? then State(held.rows, map[0 := Done(Refused(BindingRejected))], held.log)
        else State(held.rows[key := row.(status := Rejected, result := Some(ChangedAfterReservation(after.id)))],
               map[0 := Done(Refused(CompareAndSwapRejected))], held.log + [DidMark(key, Rejected)])
  {
  }

  /** What an undisturbed call ends in whose second look fails. */
  lemma RefusedEnd(rows: Rows, key: Key, request: Request, after: Observation, reply: Reply)
    requires key !in rows && ValidKey(key) && IsCommitSha(request.sha) && request.expected != ""
    requires after != Current(request.expected)
    ensures var hash := RequestHash(request); var log := [DidReserve(key, request)];
      Execute(State(rows, map[], []), Script(true, key, request, Current(request.expected), after, reply)) ==
        if after.Unreadable? then
          State(rows[key := Row(hash, Reserved, None)], map[0 := Done(Refused(BindingRejected))], log)
        else
          State(rows[key := Row(hash, Rejected, Some(ChangedAfterReservation(after.id)))],
            map[0 := Done(Refused(CompareAndSwapRejected))], log + [DidMark(key, Rejected)])
  {
    UnfoldScript(State(rows, map[], []), Script(true, key, request, Current(request.expected), after, reply));
    ReachesHolding(rows, key, request);
    var row := Row(RequestHash(request), Reserved, None);
    SecondLookEnd(State(rows[key := row], map[0 := Holding(key, request)], [DidReserve(key, request)]), key, request,
      after, reply);
    if after.Current? {
      var marked := row.(status := Rejected, result := Some(ChangedAfterReservation(after.id)));
      assert rows[key := row][key := marked] == rows[key := marked];
    }
  }

  /** A second look that fails leaves the row RESERVED; one that sees another deployment leaves
      it REJECTED. Neither posts a mutation. */
  lemma SecondLookRefuses(rows: Rows, key: Key, request: Request, after: Observation, reply: Reply)
    requires key !in rows && 0 < |key| <= 200 && FortyHexDigits(request.sha) && request.expected != ""
    requires after != Current(request.expected)
    ensures var hash := RequestHash(request);
      var script := Script(true, key, request, Current(request.expected), after, reply);
      if after.Unreadable? then
        Comes(rows, key, script, rows[key := Row(hash, Reserved, None)], [], Refused(BindingRejected))
      else
        Comes(rows, key, script, rows[key := Row(hash, Rejected, Some(ChangedAfterReservation(after.id)))], [],
          Refused(CompareAndSwapRejected))
  {
    HexDigits(request.sha);
    RefusedEnd(rows, key, request, after, reply);
    var script := Script(true, key, request, Current(request.expected), after, reply);
    var end := Execute(State(rows, map[], []), script);
    ShortReplies(end.log, key);
    EndIsComes(rows, key, script, end, Refused(if after.Unreadable? then BindingRejected else CompareAndSwapRejected));
  }

  /** What an undisturbed call that gets to its mutation ends in. */
  lemma PostedEnd(rows: Rows, key: Key, request: Request, reply: Reply)
    requires key !in rows && ValidKey(key) && IsCommitSha(request.sha) && request.expected != ""
    ensures var seen := Current(request.expected); var verdict := Classify(reply, request);
      var log := [DidReserve(key, request), DidConfirm(key, request.expected), DidSubmit(key, request, reply)];
      Execute(State(rows, map[], []), Script(true, key, request, seen, seen, reply)) ==
        if verdict.None? then
          State(rows[key := Row(RequestHash(request), Reserved, None)], map[0 := Done(Refused(Unhandled))], log)
        else
          var (status, result) := verdict.value;
          State(rows[key := Row(RequestHash(request), status, Some(result))],
            map[0 := Done(FinalAnswer(status, result))], log + [DidMark(key, status)])
  {
    var seen := Current(request.expected);
    UnfoldScript(State(rows, map[], []), Script(true, key, request, seen, seen, reply));
    ReachesHolding(rows, key, request);
    var held := State(rows[key := Row(RequestHash(request), Reserved, None)], map[0 := Holding(key, request)],
      [DidReserve(key, request)]);
    FromHolding(held, key, request, reply);
    var verdict := Classify(reply, request);
    if verdict.Some? {
      var row := Row(RequestHash(request), verdict.value.0, Some(verdict.value.1));
      assert held.rows[key := row] == rows[key := row];
    }
  }

  /** And a deploy that meets no obstacle happens: the expected deployment is seen twice, the
      mutation is posted once and answered with a deployment, the row is completed. */
  lemma CleanDeployCompletes(rows: Rows, key: Key, request: Request, code: nat, id: string, flag: bool)
    requires ValidKey(key) && key !in rows && IsCommitSha(request.sha) && request.expected != ""
    requires code < 400 && id != ""
    ensures var seen := Current(request.expected); var result := Deployment(id, request);
      var end := Execute(State(rows, map[], []),
        Script(true, key, request, seen, seen, Http(code, Json(false, flag, id))));
      && end.rows == rows[key := Row(RequestHash(request), Completed, Some(result))]
      && end.callers == map[0 := Done(Returned(result))]
      && end.log == [DidReserve(key, request), DidConfirm(key, request.expected),
        DidSubmit(key, request, Http(code, Json(false, flag, id))), DidMark(key, Completed)]
  {
    PostedEnd(rows, key, request, Http(code, Json(false, flag, id)));
  }

  /** How every other call ends: one mutation is posted, and its reply alone decides the row and
      the answer. */
  lemma ReplyDecides(rows: Rows, key: Key, request: Request, reply: Reply) returns (status: Status, result: Result)
    requires key !in rows && 0 < |key| <= 200 && FortyHexDigits(request.sha) && request.expected != ""
    ensures var seen := Current(request.expected); var hash := RequestHash(request);
      var script := Script(true, key, request, seen, seen, reply);
      if Undecodable(reply) then
        Comes(rows, key, script, rows[key := Row(hash, Reserved, None)], [reply], Refused(Unhandled))
      else
        && Deserved(reply, request, status, result)
        && Comes(rows, key, script, rows[key := Row(hash, status, Some(result))], [reply],
             if status.Completed? then Returned(result)
             else if status.Rejected? then Refused(ControlError) else Refused(OutcomeUnverified))
  {
    HexDigits(request.sha);
    PostedEnd(rows, key, request, reply);
    VerdictIsDeserved(reply, request);
    RepliesPartition(reply);
    var verdict := Classify(reply, request);
    var seen := Current(request.expected);
    var script := Script(true, key, request, seen, seen, reply);
    var end := Execute(State(rows, map[], []), script);
    ShortReplies(end.log, key);
    status, result := Reserved, Ambiguous;
    if verdict.Some? { status, result := verdict.value.0, verdict.value.1; }
    EndIsComes(rows, key, script, end, if verdict.Some? then FinalAnswer(status, result) else Refused(Unhandled));
  }
}
