/** The append-only verdict ledger (app/ledger.py): a hash chain that several processes extend,
    each checking the chain before its transaction and reading it back after. */
module VerdictLedger {
  import opened Outcomes

  /** SHA-512 of the canonical core; the genesis value is no digest. */
  datatype Hash = Genesis | Sha512(core: Core)

  datatype Core = Core(schema: string, id: string, timestamp: string, previous: Hash, payload: string)

  const SCHEMA := "omega-verdict-ledger-v1"

  datatype Algorithm = Ed25519 | MlDsa | OtherAlgorithm

  /** A stored signature record, as far as the chain check reads it. */
  datatype Signature = BadJson | Signature(algorithm: Algorithm, verified: bool)

  /** Stored payload text, and what it parses to; canonical text parses back to itself. */
  datatype Text = NotJson | Json(payload: string)

  datatype Row = Row(
    id: string, createdAt: string, schema: string, previous: Hash, current: Hash, payload: Text,
    ed25519: Signature, mlDsa: Signature, supersedes: Option<string>)

  datatype Error = IdRequired | ChainInvalid | ParentMissing | SigningFailed | Duplicate | Unconfirmed

  // ---------------------------------------------------------------- the chain

  function Head(rows: seq<Row>): Hash {
    if rows == [] then Genesis else rows[|rows| - 1].current
  }

  predicate SignedBy(s: Signature, a: Algorithm) {
    s.Signature? && s.algorithm == a && s.verified
  }

  /** A row that may follow a chain with this head. */
  predicate Follows(row: Row, head: Hash) {
    && row.previous == head && row.schema == SCHEMA
    && SignedBy(row.ed25519, Ed25519) && SignedBy(row.mlDsa, MlDsa)
    && row.payload.Json?
    && row.current == Sha512(Core(SCHEMA, row.id, row.createdAt, row.previous, row.payload.payload))
  }

  predicate Valid(rows: seq<Row>) {
    rows == [] || (Valid(rows[..|rows| - 1]) && Follows(rows[|rows| - 1], Head(rows[..|rows| - 1])))
  }

  /** What becomes of asking a signer: an error, or a record and whether it then verifies. */
  datatype Reply = NoRecord | Record(algorithm: Algorithm, verifies: bool)

  /** A request to record one verdict, with what the two signers make of its digest. */
  datatype Request = Request(
    id: string, timestamp: string, payload: string, supersedes: Option<string>, ed25519: Reply, mlDsa: Reply)

  /** Both records are of their algorithm and verify, or there is none. */
  function SignAndVerify(r: Request): Option<(Signature, Signature)> {
    if r.ed25519.NoRecord? || r.mlDsa.NoRecord? then None
    else if r.ed25519.algorithm != Ed25519 || r.mlDsa.algorithm != MlDsa then None
    else if !r.ed25519.verifies || !r.mlDsa.verifies then None
    else Some((Signature(r.ed25519.algorithm, true), Signature(r.mlDsa.algorithm, true)))
  }

  predicate HasId(rows: seq<Row>, id: string) {
    exists i :: 0 <= i < |rows| && rows[i].id == id
  }

  predicate HasHash(rows: seq<Row>, hash: Hash) {
    exists i :: 0 <= i < |rows| && rows[i].current == hash
  }

  function RowFor(rows: seq<Row>, r: Request, signed: (Signature, Signature)): Row {
    var previous := Head(rows);
    var current := Sha512(Core(SCHEMA, r.id, r.timestamp, previous, r.payload));
    Row(r.id, r.timestamp, SCHEMA, previous, current, Json(r.payload), signed.0, signed.1, r.supersedes)
  }

  /** The transaction alone, from BEGIN IMMEDIATE to COMMIT. */
  function Transact(rows: seq<Row>, r: Request): Result<seq<Row>, Error> {
    if r.supersedes.Some? && r.supersedes.value != "" && !HasId(rows, r.supersedes.value) then Err(ParentMissing)
    else if SignAndVerify(r).None? then Err(SigningFailed)
    else
      var row := RowFor(rows, r, SignAndVerify(r).value);
      if HasId(rows, row.id) || HasHash(rows, row.current) then Err(Duplicate) else Ok(rows + [row])
  }

  /** The read-back: the row is there as written and still is the head of a valid chain. */
  predicate Confirmed(rows: seq<Row>, row: Row) {
    (exists i :: 0 <= i < |rows| && rows[i].id == row.id && rows[i].current == row.current
      && rows[i].previous == row.previous)
    && Head(rows) == row.current && Valid(rows)
  }

  // ---------------------------------------------------------------- the ledger, in place

  class OmegaVerdictLedger {
    var rows: seq<Row>

    constructor ()
      ensures rows == []
    {
      rows := [];
    }

    method VerifyChain() returns (ok: bool)
      ensures ok <==> Valid(rows)
    {
      var expected := Genesis;
      for i := 0 to |rows|
        invariant Valid(rows[..i]) && expected == Head(rows[..i])
      {
        assert rows[..i + 1][..i] == rows[..i];
        var row := rows[i];
        if row.previous != expected || row.schema != SCHEMA || !SignedBy(row.ed25519, Ed25519)
          || !SignedBy(row.mlDsa, MlDsa) || row.payload.NotJson? {
          InvalidPrefix(rows, i + 1);
          return false;
        }
        var digest := Sha512(Core(SCHEMA, row.id, row.createdAt, row.previous, row.payload.payload));
        if digest != row.current {
          InvalidPrefix(rows, i + 1);
          return false;
        }
        expected := digest;
      }
      assert rows[..|rows|] == rows;
      return true;
    }

    /** A whole append of a process that nobody disturbs. */
    method Append(r: Request) returns (result: Result<Hash, Error>)
      modifies this
      ensures result.Ok? <==> r.id != "" && old(Valid(rows)) && Transact(old(rows), r).Ok?
      ensures if result.Ok? then Transact(old(rows), r) == Ok(rows) && result.value == Head(rows) else rows == old(rows)
      ensures result == Err(IdRequired) <==> r.id == ""
      ensures result == Err(ChainInvalid) <==> r.id != "" && !old(Valid(rows))
      ensures result == Err(ParentMissing) <==> r.id != "" && old(Valid(rows)) && !ParentThere(old(rows), r)
      ensures result == Err(SigningFailed) <==>
        r.id != "" && old(Valid(rows)) && ParentThere(old(rows), r) && !BothVerify(r)
      ensures result != Err(Unconfirmed)
    {
      if r.id == "" { return Err(IdRequired); }
      var before := VerifyChain();
      if !before { return Err(ChainInvalid); }
      var previous := Head(rows);
      if r.supersedes.Some? && r.supersedes.value != "" && !HasId(rows, r.supersedes.value) {
        return Err(ParentMissing);
      }
      var signed := SignAndVerify(r);
      if signed.None? { return Err(SigningFailed); }
      var current := Sha512(Core(SCHEMA, r.id, r.timestamp, previous, r.payload));
      if HasId(rows, r.id) || HasHash(rows, current) { return Err(Duplicate); }
      var row := Row(r.id, r.timestamp, SCHEMA, previous, current, Json(r.payload), signed.value.0, signed.value.1,
        r.supersedes);
      rows := rows + [row];
      TransactKeepsChain(old(rows), r);
      assert rows[|rows| - 1] == row;
      var after := VerifyChain();
      if Head(rows) != current || !after { return Err(Unconfirmed); }
      return Ok(current);
    }
  }

  lemma {:induction false} ValidPrefix(rows: seq<Row>, n: nat)
    requires Valid(rows) && n <= |rows|
    ensures Valid(rows[..n])
    decreases rows
  {
    if n == |rows| {
      assert rows[..n] == rows;
    } else {
      ValidPrefix(rows[..|rows| - 1], n);
      assert rows[..|rows| - 1][..n] == rows[..n];
    }
  }

  lemma InvalidPrefix(rows: seq<Row>, n: nat)
    requires n <= |rows| && !Valid(rows[..n])
    ensures !Valid(rows)
  {
    if Valid(rows) { ValidPrefix(rows, n); }
  }

  // ---------------------------------------------------------------- appending

  /** A committed transaction keeps the chain valid and every earlier row as it was. */
  lemma TransactKeepsChain(rows: seq<Row>, r: Request)
    requires Valid(rows) && Transact(rows, r).Ok?
    ensures var next := Transact(rows, r).value; Valid(next) && |next| == |rows| + 1 && next[..|rows|] == rows
  {
    var next := Transact(rows, r).value;
    assert next[..|rows|] == rows;
  }

  /** Processes between pre-check and transaction, and between transaction and read-back. */
  datatype Stage = Checked(request: Request) | Committed(row: Row) | Finished(result: Result<Hash, Error>)

  datatype State = State(rows: seq<Row>, processes: map<nat, Stage>)

  datatype Action = PreCheck(p: nat, request: Request) | Commit(p: nat) | ReadBack(p: nat) | Crash(p: nat)

  function Step(st: State, a: Action): State {
    match a
    case PreCheck(p, r) =>
      st.(processes := st.processes[p :=
        if r.id == "" then Finished(Err(IdRequired))
        else if !Valid(st.rows) then Finished(Err(ChainInvalid))
        else Checked(r)])
    case Commit(p) =>
      if p !in st.processes || !st.processes[p].Checked? then st
      else
        var r := st.processes[p].request;
        var next := Transact(st.rows, r);
        if next.Err? then st.(processes := st.processes[p := Finished(Err(next.error))])
        else State(next.value, st.processes[p := Committed(next.value[|next.value| - 1])])
    case ReadBack(p) =>
      if p !in st.processes || !st.processes[p].Committed? then st
      else
        var row := st.processes[p].row;
        st.(processes := st.processes[p :=
          Finished(if Confirmed(st.rows, row) then Ok(row.current) else Err(Unconfirmed))])
    case Crash(p) => st.(processes := st.processes - {p})
  }

  function Run(actions: seq<Action>): State {
    if actions == [] then State([], map[]) else Step(Run(actions[..|actions| - 1]), actions[|actions| - 1])
  }

  /** Ids and hashes are unique, and what a row supersedes stands before it. */
  ghost predicate Orderly(rows: seq<Row>) {
    && (forall i, j :: 0 <= i < j < |rows| ==> rows[i].id != rows[j].id && rows[i].current != rows[j].current)
    && (forall i :: 0 <= i < |rows| && rows[i].supersedes.Some? && rows[i].supersedes.value != "" ==>
      HasId(rows[..i], rows[i].supersedes.value))
  }

  ghost predicate Inv(st: State) {
    && Valid(st.rows) && Orderly(st.rows)
    && forall p :: p in st.processes && st.processes[p].Committed? ==> st.processes[p].row in st.rows
  }

  lemma CommitKeepsOrder(rows: seq<Row>, r: Request)
    requires Orderly(rows) && Transact(rows, r).Ok?
    ensures Orderly(Transact(rows, r).value)
  {
    var next := Transact(rows, r).value;
    forall i | 0 <= i < |next| ensures next[..i] == if i < |rows| then rows[..i] else rows {}
  }

  /** The chain is valid after every step of any interleaving, also when another process has
      appended since the pre-check; and the ledger only ever grows at its end. */
  lemma {:induction false} InvRun(actions: seq<Action>)
    ensures Inv(Run(actions))
    ensures actions != [] ==> Run(actions[..|actions| - 1]).rows <= Run(actions).rows
    decreases actions
  {
    if actions != [] {
      var st, a := Run(actions[..|actions| - 1]), actions[|actions| - 1];
      InvRun(actions[..|actions| - 1]);
      if a.Commit? && a.p in st.processes && st.processes[a.p].Checked? {
        var r := st.processes[a.p].request;
        if Transact(st.rows, r).Ok? {
          TransactKeepsChain(st.rows, r);
          CommitKeepsOrder(st.rows, r);
        }
      }
    }
  }

  /** Rows are never altered or removed, however the run goes on. */
  lemma {:induction false} EarlierRowsStay(actions: seq<Action>, more: seq<Action>)
    ensures Run(actions).rows <= Run(actions + more).rows
    decreases more
  {
    if more == [] {
      assert actions + more == actions;
    } else {
      EarlierRowsStay(actions, more[..|more| - 1]);
      assert (actions + more)[..|actions + more| - 1] == actions + more[..|more| - 1];
      InvRun(actions + more);
    }
  }

  lemma ConfirmedIffLast(rows: seq<Row>, row: Row)
    requires Valid(rows) && Orderly(rows) && row in rows
    ensures Confirmed(rows, row) <==> rows[|rows| - 1] == row
  {
    var i :| 0 <= i < |rows| && rows[i] == row;
  }

  /** The read-back confirms a committed row exactly when nobody has appended after it: an
      unconfirmed row is durable all the same. */
  lemma ConfirmedIff(actions: seq<Action>, p: nat)
    requires var st := Run(actions); p in st.processes && st.processes[p].Committed?
    ensures var st := Run(actions); var row := st.processes[p].row;
      && row in st.rows
      && Step(st, ReadBack(p)) == State(st.rows, st.processes[p := Finished(
           if st.rows[|st.rows| - 1] == row then Ok(row.current) else Err(Unconfirmed))])
  {
    InvRun(actions);
    ConfirmedIffLast(Run(actions).rows, Run(actions).processes[p].row);
  }

  /** `chain[k - 1]` supersedes `chain[k]`, all along. */
  ghost predicate Supersedes(rows: seq<Row>, chain: seq<nat>) {
    && (forall k :: 0 <= k < |chain| ==> chain[k] < |rows|)
    && (forall k {:trigger Link(rows, chain, k)} :: 0 < k < |chain| ==> Link(rows, chain, k))
  }

  ghost predicate Link(rows: seq<Row>, chain: seq<nat>, k: nat)
    requires 0 < k < |chain| && chain[k] < |rows| && chain[k - 1] < |rows|
  {
    rows[chain[k - 1]].supersedes == Some(rows[chain[k]].id) && rows[chain[k]].id != ""
  }

  /** Supersession points strictly backwards, hence never in a circle. */
  lemma {:induction false} SupersessionIsAcyclic(rows: seq<Row>, chain: seq<nat>, k: nat)
    requires Orderly(rows) && Supersedes(rows, chain) && 0 < k < |chain|
    ensures chain[k] < chain[0]
  {
    var i, j := chain[k - 1], chain[k];
    assert Link(rows, chain, k);
    assert HasId(rows[..i], rows[j].id);
    var m :| 0 <= m < i && rows[..i][m].id == rows[j].id;
    assert m == j;
    if k > 1 { SupersessionIsAcyclic(rows, chain, k - 1); }
  }

  // ---------------------------------------------------------------- the head stands for all

  /** What a row's hash covers. */
  function Hashed(row: Row): (string, string, Text, Hash) {
    (row.id, row.createdAt, row.payload, row.previous)
  }

  /** Two valid ledgers with the same head have the same length and the same history; nothing
      that is hashed can be changed in either without changing the head. */
  lemma {:induction false} HeadDeterminesHistory(a: seq<Row>, b: seq<Row>)
    requires Valid(a) && Valid(b) && Head(a) == Head(b)
    ensures |a| == |b| && forall i :: 0 <= i < |a| ==> Hashed(a[i]) == Hashed(b[i])
    decreases |a|
  {
    if a != [] && b != [] {
      HeadDeterminesHistory(a[..|a| - 1], b[..|b| - 1]);
      forall i | 0 <= i < |a| ensures Hashed(a[i]) == Hashed(b[i]) {
        if i < |a| - 1 { assert Hashed(a[..|a| - 1][i]) == Hashed(b[..|b| - 1][i]); }
      }
    }
  }

  lemma {:induction false} HashesHoldIds(rows: seq<Row>, i: nat)
    requires Valid(rows) && i < |rows|
    ensures rows[i].current.Sha512? && rows[i].current.core.id == rows[i].id
    decreases rows
  {
    if i < |rows| - 1 { HashesHoldIds(rows[..|rows| - 1], i); }
  }

  /** Both signers gave a record of their own algorithm, and both records verify. */
  predicate BothVerify(r: Request) {
    r.ed25519 == Record(Ed25519, true) && r.mlDsa == Record(MlDsa, true)
  }

  /** What is superseded is there, if anything is. */
  predicate ParentThere(rows: seq<Row>, r: Request) {
    r.supersedes.None? || r.supersedes.value == "" || exists i :: 0 <= i < |rows| && rows[i].id == r.supersedes.value
  }

  /** On a valid ledger a transaction goes through exactly when both signatures verify, its id is
      new, and what it supersedes is there; the uniqueness of hashes never stands in the way. A
      missing parent is found before a signature that fails, and that before a taken id. */
  lemma TransactAcceptedIff(rows: seq<Row>, r: Request)
    requires Valid(rows)
    ensures Transact(rows, r).Ok? <==>
      ParentThere(rows, r) && BothVerify(r) && forall row :: row in rows ==> row.id != r.id
    ensures Transact(rows, r) == Err(ParentMissing) <==> !ParentThere(rows, r)
    ensures Transact(rows, r) == Err(SigningFailed) <==> ParentThere(rows, r) && !BothVerify(r)
    ensures Transact(rows, r) == Err(Duplicate) <==>
      ParentThere(rows, r) && BothVerify(r) && exists row :: row in rows && row.id == r.id
  {
    forall i | 0 <= i < |rows| ensures rows[i].current.Sha512? && rows[i].current.core.id == rows[i].id {
      HashesHoldIds(rows, i);
    }
    assert forall i :: 0 <= i < |rows| ==> rows[i] in rows;
  }

  /** Why an append of this request is refused after its id has been looked at, if it is. */
  ghost function Obstacle(rows: seq<Row>, r: Request): Option<Error> {
    if !ParentThere(rows, r) then Some(ParentMissing)
    else if !BothVerify(r) then Some(SigningFailed)
    else if exists row :: row in rows && row.id == r.id then Some(Duplicate)
    else None
  }

  /** What a commit comes to in any run: the row of the request at the end, or the error of the
      first thing that stands in its way. */
  lemma CommitIs(actions: seq<Action>, p: nat)
    requires var st := Run(actions); p in st.processes && st.processes[p].Checked?
    ensures var st := Run(actions); var r := st.processes[p].request; var next := Step(st, Commit(p));
      if Obstacle(st.rows, r).Some? then next == Ends(st, p, Obstacle(st.rows, r).value)
      else next == State(st.rows + [Written(st.rows, r)], st.processes[p := Committed(Written(st.rows, r))])
  {
    InvRun(actions);
    TransactAcceptedIff(Run(actions).rows, Run(actions).processes[p].request);
  }

  function Ends(st: State, p: nat, error: Error): State {
    st.(processes := st.processes[p := Finished(Err(error))])
  }

  /** The row of a request: its text, both signatures, and the hash of it all with the hash of
      the row before it. */
  function Written(rows: seq<Row>, r: Request): Row {
    var previous := if |rows| == 0 then Genesis else rows[|rows| - 1].current;
    Row(r.id, r.timestamp, "omega-verdict-ledger-v1", previous,
      Sha512(Core("omega-verdict-ledger-v1", r.id, r.timestamp, previous, r.payload)), Json(r.payload),
      Signature(Ed25519, true), Signature(MlDsa, true), r.supersedes)
  }

  lemma ReadBackOnlyCommitted(st: State, p: nat, error: Error)
    ensures Step(Ends(st, p, error), ReadBack(p)) == Ends(st, p, error)
  {
  }

  lemma EndsOnce(st: State, p: nat, stage: Stage, error: Error)
    ensures Ends(st.(processes := st.processes[p := stage]), p, error) == Ends(st, p, error)
  {
    assert st.processes[p := stage][p := Finished(Err(error))] == st.processes[p := Finished(Err(error))];
  }

  /** An append that no other process disturbs, after any run: it comes to its commit unless it
      has no id, and its read-back confirms what was committed. */
  lemma UndisturbedAppend(actions: seq<Action>, p: nat, r: Request)
    ensures var st, next := Run(actions), Run(actions + [PreCheck(p, r), Commit(p), ReadBack(p)]);
      var obstacle, row := Obstacle(st.rows, r), Written(st.rows, r);
      if r.id == "" then next == Ends(st, p, IdRequired)
      else if obstacle.Some? then next == Ends(st, p, obstacle.value)
      else next == State(st.rows + [row], st.processes[p := Finished(Ok(row.current))])
  {
    InvRun(actions);
    var a1 := actions + [PreCheck(p, r)];
    var a2 := a1 + [Commit(p)];
    assert actions + [PreCheck(p, r), Commit(p), ReadBack(p)] == a2 + [ReadBack(p)];
    OneMore(actions, PreCheck(p, r));
    OneMore(a1, Commit(p));
    OneMore(a2, ReadBack(p));
    var st := Run(actions);
    if r.id == "" {
      assert Run(a1) == Ends(st, p, IdRequired);
      ReadBackOnlyCommitted(st, p, IdRequired);
    } else {
      assert Run(a1) == st.(processes := st.processes[p := Checked(r)]);
      CommitIs(a1, p);
      var obstacle := Obstacle(st.rows, r);
      if obstacle.Some? {
        EndsOnce(st, p, Checked(r), obstacle.value);
        ReadBackOnlyCommitted(st, p, obstacle.value);
      } else {
        AppendEnds(actions, a2, p, r);
      }
    }
  }

  lemma AppendEnds(actions: seq<Action>, more: seq<Action>, p: nat, r: Request)
    requires var st, row := Run(actions), Written(Run(actions).rows, r);
      Run(more) == State(st.rows + [row], st.processes[p := Checked(r)][p := Committed(row)])
    ensures var st, row := Run(actions), Written(Run(actions).rows, r);
      Step(Run(more), ReadBack(p)) == State(st.rows + [row], st.processes[p := Finished(Ok(row.current))])
  {
    ConfirmedIff(more, p);
    var st, row := Run(actions), Written(Run(actions).rows, r);
    assert st.processes[p := Checked(r)][p := Committed(row)][p := Finished(Ok(row.current))]
      == st.processes[p := Finished(Ok(row.current))];
  }

  lemma OneMore(actions: seq<Action>, a: Action)
    ensures Run(actions + [a]) == Step(Run(actions), a)
  {
    assert (actions + [a])[..|actions|] == actions;
  }

  // ---------------------------------------------------------------- where rows come from

  /** The row records this request, whose two signatures verified. */
  predicate Records(row: Row, r: Request) {
    && BothVerify(r) && r.id != ""
    && row.id == r.id && row.createdAt == r.timestamp && row.payload == Json(r.payload)
    && row.supersedes == r.supersedes
    && row.ed25519 == Signature(Ed25519, true) && row.mlDsa == Signature(MlDsa, true)
  }

  lemma TransactRecords(rows: seq<Row>, r: Request)
    requires Transact(rows, r).Ok? && r.id != ""
    ensures var next := Transact(rows, r).value; |next| == |rows| + 1 && Records(next[|rows|], r)
  {
  }

  /** Every row, and every request under way, was asked for. */
  ghost predicate AllAsked(st: State, asked: Request -> bool) {
    && (forall row :: row in st.rows ==> exists r :: asked(r) && Records(row, r))
    && (forall p :: p in st.processes && st.processes[p].Checked? ==>
          asked(st.processes[p].request) && st.processes[p].request.id != "")
  }

  lemma {:induction false} AskedRun(actions: seq<Action>, asked: Request -> bool)
    requires forall a :: a in actions && a.PreCheck? ==> asked(a.request)
    ensures AllAsked(Run(actions), asked)
    decreases actions
  {
    if actions != [] {
      var st, a := Run(actions[..|actions| - 1]), actions[|actions| - 1];
      AskedRun(actions[..|actions| - 1], asked);
      if a.Commit? && a.p in st.processes && st.processes[a.p].Checked? {
        var r := st.processes[a.p].request;
        if Transact(st.rows, r).Ok? {
          TransactRecords(st.rows, r);
        }
      }
    }
  }

  /** No row without a request: whatever the interleaving, each stored row records a request
      that some process brought, with its text, and both its signatures verified. */
  lemma RowsAreRequested(actions: seq<Action>, row: Row)
    requires row in Run(actions).rows
    ensures exists a :: a in actions && a.PreCheck? && Records(row, a.request)
  {
    var asked := (r: Request) => exists a :: a in actions && a.PreCheck? && a.request == r;
    AskedRun(actions, asked);
    var r :| asked(r) && Records(row, r);
  }

  /** The row names the hash it is to follow, carries both signatures and the schema, and hashes
      to its own digest. */
  predicate Stands(row: Row, previous: Hash) {
    && row.previous == previous && row.schema == "omega-verdict-ledger-v1"
    && row.ed25519 == Signature(Ed25519, true) && row.mlDsa == Signature(MlDsa, true)
    && row.payload.Json?
    && row.current == Sha512(Core(row.schema, row.id, row.createdAt, previous, row.payload.payload))
  }

  predicate StandsAt(rows: seq<Row>, i: nat)
    requires i < |rows|
  {
    Stands(rows[i], if i == 0 then Genesis else rows[i - 1].current)
  }

  lemma FollowsIffStands(row: Row, previous: Hash)
    ensures Follows(row, previous) <==> Stands(row, previous)
  {
  }

  /** What the chain check accepts: every row stands on the one before it, the first on the
      genesis value. */
  lemma {:induction false} ValidIff(rows: seq<Row>)
    ensures Valid(rows) <==> forall i: nat :: i < |rows| ==> StandsAt(rows, i)
    decreases rows
  {
    if rows != [] {
      var before, n := rows[..|rows| - 1], |rows| - 1;
      ValidIff(before);
      FollowsIffStands(rows[n], Head(before));
      assert StandsAt(rows, n) <==> Stands(rows[n], Head(before));
      forall i: nat | i < n ensures StandsAt(before, i) <==> StandsAt(rows, i) {}
    }
  }
}
