/** The fail-safe controller (sara_v32_hardening.py): sealed snapshots chained by digest,
    kept to a bounded number, verified as a chain, and restored newest first with fallback. */
module Snapshots {
  import opened Outcomes
  import opened Redaction

  type Key = int

  /** The retention bound the source accepts. */
  type Bound = n: nat | n >= 2 witness 2

  /** SHA3-512 of a canonical payload, as an injective constructor. A file may hold any text in
      its place; comparing text that is not ASCII raises an error of its own. */
  datatype StateDigest = StateDigest(payload: Json) | OtherDigest(ascii: bool)

  /** What a ciphertext decrypts to: no JSON; an object that parses but cannot be encoded
      again, for it holds a NaN or a lone surrogate; or the canonical form of a payload. */
  datatype Plain = Garbage | Uncanonical | Canonical(payload: Json)

  /** AES-256-GCM: opens under the key it was sealed with and no other. */
  datatype Sealed = Sealed(key: Key, nonce: nat, plain: Plain)

  /** The part of an envelope that the chain digest covers. */
  datatype Body = Body(id: nat, event: string, metadata: Json, sealed: Sealed, stateDigest: StateDigest,
    previous: Option<ChainDigest>)

  datatype ChainDigest = ChainDigest(body: Body)

  datatype Mac = Mac(key: Key, body: Body, chain: ChainDigest)

  /** Why loading a file can fail with an error that is no `BackupError`: the file holds a
      JSON `null`, number or boolean, or a list, in which fields cannot be looked up (a list or
      text that merely lacks the field names is rejected); a digest or MAC in it is not ASCII,
      so that it cannot be compared; or it holds a NaN or a lone surrogate, so that it cannot
      be encoded for the MAC. */
  datatype Cause = NoObject | NotAscii | NotEncodable

  /** What a file holds: something that is rejected as a broken snapshot, something whose
      error escapes, or a complete envelope of this format. */
  datatype Content = Unreadable | Raising(cause: Cause) | Envelope(body: Body, chain: ChainDigest, mac: Mac)

  /** File names grow with time, so the directory is listed here in ascending order. */
  datatype File = File(name: nat, content: Content)

  const EVENTS: set<string> := {
    "PRE_MUTATION", "PRE_DISPATCH", "PROVIDER_UNAVAILABLE", "SECURITY_CONTAINMENT", "UNHANDLED_EXCEPTION",
    "SHUTDOWN", "MANUAL" }

  /** `Escaped` is any error that is no `BackupError`. */
  datatype Error = Backup(error: BackupError) | TooLarge | NoSnapshot | NoneValid | Escaped

  datatype Restored = Restored(id: nat, state: Json, fallback: bool)

  // ---------------------------------------------------------------- one file

  /** Both the MAC and the chain digest check out. */
  predicate Genuine(key: Key, c: Content) {
    c.Envelope? && c.mac == Mac(key, c.body, c.chain) && c.chain == ChainDigest(c.body)
  }

  /** Genuine, and its state opens, matches its digest, is an object, and names a known event. */
  predicate Intact(key: Key, c: Content) {
    && Genuine(key, c)
    && c.body.sealed.key == key
    && c.body.sealed.plain.Canonical?
    && c.body.sealed.plain.payload.Object?
    && c.body.stateDigest == StateDigest(c.body.sealed.plain.payload)
    && c.body.event in EVENTS
  }

  /** How using one file ends: well, with a `BackupError`, or with another error. */
  datatype Outcome = Accepted | Rejected | Escaping

  /** Loading and verifying the envelope. */
  function Load(key: Key, c: Content): Outcome {
    match c
    case Unreadable => Rejected
    case Raising(_) => Escaping
    case Envelope(body, chain, mac) =>
      if mac != Mac(key, body, chain) then Rejected
      else if chain != ChainDigest(body) then Rejected
      else Accepted
  }

  /** Loading the envelope, then opening its state and checking it. */
  function Open(key: Key, c: Content): Outcome {
    if !Load(key, c).Accepted? then Load(key, c)
    else
      var body := c.body;
      if body.sealed.key != key || body.sealed.plain.Garbage? then Rejected
      else if body.sealed.plain.Uncanonical? then Escaping
      else if !body.sealed.plain.payload.Object? then Rejected
      else if body.stateDigest == OtherDigest(false) then Escaping
      else if body.stateDigest != StateDigest(body.sealed.plain.payload) then Rejected
      else if body.event !in EVENTS then Rejected
      else Accepted
  }

  /** Accepted is what is genuine, and what is intact; whatever escapes from loading escapes
      from opening. */
  lemma OutcomesAgree(key: Key, c: Content)
    ensures Load(key, c).Accepted? <==> Genuine(key, c)
    ensures Open(key, c).Accepted? <==> Intact(key, c)
    ensures Load(key, c).Escaping? ==> Open(key, c).Escaping?
  {
  }

  /** Exactly which files raise an error that is no `BackupError`: those that raise it when they
      are loaded, and genuine ones whose text decrypts to an object that cannot be encoded again,
      or to one whose recorded digest is not ASCII. */
  lemma EscapesIff(key: Key, c: Content)
    ensures Load(key, c).Escaping? <==> c.Raising?
    ensures Open(key, c).Escaping? <==>
      c.Raising? || (Genuine(key, c) && c.body.sealed.key == key && CannotBeChecked(c.body))
  {
  }

  predicate CannotBeChecked(body: Body) {
    match body.sealed.plain
    case Uncanonical => true
    case Canonical(payload) => payload.Object? && body.stateDigest == OtherDigest(false)
    case Garbage => false
  }

  predicate KnownEvent(e: string) {
    || e == "PRE_MUTATION" || e == "PRE_DISPATCH" || e == "PROVIDER_UNAVAILABLE" || e == "SECURITY_CONTAINMENT"
    || e == "UNHANDLED_EXCEPTION" || e == "SHUTDOWN" || e == "MANUAL"
  }

  lemma EventsByName(e: string)
    ensures e in EVENTS <==> KnownEvent(e)
  {
  }

  /** When a file is intact, part by part: authenticated as a whole, its state sealed under the
      same key, an object, with the digest recorded, under the name of a known event. */
  lemma IntactIff(key: Key, c: Content)
    ensures Intact(key, c) <==>
      && c.Envelope? && c.mac.key == key && c.mac.body == c.body == c.chain.body && c.mac.chain == c.chain
      && c.body.sealed.key == key
      && (exists entries :: c.body.sealed.plain == Canonical(Object(entries))
            && c.body.stateDigest == StateDigest(Object(entries)))
      && KnownEvent(c.body.event)
  {
    if c.Envelope? { EventsByName(c.body.event); }
    if Intact(key, c) { assert c.body.sealed.plain == Canonical(Object(c.body.sealed.plain.payload.entries)); }
  }

  function Seal(
    key: Key, id: nat, nonce: nat, event: string, metadata: Json, payload: Json, previous: Option<ChainDigest>
  ): (c: Content)
    ensures Genuine(key, c) && (payload.Object? && event in EVENTS ==> Intact(key, c))
  {
    var body := Body(id, event, metadata, Sealed(key, nonce, Canonical(payload)), StateDigest(payload), previous);
    Envelope(body, ChainDigest(body), Mac(key, body, ChainDigest(body)))
  }

  // ---------------------------------------------------------------- the directory

  /** The search for the digest of the newest genuine snapshot, newest file first. */
  function LatestDigest(key: Key, files: seq<File>): Result<Option<ChainDigest>, Error> {
    if files == [] then Ok(None)
    else
      var last := files[|files| - 1].content;
      match Load(key, last)
      case Accepted => Ok(Some(last.chain))
      case Escaping => Err(Escaped)
      case Rejected => LatestDigest(key, files[..|files| - 1])
  }

  /** No file whose error escapes stands above the newest genuine one; if no file is genuine,
      there is no such file at all. */
  ghost predicate Clear(key: Key, files: seq<File>) {
    forall i :: 0 <= i < |files| && Load(key, files[i].content).Escaping? ==> Covered(key, files, i)
  }

  /** A genuine file stands above file `i`. */
  ghost predicate Covered(key: Key, files: seq<File>, i: nat) {
    exists j :: i < j < |files| && Genuine(key, files[j].content)
  }

  function Retained(files: seq<File>, max: nat): seq<File> {
    if |files| <= max then files else files[|files| - max..]
  }

  function Appended(key: Key, max: nat, files: seq<File>, s: Snapshot, previous: Option<ChainDigest>): seq<File> {
    Retained(files + [File(s.name, Seal(key, s.name, s.nonce, s.event, s.metadata, s.state, previous))], max)
  }

  /** One checkpoint of an already sanitized state: an error in the search for the newest
      digest is its error. */
  function WithSnapshot(key: Key, max: nat, files: seq<File>, s: Snapshot): Result<seq<File>, Error> {
    var previous := LatestDigest(key, files);
    if previous.Err? then Err(previous.error) else Ok(Appended(key, max, files, s, previous.value))
  }

  datatype Snapshot = Snapshot(name: nat, nonce: nat, event: string, metadata: Json, state: Json)

  /** The last `n` snapshots are genuine and form a chain among themselves. */
  ghost predicate ChainedTail(key: Key, files: seq<File>, n: nat) {
    && n <= |files|
    && (forall i :: |files| - n <= i < |files| ==> Genuine(key, files[i].content))
    && (forall i :: |files| - n < i < |files| ==> files[i].content.body.previous == Some(files[i - 1].content.chain))
  }

  /** What `verify_retained_chain` accepts. */
  ghost predicate Chained(key: Key, files: seq<File>) {
    ChainedTail(key, files, |files|)
  }

  // ---------------------------------------------------------------- the controller, in place

  class FailSafeSaveController {
    const key: Key
    const maxBytes: nat
    const maxSnapshots: Bound
    var files: seq<File>

    constructor (key: Key, maxBytes: nat, maxSnapshots: Bound)
      requires maxBytes >= 1024
      ensures this.key == key && this.maxBytes == maxBytes && this.maxSnapshots == maxSnapshots && files == []
    {
      this.key, this.maxBytes, this.maxSnapshots := key, maxBytes, maxSnapshots;
      files := [];
    }

    method LatestValidDigest() returns (digest: Result<Option<ChainDigest>, Error>)
      ensures digest == LatestDigest(key, files)
      ensures digest.Ok? <==> Clear(key, files)
      ensures digest.Err? ==> digest == Err(Escaped)
    {
      DigestFoundIff(key, files);
      var i := |files|;
      assert files[..|files|] == files;
      while i > 0
        invariant 0 <= i <= |files|
        invariant LatestDigest(key, files) == LatestDigest(key, files[..i])
      {
        assert files[..i][..i - 1] == files[..i - 1];
        i := i - 1;
        var loaded := Load(key, files[i].content);
        if loaded.Escaping? { return Err(Escaped); }
        if loaded.Accepted? { return Ok(Some(files[i].content.chain)); }
      }
      return Ok(None);
    }

    method EnforceRetention()
      modifies this`files
      ensures files == Retained(old(files), maxSnapshots)
    {
      if |files| > maxSnapshots {
        var excess := |files| - maxSnapshots;
        for i := 0 to excess
          invariant files == old(files)[..excess - i] + old(files)[excess..]
        {
          // newest of the doomed first
          var doomed := excess - 1 - i;
          assert old(files)[..doomed + 1][..doomed] == old(files)[..doomed];
          files := files[..doomed] + files[doomed + 1..];
        }
      }
    }

    /** `size` is the length of the canonical payload and `None` if it has no canonical form;
      `encodes` tells whether the metadata has one; `name` is later than every name. */
    method Checkpoint(
      state: Json, event: string, metadata: Json, size: Option<nat>, encodes: bool, name: nat, nonce: nat
    ) returns (result: Result<ChainDigest, Error>)
      requires state.Object? && metadata.Object?
      modifies this`files
      ensures var s, m := Sanitize(state, 0), Sanitize(metadata, 0);
        && (result.Ok? <==>
              s.Ok? && m.Ok? && size.Some? && size.value <= maxBytes && encodes && Clear(key, old(files)))
        && (result.Ok? ==>
              && WithSnapshot(key, maxSnapshots, old(files), Snapshot(name, nonce, event, m.value, s.value))
                == Ok(files)
              && files != [] && result.value == files[|files| - 1].content.chain)
        && (s.Ok? && m.Ok? && size.Some? && size.value <= maxBytes && !Clear(key, old(files)) ==>
          result == Err(Escaped))
      ensures result.Err? ==> files == old(files)
    {
      var cleanState := Sanitize(state, 0);
      if cleanState.Err? { return Err(Backup(cleanState.error)); }
      var cleanMetadata := Sanitize(metadata, 0);
      if cleanMetadata.Err? { return Err(Backup(cleanMetadata.error)); }
      if size.None? { return Err(Escaped); }
      if size.value > maxBytes { return Err(TooLarge); }
      var previous := LatestValidDigest();
      if previous.Err? { return Err(previous.error); }
      if !encodes { return Err(Escaped); }
      var envelope := Seal(key, name, nonce, event, cleanMetadata.value, cleanState.value, previous.value);
      files := files + [File(name, envelope)];
      EnforceRetention();
      return Ok(envelope.chain);
    }

    /** The newest intact snapshot; `fallback` tells that it is not the newest file. */
    method RestoreLatest() returns (result: Result<Restored, Error>)
      ensures result == Newest(key, files)
    {
      if files == [] { return Err(NoSnapshot); }
      var i := |files|;
      while i > 0
        invariant 0 <= i <= |files|
        invariant forall j :: i <= j < |files| ==> Open(key, files[j].content).Rejected?
      {
        i := i - 1;
        var outcome := Open(key, files[i].content);
        OutcomesAgree(key, files[i].content);
        if !outcome.Rejected? { NewestAt(key, files, i); }
        if outcome.Escaping? { return Err(Escaped); }
        if outcome.Accepted? { return Ok(Yield(files, i)); }
      }
      return Err(NoneValid);
    }

    method VerifyRetainedChain() returns (ok: bool)
      ensures ok <==> Chained(key, files)
    {
      var prior: Option<ChainDigest> := None;
      for i := 0 to |files|
        invariant forall j :: 0 <= j < i ==> Genuine(key, files[j].content)
        invariant forall j :: 0 < j < i ==> files[j].content.body.previous == Some(files[j - 1].content.chain)
        invariant i > 0 ==> prior == Some(files[i - 1].content.chain)
      {
        if !Genuine(key, files[i].content) { return false; }
        if i > 0 && files[i].content.body.previous != prior { return false; }
        prior := Some(files[i].content.chain);
      }
      return true;
    }
  }

  /** What restoring file `i` returns. */
  function Yield(files: seq<File>, i: nat): Restored
    requires i < |files| && files[i].content.Envelope? && files[i].content.body.sealed.plain.Canonical?
  {
    var body := files[i].content.body;
    Restored(body.id, body.sealed.plain.payload, files[i].name != files[|files| - 1].name)
  }

  /** What a restore comes to, by the position of the newest file that is not rejected. */
  ghost function Newest(key: Key, files: seq<File>): Result<Restored, Error> {
    if files == [] then Err(NoSnapshot)
    else if exists i: nat :: Decides(key, files, i) then
      var i: nat :| Decides(key, files, i);
      OutcomesAgree(key, files[i].content);
      if Open(key, files[i].content).Accepted? then Ok(Yield(files, i)) else Err(Escaped)
    else Err(NoneValid)
  }

  ghost predicate Decides(key: Key, files: seq<File>, i: nat) {
    && i < |files| && !Open(key, files[i].content).Rejected?
    && forall j :: i < j < |files| ==> Open(key, files[j].content).Rejected?
  }

  lemma NewestAt(key: Key, files: seq<File>, i: nat)
    requires Decides(key, files, i)
    ensures Open(key, files[i].content).Accepted? ==>
      Intact(key, files[i].content) && Newest(key, files) == Ok(Yield(files, i))
    ensures Open(key, files[i].content).Escaping? ==> Newest(key, files) == Err(Escaped)
  {
    OutcomesAgree(key, files[i].content);
    forall j: nat | Decides(key, files, j) ensures j == i {}
  }

  ghost predicate NewestIntact(key: Key, files: seq<File>, i: nat) {
    i < |files| && Intact(key, files[i].content) && forall j :: i < j < |files| ==> !Intact(key, files[j].content)
  }

  // ---------------------------------------------------------------- checkpoints and the chain

  lemma CoveredBelow(key: Key, files: seq<File>, i: nat)
    requires i < |files| - 1 && !Genuine(key, files[|files| - 1].content)
    ensures Covered(key, files, i) <==> Covered(key, files[..|files| - 1], i)
  {
    var before := files[..|files| - 1];
    if Covered(key, files, i) {
      var j :| i < j < |files| && Genuine(key, files[j].content);
      assert before[j] == files[j];
    }
    if Covered(key, before, i) {
      var j :| i < j < |before| && Genuine(key, before[j].content);
      assert files[j] == before[j];
    }
  }

  /** The search succeeds exactly on a clear directory. */
  lemma {:induction false} DigestFoundIff(key: Key, files: seq<File>)
    ensures LatestDigest(key, files).Ok? <==> Clear(key, files)
    ensures LatestDigest(key, files).Err? ==> LatestDigest(key, files) == Err(Escaped)
    decreases files
  {
    if files != [] {
      var n := |files| - 1;
      var before := files[..n];
      OutcomesAgree(key, files[n].content);
      match Load(key, files[n].content)
      case Accepted =>
        assert forall i: nat :: i < n ==> Covered(key, files, i);
      case Escaping =>
        assert !Covered(key, files, n);
      case Rejected =>
        DigestFoundIff(key, before);
        forall i: nat | i < n ensures Covered(key, files, i) <==> Covered(key, before, i) {
          CoveredBelow(key, files, i);
        }
        assert forall i :: 0 <= i < n ==> before[i] == files[i];
    }
  }

  lemma RetainedKeepsTail(key: Key, files: seq<File>, max: nat, n: nat)
    requires ChainedTail(key, files, n)
    ensures var next := Retained(files, max); ChainedTail(key, next, if n <= |next| then n else |next|)
  {
    var next := Retained(files, max);
    var cut := |files| - |next|;
    forall i | 0 <= i < |next| ensures next[i] == files[cut + i] {}
  }

  /** A checkpoint that goes through extends whatever chain the newest snapshots form, up to
      the bound, and leaves a clear directory. */
  lemma CheckpointExtendsChain(key: Key, max: nat, files: seq<File>, s: Snapshot, n: nat)
    requires max >= 1 && ChainedTail(key, files, n) && Clear(key, files)
    ensures WithSnapshot(key, max, files, s).Ok?
    ensures var next := WithSnapshot(key, max, files, s).value;
      && |next| == (if |files| + 1 <= max then |files| + 1 else max)
      && ChainedTail(key, next, if n + 1 <= |next| then n + 1 else |next|)
      && Clear(key, next)
  {
    DigestFoundIff(key, files);
    var previous := LatestDigest(key, files).value;
    if n > 0 { OutcomesAgree(key, files[|files| - 1].content); }
    var all := Appended(key, |files| + 1, files, s, previous);
    assert ChainedTail(key, all, n + 1);
    RetainedKeepsTail(key, all, max, n + 1);
    var next := Appended(key, max, files, s, previous);
    OutcomesAgree(key, next[|next| - 1].content);
  }

  /** Checkpoints one after the other; one that fails changes nothing. */
  function Checkpoints(key: Key, max: nat, files: seq<File>, snapshots: seq<Snapshot>): seq<File> {
    if snapshots == [] then files
    else
      var before := Checkpoints(key, max, files, snapshots[..|snapshots| - 1]);
      var next := WithSnapshot(key, max, before, snapshots[|snapshots| - 1]);
      if next.Ok? then next.value else before
  }

  /** Every one of them goes through. */
  ghost predicate AllGoThrough(key: Key, max: nat, files: seq<File>, snapshots: seq<Snapshot>) {
    forall i :: 0 <= i < |snapshots| ==>
      WithSnapshot(key, max, Checkpoints(key, max, files, snapshots[..i]), snapshots[i]).Ok?
  }

  lemma {:induction false} CheckpointsExtendChain(key: Key, max: nat, files: seq<File>, snapshots: seq<Snapshot>,
      n: nat)
    requires max >= 1 && ChainedTail(key, files, n) && Clear(key, files)
    ensures var next := Checkpoints(key, max, files, snapshots); var k := n + |snapshots|;
      && (snapshots != [] ==> |next| == if |files| + |snapshots| <= max then |files| + |snapshots| else max)
      && ChainedTail(key, next, if k <= |next| then k else |next|)
      && Clear(key, next)
    decreases snapshots
  {
    if snapshots != [] {
      var before := snapshots[..|snapshots| - 1];
      CheckpointsExtendChain(key, max, files, before, n);
      var mid := Checkpoints(key, max, files, before);
      var k := n + |before|;
      CheckpointExtendsChain(key, max, mid, snapshots[|snapshots| - 1], if k <= |mid| then k else |mid|);
    }
  }

  lemma CheckpointsGoThrough(key: Key, max: nat, files: seq<File>, snapshots: seq<Snapshot>)
    requires max >= 1 && Clear(key, files)
    ensures AllGoThrough(key, max, files, snapshots)
  {
    forall i | 0 <= i < |snapshots|
      ensures WithSnapshot(key, max, Checkpoints(key, max, files, snapshots[..i]), snapshots[i]).Ok?
    {
      CheckpointsExtendChain(key, max, files, snapshots[..i], 0);
      DigestFoundIff(key, Checkpoints(key, max, files, snapshots[..i]));
    }
  }

  /** On a directory that is not clear no checkpoint ever goes through, and the chain does not
      verify. */
  lemma {:induction false} BlockedForGood(key: Key, max: nat, files: seq<File>, snapshots: seq<Snapshot>)
    requires !Clear(key, files)
    ensures Checkpoints(key, max, files, snapshots) == files && !Chained(key, files)
    decreases snapshots
  {
    if snapshots != [] {
      BlockedForGood(key, max, files, snapshots[..|snapshots| - 1]);
      DigestFoundIff(key, files);
    }
    var i :| 0 <= i < |files| && Load(key, files[i].content).Escaping?;
    OutcomesAgree(key, files[i].content);
  }

  /** Without damage the chain verifies after every checkpoint, retention notwithstanding. */
  lemma UndamagedChainVerifies(key: Key, max: nat, snapshots: seq<Snapshot>)
    requires max >= 1
    ensures AllGoThrough(key, max, [], snapshots) && Chained(key, Checkpoints(key, max, [], snapshots))
  {
    CheckpointsExtendChain(key, max, [], snapshots, 0);
    CheckpointsGoThrough(key, max, [], snapshots);
  }

  /** Self-repair: whatever became of the files there were, `max` or more further checkpoints
      all go through and leave a chain that verifies exactly when the directory is clear. */
  lemma ChainRepairsItselfIff(key: Key, max: nat, damaged: seq<File>, snapshots: seq<Snapshot>)
    requires max >= 1 && |snapshots| >= max
    ensures Chained(key, Checkpoints(key, max, damaged, snapshots)) <==> Clear(key, damaged)
    ensures AllGoThrough(key, max, damaged, snapshots) <==> Clear(key, damaged)
  {
    if Clear(key, damaged) {
      CheckpointsExtendChain(key, max, damaged, snapshots, 0);
      CheckpointsGoThrough(key, max, damaged, snapshots);
    } else {
      BlockedForGood(key, max, damaged, snapshots);
      DigestFoundIff(key, damaged);
      assert snapshots[..0] == [];
      assert WithSnapshot(key, max, Checkpoints(key, max, damaged, snapshots[..0]), snapshots[0]).Err?;
    }
  }

  lemma FileShifts(key: Key, max: nat, files: seq<File>, s: Snapshot, previous: Option<ChainDigest>, i: nat)
    requires |files| >= max && |files| - max < i < |files|
    ensures var next := Appended(key, max, files, s, previous);
      |next| == max && next[max - 1 - (|files| - i)] == files[i]
  {
  }

  lemma {:induction false} OldFilesShift(key: Key, max: nat, files: seq<File>, snapshots: seq<Snapshot>)
    requires |files| >= max && |snapshots| < max && Clear(key, files)
    ensures var next := Checkpoints(key, max, files, snapshots);
      |next| >= max && next[|next| - 1 - |snapshots|] == files[|files| - 1]
    decreases snapshots
  {
    if snapshots != [] {
      var before, last := snapshots[..|snapshots| - 1], snapshots[|snapshots| - 1];
      OldFilesShift(key, max, files, before);
      CheckpointsExtendChain(key, max, files, before, 0);
      var mid := Checkpoints(key, max, files, before);
      DigestFoundIff(key, mid);
      FileShifts(key, max, mid, last, LatestDigest(key, mid).value, |mid| - |snapshots|);
    }
  }

  /** And it takes no fewer: a full directory whose newest file is broken verifies again
      exactly when it is clear and that file has been pushed out. */
  lemma RepairTakesExactly(key: Key, max: nat, damaged: seq<File>, snapshots: seq<Snapshot>)
    requires max >= 1 && |damaged| >= max && !Genuine(key, damaged[|damaged| - 1].content)
    ensures Chained(key, Checkpoints(key, max, damaged, snapshots)) <==> Clear(key, damaged) && |snapshots| >= max
  {
    if !Clear(key, damaged) {
      BlockedForGood(key, max, damaged, snapshots);
    } else if |snapshots| >= max {
      ChainRepairsItselfIff(key, max, damaged, snapshots);
    } else {
      OldFilesShift(key, max, damaged, snapshots);
    }
  }

  // ---------------------------------------------------------------- deletions

  function Depth(d: ChainDigest): nat {
    if d.body.previous.None? then 0 else 1 + Depth(d.body.previous.value)
  }

  lemma {:induction false} DepthAlongChain(key: Key, files: seq<File>, i: nat, j: nat)
    requires Chained(key, files) && i <= j < |files|
    ensures Depth(files[j].content.chain) == Depth(files[i].content.chain) + (j - i)
  {
    if i < j {
      DepthAlongChain(key, files, i, j - 1);
      assert files[j].content.chain == ChainDigest(files[j].content.body);
    }
  }

  /** The files that survive a deletion, by their positions. */
  function Keep(files: seq<File>, positions: seq<nat>): seq<File>
    requires forall i :: 0 <= i < |positions| ==> positions[i] < |files|
  {
    seq(|positions|, i requires 0 <= i < |positions| => files[positions[i]])
  }

  /** Exactly which deletions go unnoticed: those that leave one unbroken stretch. */
  lemma DeletionDetectedIff(key: Key, files: seq<File>, positions: seq<nat>)
    requires Chained(key, files)
    requires forall i :: 0 <= i < |positions| ==> positions[i] < |files|
    requires forall i, j :: 0 <= i < j < |positions| ==> positions[i] < positions[j]
    ensures Chained(key, Keep(files, positions)) <==>
      forall i :: 0 < i < |positions| ==> positions[i] == positions[i - 1] + 1
  {
    var kept := Keep(files, positions);
    forall i | 0 < i < |positions|
      ensures kept[i].content.body.previous == Some(kept[i - 1].content.chain) <==> positions[i] == positions[i - 1] + 1
    {
      var a, b := positions[i - 1], positions[i];
      assert a < b;
      DepthAlongChain(key, files, a, b - 1);
      assert files[b].content.body.previous == Some(files[b - 1].content.chain);
    }
  }

  // ---------------------------------------------------------------- restoring

  /** A checkpoint that goes through, followed at once by a restore, gives back exactly what
      was saved. */
  lemma CheckpointThenRestore(key: Key, max: nat, files: seq<File>, s: Snapshot)
    requires max >= 1 && s.state.Object? && s.event in EVENTS
    ensures WithSnapshot(key, max, files, s).Ok? <==> Clear(key, files)
    ensures Clear(key, files) ==>
      Newest(key, WithSnapshot(key, max, files, s).value) == Ok(Restored(s.name, s.state, false))
  {
    DigestFoundIff(key, files);
    if Clear(key, files) {
      var next := WithSnapshot(key, max, files, s).value;
      var last := next[|next| - 1].content;
      assert last.body.sealed.plain.payload == s.state && last.body.id == s.name;
      OutcomesAgree(key, last);
      NewestAt(key, next, |next| - 1);
    }
  }

  /** A restore yields the newest intact state exactly when no file above it raises an error
      that escapes; otherwise that error is all there is. */
  lemma RestoreYieldsIff(key: Key, files: seq<File>, i: nat)
    requires NewestIntact(key, files, i)
    ensures Newest(key, files) == Ok(Yield(files, i)) <==>
      forall j :: i < j < |files| ==> !Open(key, files[j].content).Escaping?
    ensures Newest(key, files).Err? ==> Newest(key, files) == Err(Escaped)
  {
    var d := TopNotRejected(key, files, i);
    NewestAt(key, files, d);
    OutcomesAgree(key, files[d].content);
    forall j | i < j < |files| ensures !Open(key, files[j].content).Accepted? { OutcomesAgree(key, files[j].content); }
  }

  lemma {:induction false} TopNotRejected(key: Key, files: seq<File>, i: nat) returns (d: nat)
    requires i < |files| && Intact(key, files[i].content)
    ensures i <= d && Decides(key, files, d)
  {
    d := |files| - 1;
    OutcomesAgree(key, files[i].content);
    while Open(key, files[d].content).Rejected?
      invariant i <= d < |files|
      invariant forall j :: d < j < |files| ==> Open(key, files[j].content).Rejected?
      decreases d
    {
      d := d - 1;
    }
  }

  /** The fallback flag is raised exactly when the newest file is not intact. */
  lemma FallbackIff(key: Key, files: seq<File>)
    requires forall i, j :: 0 <= i < j < |files| ==> files[i].name < files[j].name
    requires Newest(key, files).Ok?
    ensures Newest(key, files).value.fallback <==> !Intact(key, files[|files| - 1].content)
  {
    var i: nat :| Decides(key, files, i);
    NewestAt(key, files, i);
    OutcomesAgree(key, files[|files| - 1].content);
  }

  /** Damage to files other than the newest intact one does not change what is restored,
      exactly as long as it leaves no file above it whose error escapes. */
  lemma RestoreIgnoresDamageIff(key: Key, files: seq<File>, damaged: seq<File>, i: nat)
    requires NewestIntact(key, files, i) && Newest(key, files).Ok? && |damaged| == |files|
    requires forall j :: 0 <= j < |files| ==> damaged[j].name == files[j].name
    requires damaged[i] == files[i]
    requires forall j :: i < j < |files| ==> !Intact(key, damaged[j].content)
    ensures Newest(key, damaged) == Newest(key, files) <==>
      forall j :: i < j < |files| ==> !Open(key, damaged[j].content).Escaping?
  {
    RestoreYieldsIff(key, files, i);
    RestoreYieldsIff(key, damaged, i);
  }

  /** The failing input: a file holding `null` above an intact snapshot. Every checkpoint
      fails, so the chain is never repaired, and a restore fails instead of falling back. */
  lemma NullFileBlocks(key: Key, max: nat, s: Snapshot, snapshots: seq<Snapshot>)
    requires s.state.Object? && s.event in EVENTS
    ensures var intact := File(s.name, Seal(key, s.name, s.nonce, s.event, s.metadata, s.state, None));
      var files := [intact, File(s.name + 1, Raising(NoObject))];
      && NewestIntact(key, files, 0)
      && (forall next :: WithSnapshot(key, max, files, next) == Err(Escaped))
      && Checkpoints(key, max, files, snapshots) == files && !Chained(key, files)
      && Newest(key, files) == Err(Escaped)
  {
    var intact := File(s.name, Seal(key, s.name, s.nonce, s.event, s.metadata, s.state, None));
    var files := [intact, File(s.name + 1, Raising(NoObject))];
    assert Load(key, files[1].content).Escaping?;
    BlockedForGood(key, max, files, snapshots);
    NewestAt(key, files, 1);
  }
}
