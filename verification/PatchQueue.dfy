/**
 The queue that records source patches. An apply is announced before the files change and recorded with the hashes it
 left; repairs chain, acceptance is committed once in the queue, and the checkpoint file is only a copy of it.
 */
module PatchQueue {
  import opened Common

  type Path = string
  type Digest = string
  type Hashes = map<Path, Digest>

  datatype Packet = Packet(
    runId: string, chunkId: string, packetId: string, attempt: int, digest: Digest,
    writes: set<Path>, inputs: set<Path>, successor: string)

  datatype Validation = Validation(packetDigest: Digest, candidate: Digest, sources: Hashes, passed: bool)

  /**
   One recorded apply: what it was for and the hashes around it; `after` is absent until the apply is known complete.
   */
  datatype Apply = Apply(packetDigest: Digest, candidate: Digest, before: Hashes, after: Option<Hashes>)

  datatype Pending = Pending(apply: Apply, validation: Option<Validation>) {
    predicate Applied() { apply.after.Some? }
  }

  datatype Row = Superseded(pending: Pending)
    | Accepted(packetId: string, candidate: Digest, validation: Validation, review: Digest)

  datatype Commit = Commit(packetDigest: Digest, candidate: Digest, sources: Hashes, review: Digest, nextAction: string)

  datatype Queue = Queue(runId: string, packets: seq<Row>, pending: Option<Pending>, checkpoint: Option<Commit>,
    active: string)

  datatype Error =
    | PacketRejected | QueueBinding | ApplyPending | PriorSourceDrift | PatchFailed
    | ApplyRequired | PendingBinding | SourceDrift | ValidationDrift | ValidationBinding | TestsFailed | ReviewRejected
    | InputMissing | CheckpointDrift | AlreadyApplied | OutcomeUnknown | ProcessDied

  function HashesOf(paths: set<Path>, files: Hashes): Hashes {
    map p | p in paths && p in files :: files[p]
  }

  /** The runner itself and its tests, bound by every validation. */
  const RUNNER: set<Path> := {"scripts/local_qwopus_loop.py", "tests/test_local_qwopus_loop.py"}

  function SourcePaths(packet: Packet): set<Path> {
    packet.inputs + packet.writes + RUNNER
  }

  /** `c0_source_hashes`: what a validation is bound to; it fails when a file is missing. */
  function Sources(packet: Packet, files: Hashes): Hashes {
    HashesOf(SourcePaths(packet), files)
  }

  predicate SourcesExist(packet: Packet, files: Hashes) {
    SourcePaths(packet) <= files.Keys
  }

  // ---------------------------------------------------------------- what the queue remembers

  /** How many applies the queue accounts for. */
  function Recorded(q: Option<Queue>): nat {
    if q.None? then 0 else |q.value.packets| + if q.value.pending.Some? && q.value.pending.value.Applied() then 1 else 0
  }

  function RowsOf(q: Option<Queue>): seq<Row> {
    if q.None? then [] else q.value.packets
  }

  /** The row that a further apply makes of the pending one. */
  function SupersededBy(q: Option<Queue>): seq<Row> {
    if q.Some? && q.value.pending.Some? then [Superseded(q.value.pending.value)] else []
  }

  predicate Blocked(q: Option<Queue>) {
    q.Some? && q.value.pending.Some? && !q.value.pending.value.Applied()
  }

  /** Every apply announced so far, in order: the completed ones and the one whose outcome is not known. */
  ghost predicate Remembers(q: Queue, applies: seq<Apply>) {
    && |applies| == |q.packets| + (if q.pending.Some? then 1 else 0)
    && (q.pending.Some? ==> q.pending.value.apply == applies[|applies| - 1])
    && (forall i | 0 <= i < |q.packets| :: RowFor(q.packets[i], applies, i))
  }

  /** A superseded apply left exactly the files the next one started from; an accepted one is named by its candidate. */
  ghost predicate RowFor(row: Row, applies: seq<Apply>, i: nat)
    requires i < |applies|
  {
    && applies[i].after.Some?
    && match row
       case Superseded(pending) =>
         pending.apply == applies[i] && i + 1 < |applies| && applies[i].after == Some(applies[i + 1].before)
       case Accepted(_, candidate, _, _) => candidate == applies[i].candidate
  }

  class Workspace {
    /** `validate_c0_packet` on a packet and the files it was applied to. */
    const packetHolds: (Packet, Hashes) -> bool
    var queue: Option<Queue>
    var checkpointFile: Option<Commit>
    var validationFile: Option<Validation>
    var files: Hashes
    ghost var applies: seq<Apply>
    ghost var completed: nat
    ghost var patched: nat

    constructor (files: Hashes, packetHolds: (Packet, Hashes) -> bool)
      ensures Valid() && queue.None? && this.files == files && completed == 0 && patched == 0
      ensures this.packetHolds == packetHolds
    {
      this.packetHolds := packetHolds;
      queue, checkpointFile, validationFile, this.files := None, None, None, files;
      applies, completed, patched := [], 0, 0;
    }

    /**
     Conservation: completed applies are the rows of the queue plus the pending one if it is applied; and a patch is
     applied at most once per announcement.
     */
    ghost predicate Valid()
      reads this
    {
      && completed == Recorded(queue)
      && completed <= patched <= completed + (if Blocked(queue) then 1 else 0)
      && (queue.None? ==> applies == [])
      && (queue.Some? ==> Remembers(queue.value, applies))
    }

    /** `reconcile_c0_pending`: looks at the files; it never unblocks anything. */
    method ReconcilePending(packet: Packet) returns (res: Result<bool, Error>)
      requires queue.Some?
      ensures queue.value.pending.None? ==> res == Ok(false)
      ensures queue.value.pending.Some? ==>
        var pending := queue.value.pending.value.apply;
        && (res == Ok(true) <==>
          pending.packetDigest == packet.digest && HashesOf(packet.writes, files) == pending.before)
        && (res == Err(PendingBinding) <==> pending.packetDigest != packet.digest)
        && (res == Err(AlreadyApplied) <==>
          && pending.packetDigest == packet.digest && HashesOf(packet.writes, files) != pending.before
          && pending.after == Some(HashesOf(packet.writes, files)))
        && res != Ok(false)
    {
      if queue.value.pending.None? {
        return Ok(false);
      }
      var pending := queue.value.pending.value.apply;
      if pending.packetDigest != packet.digest {
        return Err(PendingBinding);
      }
      var current := HashesOf(packet.writes, files);
      if current == pending.before {
        return Ok(true);
      }
      if pending.after == Some(current) {
        return Err(AlreadyApplied);
      }
      return Err(OutcomeUnknown);
    }

    /** The patch itself: it may fail half way. */
    method Patch(packet: Packet) returns (done: bool)
      modifies `files, `patched
      ensures patched == old(patched) + 1
    {
      patched := patched + 1;
      files := *;
      done := *;
    }

    /** Nothing stands in the way of announcing an apply: no other run's queue, no unresolved apply, no drift since. */
    predicate MayAnnounce(packet: Packet)
      reads this
    {
      queue.None? ||
      (&& queue.value.runId == packet.runId && !Blocked(queue)
       && (queue.value.pending.Some? ==>
             queue.value.pending.value.apply.after == Some(HashesOf(packet.writes, files))))
    }

    /**
     `apply_c0_proposal_recorded` for a process that survives `survives` writes: announce, patch once, record the hashes
     it left. `accepted` is the verdict on packet and proposal.
     */
    method ApplyRecorded(packet: Packet, candidate: Digest, accepted: bool, survives: nat)
      returns (res: Result<(), Error>)
      requires Valid()
      modifies this
      ensures Valid()
      ensures Blocked(old(queue)) ==> res.Err? && queue == old(queue) && files == old(files) && patched == old(patched)
      ensures !(accepted && old(MayAnnounce(packet)) && survives > 0) ==>
        && res.Err? && queue == old(queue) && files == old(files) && patched == old(patched)
        && completed == old(completed) && (accepted && old(MayAnnounce(packet)) ==> res == Err(ProcessDied))
      ensures accepted && old(MayAnnounce(packet)) && survives > 0 ==>
        && queue.Some? && queue.value.runId == packet.runId && queue.value.active == packet.chunkId
        && queue.value.packets == RowsOf(old(queue)) + SupersededBy(old(queue))
        && queue.value.pending == Some(Pending(Apply(packet.digest, candidate, HashesOf(packet.writes, old(files)),
             if res.Ok? then Some(HashesOf(packet.writes, files)) else None), None))
        && completed == old(completed) + (if res.Ok? then 1 else 0)
        && (survives > 1 ==> patched == old(patched) + 1 && (res.Ok? || res == Err(PatchFailed)))
        && (survives == 1 ==> res.Err?)
      ensures res.Ok? ==> patched == old(patched) + 1
      ensures checkpointFile == old(checkpointFile)
      ensures old(queue).Some? ==> queue.Some? && old(queue).value.packets <= queue.value.packets
      ensures old(queue).Some? && queue.Some? ==> queue.value.checkpoint == old(queue).value.checkpoint
    {
      if !accepted {
        return Err(PacketRejected);
      }
      var q := if queue.Some? then queue.value else Queue(packet.runId, [], None, None, packet.chunkId);
      if q.runId != packet.runId {
        return Err(QueueBinding);
      }
      if q.pending.Some? && !q.pending.value.Applied() {
        return Err(ApplyPending);
      }
      var before := HashesOf(packet.writes, files);
      if q.pending.Some? {
        if q.pending.value.apply.after != Some(before) {
          return Err(PriorSourceDrift);
        }
        q := q.(packets := q.packets + [Superseded(q.pending.value)], pending := None);
      }
      var announced := Apply(packet.digest, candidate, before, None);
      q := q.(pending := Some(Pending(announced, None)), active := packet.chunkId);
      if survives == 0 {
        return Err(ProcessDied);
      }
      Announced(if queue.Some? then queue.value
        else Queue(packet.runId, [], None, None, packet.chunkId), applies, announced, q);
      queue, applies := Some(q), applies + [announced];
      var diesFirst: bool := *;
      if survives == 1 && diesFirst {
        return Err(ProcessDied);
      }
      var done := Patch(packet);
      if !done {
        return Err(PatchFailed);
      }
      var applied := announced.(after := Some(HashesOf(packet.writes, files)));
      q := q.(pending := Some(Pending(applied, None)));
      if survives == 1 {
        return Err(ProcessDied);
      }
      Completed(queue.value, applies, applied, q);
      queue, applies, completed := Some(q), applies[|applies| - 1 := applied], completed + 1;
      return Ok(());
    }

    // -------------------------------------------------------------- validation and acceptance

    /**
     `c0_applied_state`: the pending apply is complete, is this packet's, the files are as it left them, and the packet
     still holds on them.
     */
    predicate AppliedFor(packet: Packet)
      reads this
    {
      && queue.Some? && queue.value.runId == packet.runId
      && queue.value.pending.Some? && queue.value.pending.value.Applied()
      && queue.value.pending.value.apply.packetDigest == packet.digest
      && queue.value.pending.value.apply.after == Some(HashesOf(packet.writes, files))
      && packetHolds(packet, files)
    }

    /** `c0_applied_state`. */
    method AppliedState(packet: Packet) returns (res: Result<Pending, Error>)
      ensures res.Ok? <==> AppliedFor(packet)
      ensures res.Ok? ==> queue.Some? && queue.value.pending == Some(res.value)
    {
      if queue.None? || queue.value.runId != packet.runId {
        return Err(QueueBinding);
      }
      if queue.value.pending.None? || queue.value.pending.value.apply.after.None? {
        return Err(ApplyRequired);
      }
      var pending := queue.value.pending.value;
      if pending.apply.packetDigest != packet.digest {
        return Err(PendingBinding);
      }
      var current := map path | path in packet.writes && path in files :: files[path];
      if pending.apply.after.value != current {
        return Err(SourceDrift);
      }
      if !packetHolds(packet, files) {
        return Err(PacketRejected);
      }
      return Ok(pending);
    }

    /**
     `validate_c0_applied`: run the tests, insist that they left the sources alone, keep the result beside the pending
     apply.
     */
    method Validate(packet: Packet, survives: nat) returns (res: Result<Validation, Error>)
      requires Valid()
      modifies `queue, `validationFile, `files
      ensures Valid()
      ensures res.Ok? ==>
        && old(AppliedFor(packet)) && validationFile == Some(res.value)
        && res.value.sources == Sources(packet, old(files)) == Sources(packet, files)
        && res.value.sources.Keys == packet.inputs + packet.writes
             + {"scripts/local_qwopus_loop.py", "tests/test_local_qwopus_loop.py"}
        && res.value.packetDigest == packet.digest
        && res.value.candidate == old(queue).value.pending.value.apply.candidate
        && queue == Some(old(queue).value.(pending :=
          Some(old(queue).value.pending.value.(validation := Some(res.value)))))
      ensures res.Err? ==> queue == old(queue) && (validationFile == old(validationFile) || survives == 1)
      ensures res.Ok? <==>
        && old(AppliedFor(packet)) && old(SourcesExist(packet, files)) && SourcesExist(packet, files)
        && Sources(packet, old(files)) == Sources(packet, files) && survives > 1
    {
      var applied := AppliedState(packet);
      if applied.Err? {
        return Err(applied.error);
      }
      if !SourcesExist(packet, files) {
        return Err(InputMissing);
      }
      var pending := applied.value;
      var before := Sources(packet, files);
      var passed: bool := *;
      files := *;
      if !SourcesExist(packet, files) {
        return Err(InputMissing);
      }
      if Sources(packet, files) != before {
        return Err(ValidationDrift);
      }
      var result := Validation(packet.digest, pending.apply.candidate, before, passed);
      if survives == 0 {
        return Err(ProcessDied);
      }
      validationFile := Some(result);
      if survives == 1 {
        return Err(ProcessDied);
      }
      var next := queue.value.(pending := Some(pending.(validation := Some(result))));
      assert Remembers(next, applies) by {
        forall i | 0 <= i < |next.packets| ensures RowFor(next.packets[i], applies, i) {
          assert RowFor(queue.value.packets[i], applies, i);
        }
      }
      queue := Some(next);
      return Ok(result);
    }

    /** The commit this packet's acceptance left in the queue, if any. */
    function CommitOf(packet: Packet): Option<Commit>
      reads this
    {
      if queue.Some? && queue.value.runId == packet.runId && queue.value.checkpoint.Some?
         && queue.value.checkpoint.value.packetDigest == packet.digest
      then queue.value.checkpoint else None
    }

    /** What acceptance requires of the pending apply and the validation. */
    predicate Acceptable(packet: Packet)
      reads this
    {
      && AppliedFor(packet) && SourcesExist(packet, files) && validationFile.Some?
      && validationFile.value.packetDigest == packet.digest
      && validationFile.value.candidate == queue.value.pending.value.apply.candidate
      && validationFile.value.sources == Sources(packet, files)
      && queue.value.pending.value.validation == validationFile
      && validationFile.value.passed
    }

    /**
     `advance_c0_checkpoint` for a process that survives `survives` writes. The queue is the commit; the checkpoint file
     is rewritten from it whenever the same acceptance is asked for again.
     */
    method Advance(packet: Packet, review: Digest, reviewerAccepts: bool, survives: nat)
      returns (res: Result<Commit, Error>)
      requires Valid()
      modifies `queue, `checkpointFile
      ensures Valid()
      ensures old(CommitOf(packet)).Some? ==>
        var c := old(CommitOf(packet)).value;
        && queue == old(queue)
        && (res == Ok(c) <==>
          SourcesExist(packet, files) && c.review == review && c.sources == Sources(packet, files)
          && reviewerAccepts && survives >= 1)
        && (res.Ok? ==> res.value == c && checkpointFile == Some(c))
        && (res.Err? ==> checkpointFile == old(checkpointFile))
      ensures old(CommitOf(packet)).None? ==>
        var commits := old(Acceptable(packet)) && reviewerAccepts && survives >= 1;
        && (CommitOf(packet).Some? <==> commits)
        && (!commits ==> res.Err? && queue == old(queue) && checkpointFile == old(checkpointFile))
        && (commits ==>
              && CommitOf(packet) == Some(Commit(packet.digest, old(queue).value.pending.value.apply.candidate,
                Sources(packet, files), review, packet.successor))
              && queue.value.pending.None? && queue.value.active == packet.successor
              && queue.value.packets == old(queue).value.packets + [Accepted(packet.packetId,
                old(queue).value.pending.value.apply.candidate, validationFile.value, review)]
              && (res.Ok? <==> survives >= 2)
              && (res.Ok? ==> Some(res.value) == CommitOf(packet) && checkpointFile == Some(res.value))
              && (res.Err? ==> checkpointFile == old(checkpointFile)))
    {
      if queue.None? || queue.value.runId != packet.runId {
        return Err(QueueBinding);
      }
      if !SourcesExist(packet, files) {
        return Err(InputMissing);
      }
      var sources := Sources(packet, files);
      var committed := queue.value.checkpoint;
      if committed.Some? && committed.value.packetDigest == packet.digest {
        if committed.value.review != review || committed.value.sources != sources {
          return Err(CheckpointDrift);
        }
        if !reviewerAccepts {
          return Err(ReviewRejected);
        }
        if survives == 0 {
          return Err(ProcessDied);
        }
        checkpointFile := committed;
        return Ok(committed.value);
      }
      var applied := AppliedState(packet);
      if applied.Err? {
        return Err(applied.error);
      }
      var pending := applied.value;
      if validationFile.None? || validationFile.value.packetDigest != packet.digest
        || validationFile.value.candidate != pending.apply.candidate || validationFile.value.sources != sources
        || Some(validationFile.value) != pending.validation
      {
        return Err(ValidationBinding);
      }
      if !validationFile.value.passed {
        return Err(TestsFailed);
      }
      if !reviewerAccepts {
        return Err(ReviewRejected);
      }
      var candidate := Commit(packet.digest, pending.apply.candidate, sources, review, packet.successor);
      var row := Accepted(packet.packetId, pending.apply.candidate, validationFile.value, review);
      var next := queue.value.(packets := queue.value.packets + [row], pending := None, checkpoint := Some(candidate),
        active := packet.successor);
      if survives == 0 {
        return Err(ProcessDied);
      }
      AcceptedRow(queue.value, applies, row, next);
      queue := Some(next);
      if survives == 1 {
        return Err(ProcessDied);
      }
      checkpointFile := Some(candidate);
      return Ok(candidate);
    }

    /**
     Acceptance asked for twice, the first time cut short between its two writes: one commit, one row, the file
     restored.
     */
    method AdvanceAgain(packet: Packet, review: Digest, survives: nat)
      returns (first: Result<Commit, Error>, second: Result<Commit, Error>)
      requires Valid() && CommitOf(packet).None? && Acceptable(packet) && survives >= 1
      modifies `queue, `checkpointFile
      ensures Valid() && CommitOf(packet).Some?
      ensures second == Ok(CommitOf(packet).value) && checkpointFile == CommitOf(packet)
      ensures |queue.value.packets| == |old(queue).value.packets| + 1
    {
      first := Advance(packet, review, true, survives);
      second := Advance(packet, review, true, 2);
    }
  }

  lemma AcceptedRow(q: Queue, applies: seq<Apply>, row: Row, next: Queue)
    requires Remembers(q, applies) && q.pending.Some? && q.pending.value.Applied()
    requires row.Accepted? && row.candidate == q.pending.value.apply.candidate
    requires next.packets == q.packets + [row] && next.pending.None?
    ensures Remembers(next, applies)
  {
    forall i | 0 <= i < |next.packets| ensures RowFor(next.packets[i], applies, i) {
      if i < |q.packets| {
        assert RowFor(q.packets[i], applies, i);
      }
    }
  }

  /** Consecutive repairs chain: a superseded row left the files its successor was announced on. */
  lemma RepairsChain(q: Queue, applies: seq<Apply>, i: nat)
    requires Remembers(q, applies) && i < |q.packets| && q.packets[i].Superseded?
    ensures i + 1 < |applies| && q.packets[i].pending.apply.after == Some(applies[i + 1].before)
    ensures i + 1 < |q.packets| && q.packets[i + 1].Superseded? ==>
      q.packets[i].pending.apply.after == Some(q.packets[i + 1].pending.apply.before)
    ensures i + 1 == |q.packets| ==>
      q.pending.Some? && q.packets[i].pending.apply.after == Some(q.pending.value.apply.before)
  {
    assert RowFor(q.packets[i], applies, i);
    if i + 1 < |q.packets| {
      assert RowFor(q.packets[i + 1], applies, i + 1);
    }
  }

  /** Announcing the next apply after a superseded one chains their hashes. */
  lemma Announced(q: Queue, applies: seq<Apply>, announced: Apply, next: Queue)
    requires Remembers(q, applies) && !Blocked(Some(q)) && announced.after.None?
    requires q.pending.Some? ==> q.pending.value.apply.after == Some(announced.before)
    requires next.pending == Some(Pending(announced, None))
    requires next.packets == q.packets + if q.pending.Some? then [Superseded(q.pending.value)] else []
    ensures Remembers(next, applies + [announced])
  {
    var all := applies + [announced];
    forall i | 0 <= i < |next.packets| ensures RowFor(next.packets[i], all, i) {
      if i < |q.packets| {
        assert RowFor(q.packets[i], applies, i);
      }
    }
  }

  lemma Completed(q: Queue, applies: seq<Apply>, applied: Apply, next: Queue)
    requires Remembers(q, applies) && Blocked(Some(q)) && applied.after.Some?
    requires applied.before == q.pending.value.apply.before && applied.candidate == q.pending.value.apply.candidate
    requires next.packets == q.packets && next.pending == Some(Pending(applied, None))
    ensures applies != [] && Remembers(next, applies[|applies| - 1 := applied])
  {
    var all := applies[|applies| - 1 := applied];
    forall i | 0 <= i < |next.packets| ensures RowFor(next.packets[i], all, i) {
      assert RowFor(q.packets[i], applies, i);
    }
  }
}
