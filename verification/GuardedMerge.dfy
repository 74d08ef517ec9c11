/**
 Merging a pull request at most once per decision. The intent is on disk before the request is sent, a request whose
 outcome is unknown is never repeated, and only a look at the pull request, or an answer, closes it again.

 The server, the file system and the moment of death are adversarial: every reply and every write outcome is arbitrary.
 */
module GuardedMerge {
  import opened Common
  import opened MergeGates

  datatype Status = EffectStarted | Unknown | ReconciledUnmerged | Bound

  /**
   The state file. It names its request by a digest, taken to be injective, so the request itself stands here; a
   readable state that fails the shape checks counts as one of another request.
   */
  datatype Durable = NoFile | Unreadable | Stored(request: Request, status: Status, mergeSha: Option<string>)

  datatype Failure = Coded(code: Code) | Other

  /** An exception, a value, or the death of the process. */
  datatype Reply<T> = Got(value: T) | Raised(failure: Failure) | Died

  datatype Receipt =
    | BoundReceipt(outcome: string, mutated: bool, mergeSha: Option<string>)
    | ReadyReceipt
    | FailureReceipt(unknown: bool, code: Code, attempted: bool)

  // ---------------------------------------------------------------- what happens

  /** What others can see of a run, in order. */
  datatype Act =
    | Saw(pull: Pull)
    | Gated(request: Request, seen: Observations)
    | Wrote(state: Durable)
    | Put(request: Request)
    | Told(merged: bool, sha: Option<string>)

  /** The state file after these acts. */
  function After(t: seq<Act>): Durable {
    if t == [] then NoFile
    else if t[|t| - 1].Wrote? then t[|t| - 1].state
    else After(t[..|t| - 1])
  }

  predicate Closes(a: Act) {
    a.Wrote? && a.state.Stored? && a.state.status == ReconciledUnmerged
  }

  /** A merge was requested and nothing since says that it did not happen. */
  predicate Open(t: seq<Act>) {
    t != [] &&
    var a := t[|t| - 1];
    a.Put? || (!Closes(a) && Open(t[..|t| - 1]))
  }

  /** The last thing learned is that the pull request is not merged. */
  predicate LearnedUnmerged(t: seq<Act>, r: Request) {
    t != [] &&
    var a := t[|t| - 1];
    (a.Saw? && ExactPull(r, a.pull).Ok? && !a.pull.merged) || (a.Told? && !a.merged)
  }

  /** The last thing learned is that exactly the expected head is merged. */
  predicate LearnedMerged(t: seq<Act>, r: Request, sha: Option<string>) {
    t != [] && sha.Some? &&
    var a := t[|t| - 1];
    (a.Saw? && ExactPull(r, a.pull).Ok? && a.pull.merged && a.pull.mergeSha == sha)
    || (a.Told? && a.merged && a.sha == sha && |t| > 1 && t[|t| - 2] == Put(r))
  }

  /** The state file is absent, or a readable state of this request. */
  predicate FreeFor(state: Durable, r: Request) {
    state.NoFile? || (state.Stored? && state.request == r)
  }

  /**
   Whether an act may follow. The state file is never removed, never written over a state of another request, and only
   its creation may leave it unreadable.
   */
  predicate Allowed(t: seq<Act>, a: Act) {
    match a
    case Put(r) => !Open(t) && After(t) == Stored(r, EffectStarted, None)
    case Wrote(NoFile) => false
    case Wrote(Unreadable) => After(t).NoFile?
    case Wrote(Stored(r, status, sha)) =>
      && FreeFor(After(t), r)
      && (status == ReconciledUnmerged ==> After(t).Stored? && LearnedUnmerged(t, r))
      && (status == Bound ==> LearnedMerged(t, r, sha))
    case _ => true
  }

  /** A whole history in which every act was allowed, and an open request shows in the state file. */
  predicate Safe(t: seq<Act>) {
    t == [] ||
    var n := |t| - 1;
    && Safe(t[..n]) && Allowed(t[..n], t[n])
    && (Open(t) ==> After(t).Stored? && After(t).status != ReconciledUnmerged)
  }

  lemma Snoc(t: seq<Act>, a: Act)
    ensures (t + [a])[..|t|] == t
    ensures After(t + [a]) == if a.Wrote? then a.state else After(t)
    ensures Open(t + [a]) <==> a.Put? || (!Closes(a) && Open(t))
    ensures Safe(t + [a]) <==>
      && Safe(t) && Allowed(t, a)
      && (Open(t + [a]) ==> After(t + [a]).Stored? && After(t + [a]).status != ReconciledUnmerged)
  {
    assert (t + [a])[..|t|] == t;
  }

  lemma Harmless(t: seq<Act>, a: Act)
    requires Safe(t) && !a.Wrote? && !a.Put?
    ensures Safe(t + [a]) && After(t + [a]) == After(t) && (Open(t + [a]) <==> Open(t))
  {
    Snoc(t, a);
  }

  lemma Overwritten(t: seq<Act>, state: Durable)
    requires Safe(t) && Allowed(t, Wrote(state))
    ensures Safe(t + [Wrote(state)]) && After(t + [Wrote(state)]) == state
  {
    hide LearnedMerged, LearnedUnmerged;
    Snoc(t, Wrote(state));
  }

  lemma {:induction false} SafePrefix(t: seq<Act>, n: nat)
    requires Safe(t) && n <= |t|
    ensures Safe(t[..n])
  {
    if n < |t| {
      SafePrefix(t[..|t| - 1], n);
      assert t[..|t| - 1][..n] == t[..n];
    } else {
      assert t[..n] == t;
    }
  }

  /** Every merge request follows its durable intent. */
  lemma PutFollowsIntent(t: seq<Act>, i: nat)
    requires Safe(t) && i < |t| && t[i].Put?
    ensures !Open(t[..i]) && After(t[..i]) == Stored(t[i].request, EffectStarted, None)
  {
    SafePrefix(t, i + 1);
    assert t[..i + 1][..i] == t[..i];
  }

  /** A state is bound only right after exactly its request was seen merged, or its merge request was answered so. */
  lemma BoundAfterMerge(t: seq<Act>, i: nat)
    requires Safe(t) && i < |t| && t[i].Wrote? && t[i].state.Stored? && t[i].state.status == Bound
    ensures i > 0 && t[i].state.mergeSha.Some?
    ensures var s, before := t[i].state, t[i - 1];
      || (before.Saw? && before.pull.number == s.request.number && before.pull.headSha == s.request.headSha
          && before.pull.baseSha == s.request.baseSha && before.pull.merged && before.pull.mergeSha == s.mergeSha)
      || (before == Told(true, s.mergeSha) && i > 1 && t[i - 2] == Put(s.request))
  {
    SafePrefix(t, i + 1);
    assert t[..i + 1][..i] == t[..i];
  }

  /** Once a readable state is on disk, the state file belongs to its request. */
  lemma {:induction false} OneOwner(t: seq<Act>, i: nat, j: nat)
    requires Safe(t) && i <= j <= |t| && After(t[..i]).Stored?
    ensures After(t[..j]).Stored? && After(t[..j]).request == After(t[..i]).request
    decreases j
  {
    if i < j {
      OneOwner(t, i, j - 1);
      SafePrefix(t, j);
      assert t[..j][..j - 1] == t[..j - 1];
    }
  }

  /**
   Never a blind retry: two merge requests are for the same request, and between them the state file of that request was
   set to `reconciled_unmerged`, right after its pull request was seen unmerged or the answer said so.
   */
  lemma NoBlindRetry(t: seq<Act>, i: nat, j: nat) returns (k: nat)
    requires Safe(t) && i < j < |t| && t[i].Put? && t[j].Put?
    ensures i < k < j && Closes(t[k]) && t[i].request == t[j].request == t[k].state.request
    ensures LearnedUnmerged(t[..k], t[i].request)
  {
    PutFollowsIntent(t, i);
    PutFollowsIntent(t, j);
    k := ClosedBetween(t, i, j);
    SafePrefix(t, k + 1);
    assert t[..k + 1][..k] == t[..k];
    OneOwner(t, i, j);
    OneOwner(t, i, k + 1);
  }

  lemma {:induction false} ClosedBetween(t: seq<Act>, i: nat, j: nat) returns (k: nat)
    requires i < j <= |t| && t[i].Put? && !Open(t[..j])
    ensures i < k < j && Closes(t[k])
    decreases j
  {
    assert t[..j][..j - 1] == t[..j - 1];
    if Closes(t[j - 1]) {
      k := j - 1;
    } else {
      k := ClosedBetween(t, i, j - 1);
    }
  }

  // ---------------------------------------------------------------- one run

  predicate Pending(state: Durable) {
    state.Unreadable? || (state.Stored? && (state.status == EffectStarted || state.status == Unknown))
  }

  /** In the run that starts at `base`, all gates held and then the intent was written. */
  ghost predicate IntentLogged(r: Request, t: seq<Act>, base: nat) {
    exists g, w | base <= g < w < |t| ::
      t[g].Gated? && t[g].request == r && GatesHold(r, t[g].seen) && t[w] == Wrote(Stored(r, EffectStarted, None))
  }

  lemma IntentStays(r: Request, before: seq<Act>, after: seq<Act>, base: nat)
    requires IntentLogged(r, before, base) && before <= after
    ensures IntentLogged(r, after, base)
  {
    hide GatesHold;
    var g, w :| base <= g < w < |before| && before[g].Gated? && before[g].request == r && GatesHold(r, before[g].seen)
      && before[w] == Wrote(Stored(r, EffectStarted, None));
    assert after[g] == before[g] && after[w] == before[w];
  }

  /** The first merge request of the run, right after `before`, and none since. */
  lemma OnlyPut(r: Request, before: seq<Act>, after: seq<Act>, base: nat)
    requires IntentLogged(r, before, base) && !HasPut(before, base) && before + [Put(r)] <= after
    requires forall i | |before| < i < |after| :: !after[i].Put?
    ensures PutsGated(r, after, base) && HasPut(after, base)
  {
    hide IntentLogged;
    var n := |before|;
    IntentWithin(r, before, base);
    assert after[n] == (before + [Put(r)])[n];
    assert after[..n] == before;
    forall i | base <= i < n ensures !after[i].Put? {
      assert after[i] == before[i];
    }
  }

  lemma IntentWithin(r: Request, t: seq<Act>, base: nat)
    requires IntentLogged(r, t, base)
    ensures base < |t|
  {
    hide GatesHold;
  }

  /**
   In the run that starts at `base`, the only merge request comes after all gates held and after the intent they led to.
   */
  ghost predicate PutsGated(r: Request, t: seq<Act>, base: nat) {
    forall i | base <= i < |t| && t[i].Put? ::
      && t[i] == Put(r)
      && (forall j | base <= j < |t| && t[j].Put? :: j == i)
      && IntentLogged(r, t[..i], base)
  }

  predicate HasPut(t: seq<Act>, base: nat) {
    exists i | base <= i < |t| :: t[i].Put?
  }

  predicate ToldUnmerged(t: seq<Act>, base: nat) {
    exists i | base <= i < |t| :: t[i].Told? && !t[i].merged
  }

  /** The run that starts at `base` learned that exactly the expected head is merged. */
  ghost predicate ConfirmedMerged(r: Request, t: seq<Act>, base: nat, sha: Option<string>) {
    exists i | base <= i < |t| ::
      || (t[i].Saw? && ExactPull(r, t[i].pull).Ok? && t[i].pull.merged && t[i].pull.mergeSha == sha)
      || (t[i].Told? && t[i].merged && t[i].sha == sha && i > base && t[i - 1] == Put(r))
  }

  ghost predicate ConfirmedUnmerged(r: Request, t: seq<Act>, base: nat) {
    exists i | base <= i < |t| :: t[i].Saw? && ExactPull(r, t[i].pull).Ok? && !t[i].pull.merged
  }

  /** A receipt tells the truth about its run. */
  ghost predicate Truthful(r: Request, t: seq<Act>, base: nat, receipt: Receipt) {
    match receipt
    case BoundReceipt(_, mutated, sha) => sha.Some? && ConfirmedMerged(r, t, base, sha)
      && (mutated <==> HasPut(t, base))
    case ReadyReceipt => ConfirmedUnmerged(r, t, base) && !HasPut(t, base)
    case FailureReceipt(unknown, _, attempted) =>
      (attempted <==> HasPut(t, base)) && (!unknown ==> !HasPut(t, base) || ToldUnmerged(t, base))
  }

  /** What a run of the gates got to read before it stopped, and whether a reading failed. */
  datatype Readings = Readings(
    pull: Option<Pull>, requirements: Option<Requirements>, checks: Option<Listing<CheckRow>>,
    reviews: Option<Listing<Review>>, diff: Option<Diff>, failed: bool)

  /** Something read does not satisfy its gate, the reviews are ambiguous, or a reading failed. */
  ghost predicate Faulty(r: Request, read: Readings) {
    || read.failed
    || (read.pull.Some? &&
          !(&& ExactPull(r, read.pull.value).Ok? && !read.pull.value.merged && read.pull.value.open
            && Clean(read.pull.value)))
    || (read.requirements.Some? && !Supported(read.requirements.value))
    || (read.checks.Some? && !(TakenAt(r, read.checks.value) && !read.checks.value.possiblyMore))
    || (read.reviews.Some? && !(TakenAt(r, read.reviews.value) && !read.reviews.value.possiblyMore))
    || (read.requirements.Some? && read.checks.Some?
        && !ChecksPass(read.checks.value.items, read.requirements.value.requiredChecks))
    || (read.requirements.Some? && read.reviews.Some?
        && (|| !ReviewsPass(r, read.reviews.value.items, read.requirements.value.requiredApprovals)
            || exists j: nat :: Clash(read.reviews.value.items, j)))
    || (read.diff.Some? && !InScope(r, read.diff.value))
  }

  /** The state file a receipt leaves behind. */
  predicate Leaves(r: Request, before: Durable, receipt: Receipt, after: Durable) {
    match receipt
    case BoundReceipt(_, _, sha) =>
      || after == Stored(r, Bound, sha)
      || (after == before && before.Stored? && before.request == r && before.status == Bound)
    case ReadyReceipt => after == Stored(r, ReconciledUnmerged, None)
    case FailureReceipt(unknown, _, attempted) =>
      attempted && !unknown ==> after == Stored(r, ReconciledUnmerged, None)
  }

  class Merge {
    var durable: Durable
    ghost var trace: seq<Act>
    /** The states the program tried to write, whether or not it happened. */
    ghost var tried: seq<Durable>

    constructor ()
      ensures durable == NoFile && trace == [] && tried == []
    {
      durable, trace, tried := NoFile, [], [];
    }

    ghost predicate Valid()
      reads this
    {
      Safe(trace) && durable == After(trace)
    }

    // -------------------------------------------------------------- the world

    method AcquireLock() returns (reply: Reply<()>) {
      reply := *;
    }

    method LoadRequest() returns (reply: Reply<Request>) {
      reply := *;
    }

    method Check() returns (reply: Reply<()>) {
      reply := *;
    }

    method ReadPull() returns (reply: Reply<Pull>)
      requires Valid()
      modifies `trace
      ensures Valid() && trace == old(trace) + if reply.Got? then [Saw(reply.value)] else []
    {
      reply := *;
      if reply.Got? {
        Snoc(trace, Saw(reply.value));
        trace := trace + [Saw(reply.value)];
      }
    }

    /** Sends the merge request; the answer may be lost. */
    method SendPut(r: Request) returns (reply: Reply<(bool, Option<string>)>)
      requires Valid() && Allowed(trace, Put(r))
      modifies `trace
      ensures Valid()
      ensures trace == old(trace) + [Put(r)] + if reply.Got? then [Told(reply.value.0, reply.value.1)] else []
    {
      Snoc(trace, Put(r));
      trace := trace + [Put(r)];
      reply := *;
      if reply.Got? {
        Snoc(trace, Told(reply.value.0, reply.value.1));
        trace := trace + [Told(reply.value.0, reply.value.1)];
      }
    }

    /**
     One write of the state file. It may happen and still raise, or not happen; the first one creates the file, and
     only if there is none, and may leave it unreadable.
     */
    method WriteState(state: Durable, initial: bool) returns (reply: Reply<()>)
      requires Valid() && state.Stored?
      requires Allowed(trace, Wrote(state))
      modifies `durable, `trace, `tried
      ensures Valid() && tried == old(tried) + [state]
      ensures trace == old(trace) || trace == old(trace) + [Wrote(state)]
        || (initial && trace == old(trace) + [Wrote(Unreadable)])
      ensures reply.Got? ==> trace == old(trace) + [Wrote(state)]
      ensures trace == old(trace) ==> durable == old(durable)
      ensures trace == old(trace) + [Wrote(state)] ==> durable == state
    {
      hide Safe, After, Open, LearnedMerged, LearnedUnmerged;
      tried := tried + [state];
      var happens, cut: bool := *, *;
      reply := *;
      if initial != durable.NoFile? {
        return Raised(Coded(if initial then "effect_state_raced" else "effect_state_path_invalid"));
      }
      var next := if initial && cut && !reply.Got? then Unreadable else state;
      if happens || reply.Got? {
        Overwritten(trace, next);
        durable, trace := next, trace + [Wrote(next)];
        assert trace[|old(trace)|] == Wrote(next);
      }
    }

    // -------------------------------------------------------------- gates

    method ReadRequirements() returns (reply: Reply<Requirements>) {
      reply := *;
    }

    method ReadChecks() returns (reply: Reply<Listing<CheckRow>>) {
      reply := *;
    }

    method ReadReviews() returns (reply: Reply<Listing<Review>>) {
      reply := *;
    }

    method ReadDiff() returns (reply: Reply<Diff>) {
      reply := *;
    }

    /** `_fresh_gates`. */
    method FreshGates(r: Request) returns (reply: Reply<()>, ghost read: Readings)
      requires Valid()
      modifies `trace
      ensures Valid() && old(trace) <= trace
      ensures forall i | |old(trace)| <= i < |trace| :: trace[i].Saw? || trace[i].Gated?
      ensures reply.Got? ==> |trace| > |old(trace)|
      ensures reply.Got? ==> var last := trace[|trace| - 1]; last.Gated? && last.request == r && GatesHold(r, last.seen)
      ensures reply.Raised? ==> Faulty(r, read)
    {
      hide Safe, After, Open, ChecksPass, ReviewsPass;
      read := Readings(None, None, None, None, None, false);
      var pull := ReadPull();
      if !pull.Got? {
        return Pass(pull), read.(failed := true);
      }
      read := read.(pull := Some(pull.value));
      var gate := PullGate(r, pull.value);
      if gate.Err? {
        return Raised(Coded(gate.error)), read;
      }
      var requirements := ReadRequirements();
      if !requirements.Got? {
        return Pass(requirements), read.(failed := true);
      }
      read := read.(requirements := Some(requirements.value));
      if !Supported(requirements.value) {
        return Raised(Coded("merge_policy_unsupported")), read;
      }
      var checks := ReadChecks();
      if !checks.Got? {
        return Pass(checks), read.(failed := true);
      }
      read := read.(checks := Some(checks.value));
      if !TakenAt(r, checks.value) {
        return Raised(Coded("check_binding_mismatch")), read;
      }
      if checks.value.possiblyMore {
        return Raised(Coded("check_observation_incomplete")), read;
      }
      gate := CheckGate(checks.value.items, requirements.value.requiredChecks);
      if gate.Err? {
        return Raised(Coded(gate.error)), read;
      }
      var reviews := ReadReviews();
      if !reviews.Got? {
        return Pass(reviews), read.(failed := true);
      }
      read := read.(reviews := Some(reviews.value));
      if !TakenAt(r, reviews.value) {
        return Raised(Coded("review_binding_mismatch")), read;
      }
      if reviews.value.possiblyMore {
        return Raised(Coded("review_observation_incomplete")), read;
      }
      gate := ReviewGate(r, reviews.value.items, requirements.value.requiredApprovals);
      if gate.Err? {
        return Raised(Coded(gate.error)), read;
      }
      var diff := ReadDiff();
      if !diff.Got? {
        return Pass(diff), read.(failed := true);
      }
      read := read.(diff := Some(diff.value));
      if !InScope(r, diff.value) {
        return Raised(Coded("scope_mismatch")), read;
      }
      ghost var act := Gated(r, Observations(pull.value, requirements.value, checks.value, reviews.value, diff.value));
      Harmless(trace, act);
      trace := trace + [act];
      assert trace == old(trace) + ([Saw(pull.value)] + [act]);
      return Got(()), read;
    }

    // -------------------------------------------------------------- the effect

    /** The run has passed its gates and sent nothing yet. */
    ghost predicate GatesPassed(r: Request, base: nat)
      reads this
    {
      && Valid() && !Open(trace) && !HasPut(trace, base) && FreeFor(durable, r)
      && exists g | base <= g < |trace| :: trace[g].Gated? && trace[g].request == r && GatesHold(r, trace[g].seen)
    }

    /** The intent is on disk, after the gates and before any merge request. */
    ghost predicate IntentOnDisk(r: Request, base: nat)
      reads this
    {
      && Valid() && !Open(trace) && !HasPut(trace, base) && durable == Stored(r, EffectStarted, None)
      && IntentLogged(r, trace, base)
    }

    method WriteIntent(r: Request, initial: bool, ghost base: nat) returns (reply: Reply<()>)
      requires GatesPassed(r, base)
      modifies this
      ensures Valid() && !HasPut(trace, base)
      ensures reply.Got? ==> IntentOnDisk(r, base)
    {
      hide Safe, After, Open, GatesHold;
      ghost var g :| base <= g < |trace| && trace[g].Gated? && trace[g].request == r && GatesHold(r, trace[g].seen);
      ghost var before := trace;
      reply := WriteState(Stored(r, EffectStarted, None), initial);
      Snoc(before, Wrote(Stored(r, EffectStarted, None)));
      if reply.Got? {
        assert trace[g] == before[g] && trace[|before|] == Wrote(Stored(r, EffectStarted, None));
      }
    }

    /** The last look before the merge request: merged already, closed, not ready, or go on. */
    method LastLook(r: Request, ghost base: nat) returns (reply: Reply<Option<Receipt>>, prepared: bool)
      requires IntentOnDisk(r, base)
      modifies this
      ensures Valid() && !HasPut(trace, base)
      ensures reply.Got? && reply.value.None? ==> prepared && IntentOnDisk(r, base)
      ensures reply.Got? && reply.value.Some? ==>
        && !reply.value.value.FailureReceipt? && Truthful(r, trace, base, reply.value.value)
        && Leaves(r, NoFile, reply.value.value, durable)
      ensures reply.Raised? && !prepared ==> durable == Stored(r, ReconciledUnmerged, None)
    {
      hide Safe, After, Open, GatesHold, IntentLogged;
      IntentWithin(r, trace, base);
      ghost var n := |trace|;
      ghost var before := trace;
      prepared := true;
      var seen := ReadPull();
      if !seen.Got? {
        return Pass(seen), prepared;
      }
      var pull := seen.value;
      Snoc(before, Saw(pull));
      var exact := ExactPull(r, pull);
      if exact.Err? {
        return Raised(Coded(exact.error)), prepared;
      }
      assert trace[n] == Saw(pull);
      if !pull.merged && pull.open && Clean(pull) {
        IntentStays(r, before, trace, base);
        return Got(None), prepared;
      }
      if pull.merged && pull.mergeSha.None? {
        return Raised(Coded("merged_pull_request_invalid")), prepared;
      }
      var state := if pull.merged then Stored(r, Bound, pull.mergeSha) else Stored(r, ReconciledUnmerged, None);
      var wrote := WriteState(state, false);
      if !wrote.Got? {
        return Pass(wrote), prepared;
      }
      assert trace[n] == Saw(pull);
      if pull.merged {
        return Got(Some(BoundReceipt("reconciled_merged", false, pull.mergeSha))), false;
      }
      if !pull.open {
        return Got(Some(ReadyReceipt)), false;
      }
      return Raised(Coded("pre_effect_pull_request_unready")), false;
    }

    /** The merge request and what its answer leads to. */
    method RequestMerge(r: Request, ghost base: nat) returns (reply: Reply<Receipt>, prepared: bool)
      requires IntentOnDisk(r, base)
      modifies this
      ensures Valid() && PutsGated(r, trace, base) && HasPut(trace, base)
      ensures reply.Got? ==>
        !reply.value.FailureReceipt? && Truthful(r, trace, base, reply.value) && Leaves(r, NoFile, reply.value, durable)
      ensures reply.Raised? && !prepared ==> ToldUnmerged(trace, base) && durable == Stored(r, ReconciledUnmerged, None)
      ensures old(trace) <= trace
      ensures reply.Raised? && trace[|old(trace)|..] == [Put(r)] ==>
        tried == old(tried) + [Stored(r, Unknown, None)]
      ensures reply.Raised? && |trace| > |old(trace)| + 1 && trace[|old(trace)| + 1].Wrote? ==>
        trace[|old(trace)|..] == [Put(r), Wrote(Stored(r, Unknown, None))] && durable == Stored(r, Unknown, None)
    {
      hide Safe, After, Open, ExactPull, IntentLogged, PutsGated, HasPut;
      IntentWithin(r, trace, base);
      ghost var n := |trace|;
      ghost var before := trace;
      prepared := true;
      var answer := SendPut(r);
      OnlyPut(r, before, trace, base);
      var state := Stored(r, Unknown, None);
      if answer.Died? {
        return Died, prepared;
      }
      if answer.Raised? {
        var wrote := WriteState(state, false);
        OnlyPut(r, before, trace, base);
        if wrote.Died? {
          return Died, prepared;
        }
        assert trace == before + [Put(r)] || trace == (before + [Put(r)]) + [Wrote(state)];
        assert |trace| > n + 1 ==> trace[n..] == [Put(r), Wrote(state)];
        return Raised(Coded("merge_outcome_unknown")), prepared;
      }
      var (merged, sha) := answer.value;
      assert trace[n + 1] == Told(merged, sha) && |trace| == n + 2;
      if merged && sha.None? {
        return Raised(Coded("merge_outcome_unknown")), prepared;
      }
      state := if merged then Stored(r, Bound, sha) else Stored(r, ReconciledUnmerged, None);
      var wrote := WriteState(state, false);
      assert trace[n] == Put(r) && trace[n + 1] == Told(merged, sha);
      OnlyPut(r, before, trace, base);
      if !wrote.Got? {
        return Pass(wrote), prepared;
      }
      if !merged {
        return Raised(Coded("merge_rejected")), false;
      }
      return Got(BoundReceipt("merged", true, sha)), false;
    }

    /** Intent, last look, merge request. */
    method Effect(r: Request, initial: bool, ghost base: nat) returns (reply: Reply<Receipt>, prepared: bool, put: bool)
      requires GatesPassed(r, base)
      modifies this
      ensures Valid() && PutsGated(r, trace, base) && (put <==> HasPut(trace, base))
      ensures reply.Got? ==>
        !reply.value.FailureReceipt? && Truthful(r, trace, base, reply.value) && Leaves(r, NoFile, reply.value, durable)
      ensures reply.Raised? && put && !prepared ==>
        ToldUnmerged(trace, base) && durable == Stored(r, ReconciledUnmerged, None)
    {
      hide Safe, After, Open, GatesHold, Truthful, IntentOnDisk, GatesPassed, ToldUnmerged, Leaves;
      prepared, put := false, false;
      var wrote := WriteIntent(r, initial, base);
      if !wrote.Got? {
        return Pass(wrote), prepared, put;
      }
      var look;
      look, prepared := LastLook(r, base);
      if !look.Got? {
        return Pass(look), prepared, put;
      }
      if look.value.Some? {
        return Got(look.value.value), prepared, put;
      }
      put := true;
      reply, prepared := RequestMerge(r, base);
    }

    // -------------------------------------------------------------- the whole run

    /** `_load_state`. */
    function LoadState(r: Request): Reply<Option<Durable>>
      reads this
    {
      if durable.NoFile? then Got(None)
      else if durable.Unreadable? || durable.request != r then Raised(Coded("state_invalid"))
      else Got(Some(durable))
    }

    /** After a state that may hide a merge: look, then record what was seen. Nothing is requested. */
    method Reconcile(r: Request, ghost base: nat) returns (reply: Reply<Receipt>)
      requires Valid() && !HasPut(trace, base) && base <= |trace|
      requires durable.Stored? && durable.request == r
      modifies this
      ensures Valid() && !HasPut(trace, base)
      ensures reply.Got? ==>
        !reply.value.FailureReceipt? && Truthful(r, trace, base, reply.value) && Leaves(r, NoFile, reply.value, durable)
    {
      hide Safe, After, Open;
      ghost var n := |trace|;
      var seen := ReadPull();
      if !seen.Got? {
        return Pass(seen);
      }
      var pull := seen.value;
      assert trace[n] == Saw(pull);
      var exact := ExactPull(r, pull);
      if exact.Err? {
        return Raised(Coded(exact.error));
      }
      if pull.merged && pull.mergeSha.None? {
        return Raised(Coded("merged_pull_request_invalid"));
      }
      var state := if pull.merged then Stored(r, Bound, pull.mergeSha) else Stored(r, ReconciledUnmerged, None);
      var wrote := WriteState(state, false);
      if !wrote.Got? {
        return Pass(wrote);
      }
      assert trace[n] == Saw(pull);
      return Got(if pull.merged then BoundReceipt("reconciled_merged", false, pull.mergeSha) else ReadyReceipt);
    }

    /** A bound state: the pull request must still be seen merged. */
    method Confirm(r: Request, ghost base: nat) returns (reply: Reply<Receipt>)
      requires Valid() && !HasPut(trace, base) && base <= |trace|
      modifies `trace
      ensures Valid() && !HasPut(trace, base)
      ensures reply.Got? ==> reply.value.BoundReceipt? && Truthful(r, trace, base, reply.value)
    {
      hide Safe, After, Open;
      ghost var n := |trace|;
      var seen := ReadPull();
      if !seen.Got? {
        return Pass(seen);
      }
      var pull := seen.value;
      assert trace[n] == Saw(pull);
      var exact := ExactPull(r, pull);
      if exact.Err? {
        return Raised(Coded(exact.error));
      }
      if !pull.merged {
        return Raised(Coded("bound_merge_missing"));
      }
      if pull.mergeSha.None? {
        return Raised(Coded("merged_pull_request_invalid"));
      }
      return Got(BoundReceipt("reconciled_merged", false, pull.mergeSha));
    }

    /** The body of `execute` once the request is loaded; `pending` as hinted by the state file. */
    method Attempt(r: Request, hint: bool, ghost base: nat)
      returns (reply: Reply<Receipt>, pending: bool, prepared: bool, put: bool)
      requires Valid() && base == |trace| && hint == Pending(durable)
      modifies this
      ensures Valid() && PutsGated(r, trace, base) && (put <==> HasPut(trace, base))
      ensures pending == Pending(old(durable)) && (pending ==> !put)
      ensures reply.Got? ==>
        && !reply.value.FailureReceipt? && Truthful(r, trace, base, reply.value)
        && Leaves(r, old(durable), reply.value, durable)
      ensures reply.Raised? && put && !prepared ==>
        ToldUnmerged(trace, base) && durable == Stored(r, ReconciledUnmerged, None)
    {
      hide Safe, After, Open, GatesHold, Truthful, ToldUnmerged;
      pending, prepared, put := hint, false, false;
      var prior := LoadState(r);
      if !prior.Got? {
        return Pass(prior), pending, prepared, put;
      }
      pending := pending || (prior.value.Some? && Pending(prior.value.value));
      var step;
      if !pending {
        step := Check();
        if !step.Got? {
          return Pass(step), pending, prepared, put;
        }
      }
      step := Check();
      if !step.Got? {
        return Pass(step), pending, prepared, put;
      }
      if pending {
        reply := Reconcile(r, base);
      } else if prior.value.Some? && prior.value.value.status == Bound {
        reply := Confirm(r, base);
      } else {
        NotOpen(trace, durable);
        ghost var read;
        step, read := FreshGates(r);
        if !step.Got? {
          return Pass(step), pending, prepared, put;
        }
        QuietStays(old(trace), trace);
        QuietAfter(old(trace), trace);
        assert !HasPut(trace, base);
        reply, prepared, put := Effect(r, prior.value.None?, base);
      }
    }

    /** `execute`: the lock, the body, and the failure receipt; no receipt when the process died. */
    method Execute(expected: Target, user: string) returns (receipt: Option<Receipt>, ghost sent: Option<Request>)
      requires Valid()
      modifies this
      ensures Valid()
      ensures receipt.Some? && sent.Some? ==>
        && Truthful(sent.value, trace, |old(trace)|, receipt.value)
        && Leaves(sent.value, old(durable), receipt.value, durable)
      ensures sent.Some? ==>
        && PutsGated(sent.value, trace, |old(trace)|)
        && sent.value.target == expected && sent.value.expectedUser == user
      ensures sent.None? ==>
        trace == old(trace) && (receipt.Some? ==> receipt.value.FailureReceipt? && !receipt.value.attempted)
      ensures Pending(old(durable)) ==>
        && !HasPut(trace, |old(trace)|)
        && (receipt.Some? && receipt.value.FailureReceipt? && sent.Some? ==> receipt.value.unknown)
    {
      hide Safe, After, Open, GatesHold;
      sent := None;
      var locked := AcquireLock();
      if locked.Died? {
        return None, None;
      }
      if locked.Raised? {
        return Some(FailureOf(locked.failure, false, false, false)), None;
      }
      var hint := Pending(durable);
      var loaded := LoadRequest();
      if loaded.Died? {
        return None, None;
      }
      if loaded.Raised? {
        return Some(FailureOf(loaded.failure, hint, false, false)), None;
      }
      var r := loaded.value;
      if r.target != expected || r.expectedUser != user {
        return Some(FailureOf(Coded("authority_target_mismatch"), hint, false, false)), None;
      }
      sent := Some(r);
      var reply, pending, prepared, put := Attempt(r, hint, |trace|);
      match reply {
        case Got(value) => receipt := Some(value);
        case Died => receipt := None;
        case Raised(failure) =>
          receipt := Some(FailureOf(failure, pending, prepared, put));
      }
    }
  }

  /** How an exception is reported. */
  function FailureOf(failure: Failure, pending: bool, prepared: bool, put: bool): Receipt {
    match failure
    case Other =>
      FailureReceipt(pending || prepared || put,
        if pending || (prepared && !put) then "merge_reconciliation_required"
        else if put then "merge_outcome_unknown" else "guarded_merge_internal_error", put)
    case Coded(code) =>
      var unknown := code == "merge_effect_in_progress" || code == "merge_outcome_unknown" || pending || prepared
        || (put && code != "merge_rejected");
      FailureReceipt(unknown,
        if code == "merge_effect_in_progress" then code
        else if (pending || (prepared && !put)) && code != "merge_outcome_unknown" then "merge_reconciliation_required"
        else if unknown then "merge_outcome_unknown" else code, put)
  }

  /** Whoever cannot tell says so by its code, and after a request the code never sends anyone to reconcile first. */
  lemma UnknownIsNamed(failure: Failure, pending: bool, prepared: bool, put: bool)
    requires pending ==> !put
    ensures var receipt := FailureOf(failure, pending, prepared, put);
      && receipt.attempted == put
      && (receipt.unknown <==>
            || pending || prepared || (put && failure != Coded("merge_rejected"))
            || failure == Coded("merge_effect_in_progress") || failure == Coded("merge_outcome_unknown"))
      && (receipt.code == "merge_effect_in_progress" <==> failure == Coded("merge_effect_in_progress"))
      && (failure == Coded("merge_outcome_unknown") ==> receipt.code == "merge_outcome_unknown")
      && ((pending || (prepared && !put)) && failure.Coded?
          && failure.code !in {"merge_effect_in_progress", "merge_outcome_unknown"} ==>
            receipt.code == "merge_reconciliation_required")
      && (!receipt.unknown && failure.Coded? ==> receipt.code == failure.code)
      && (!receipt.unknown && failure.Other? ==> receipt.code == "guarded_merge_internal_error")
      && (receipt.unknown ==>
            receipt.code in {"merge_effect_in_progress", "merge_outcome_unknown", "merge_reconciliation_required"})
      && (receipt.unknown && put ==> receipt.code in {"merge_effect_in_progress", "merge_outcome_unknown"})
      && (pending && failure == Other ==> receipt.code == "merge_reconciliation_required")
      && (put && !receipt.unknown ==> receipt.code == "merge_rejected")
  {}

  lemma NotOpen(t: seq<Act>, durable: Durable)
    requires Safe(t) && durable == After(t) && (durable.Stored? ==> durable.status == ReconciledUnmerged)
    ensures !Open(t)
  {}

  lemma {:induction false} QuietAfter(before: seq<Act>, after: seq<Act>)
    requires before <= after && forall i | |before| <= i < |after| :: after[i].Saw? || after[i].Gated?
    ensures After(after) == After(before)
    decreases |after|
  {
    if |after| == |before| {
      assert after == before;
    } else {
      assert before <= after[..|after| - 1];
      QuietAfter(before, after[..|after| - 1]);
    }
  }

  lemma {:induction false} QuietStays(before: seq<Act>, after: seq<Act>)
    requires before <= after && forall i | |before| <= i < |after| :: after[i].Saw? || after[i].Gated?
    ensures Open(after) <==> Open(before)
    decreases |after|
  {
    if |after| == |before| {
      assert after == before;
    } else {
      assert before <= after[..|after| - 1];
      QuietStays(before, after[..|after| - 1]);
    }
  }

  /** The same exception, or death, as the outcome of the caller. */
  function Pass<T, U>(reply: Reply<T>): Reply<U>
    requires !reply.Got?
  {
    match reply
    case Raised(f) => Raised(f)
    case Died => Died
  }
}