/**
 Calling a provider with at most one repair. Each task keeps a checkpoint that counts its attempts before they are made;
 all tasks share one lease that is set before a call and released only after it returned.
 */
module ProviderLoop {
  import opened Common

  type Task = string
  type Code = string

  datatype Status = Running | Repairing | CandidateReady | Escalated

  datatype Checkpoint = Checkpoint(binding: string, attempt: nat, errors: seq<Code>, status: Status)

  datatype Lease = NoLease | Inflight(task: Task) | Released

  datatype Act =
    | Saved(task: Task, checkpoint: Checkpoint)
    | LeaseSet(lease: Lease)
    | Called(task: Task)
    | Returned(task: Task)
    | Outside(lease: Lease)

  /** A value, a reported error, or the end of the process. */
  datatype Reply<T> = Got(value: T) | Raised(code: Code) | Died

  datatype Result = Candidate | Refused(code: Code) | Stopped

  predicate Final(code: Code) {
    || code == "watchdog_stalled" || code == "provider_io" || code == "source_drift"
    || code == "provider_identity" || code == "provider_redirect" || code == "provider_outcome_unknown"
  }

  // ---------------------------------------------------------------- histories

  function LeaseAfter(t: seq<Act>): Lease {
    if t == [] then NoLease else
    match t[|t| - 1]
    case LeaseSet(l) => l
    case Outside(l) => l
    case _ => LeaseAfter(t[..|t| - 1])
  }

  function Calls(t: seq<Act>, task: Task): nat {
    if t == [] then 0 else Calls(t[..|t| - 1], task) + if t[|t| - 1] == Called(task) then 1 else 0
  }

  function Attempts(t: seq<Act>, task: Task): nat {
    if t == [] then 0
    else if t[|t| - 1].Saved? && t[|t| - 1].task == task then t[|t| - 1].checkpoint.attempt
    else Attempts(t[..|t| - 1], task)
  }

  /** The call sent last has not been closed by its own return, nor from outside. */
  predicate Unresolved(t: seq<Act>) {
    t != [] &&
    match t[|t| - 1]
    case Called(_) => true
    case LeaseSet(l) => l != Released && Unresolved(t[..|t| - 1])
    case Outside(_) => false
    case _ => Unresolved(t[..|t| - 1])
  }

  predicate LastIs(t: seq<Act>, a: Act) {
    t != [] && t[|t| - 1] == a
  }

  /**
   A lease is taken only when none is held, a call starts right after that, and only its return releases the lease.
   */
  predicate Allowed(t: seq<Act>, a: Act) {
    match a
    case LeaseSet(Inflight(_)) => LeaseAfter(t) == NoLease || LeaseAfter(t) == Released
    case LeaseSet(Released) => t != [] && t[|t| - 1].Returned?
    case LeaseSet(NoLease) => false
    case Called(task) => LastIs(t, LeaseSet(Inflight(task)))
    case Returned(task) => LastIs(t, Called(task))
    case _ => true
  }

  ghost predicate Safe(t: seq<Act>) {
    t == [] ||
    var before := t[..|t| - 1];
    && Safe(before) && Allowed(before, t[|t| - 1])
    && (Unresolved(t) ==> LeaseAfter(t).Inflight?)
  }

  lemma Snoc(t: seq<Act>, a: Act)
    ensures LeaseAfter(t + [a]) == if a.LeaseSet? || a.Outside? then a.lease else LeaseAfter(t)
    ensures Unresolved(t + [a]) <==> a.Called? || (!a.Outside? && a != LeaseSet(Released) && Unresolved(t))
    ensures Safe(t + [a]) <==> Safe(t) && Allowed(t, a) && (Unresolved(t + [a]) ==> LeaseAfter(t + [a]).Inflight?)
    ensures LastIs(t + [a], a)
  {
    assert (t + [a])[..|t|] == t;
  }

  /** The effect of one more act on the counts of every task. */
  lemma Counts(t: seq<Act>, a: Act)
    ensures forall task :: Calls(t + [a], task) == Calls(t, task) + if a == Called(task) then 1 else 0
    ensures forall task ::
      Attempts(t + [a], task) == if a.Saved? && a.task == task then a.checkpoint.attempt else Attempts(t, task)
  {
    assert (t + [a])[..|t|] == t;
  }

  lemma {:induction false} SafePrefix(t: seq<Act>, n: nat)
    requires Safe(t) && n <= |t|
    ensures Safe(t[..n])
  {
    if n < |t| {
      SafePrefix(t[..|t| - 1], n);
      assert t[..|t| - 1][..n] == t[..n];
    } else {
      assert t[..n] == t;
    }
  }

  /** No call starts while the lease is held by anything but the step just before it. */
  lemma CallsTakeAFreeLease(t: seq<Act>, i: nat)
    requires Safe(t) && i < |t| && t[i].Called?
    ensures i > 0 && t[i - 1] == LeaseSet(Inflight(t[i].task))
    ensures LeaseAfter(t[..i - 1]) == NoLease || LeaseAfter(t[..i - 1]) == Released
  {
    SafePrefix(t, i + 1);
    assert t[..i + 1][..i] == t[..i];
    SafePrefix(t, i);
    assert t[..i][..i - 1] == t[..i - 1];
  }

  /**
   A call that never returned blocks every later call, of any task, until somebody outside changes the lease: nothing
   but records of checkpoints follows it.
   */
  lemma {:induction false} UnresolvedBlocks(t: seq<Act>, i: nat, j: nat)
    requires Safe(t) && i < j < |t| && t[i].Called?
    requires !t[i + 1].Returned? && forall k | i < k <= j :: !t[k].Outside?
    ensures t[j].Saved?
    ensures LeaseAfter(t[..j + 1]).Inflight?
    decreases j
  {
    SafePrefix(t, j + 1);
    assert t[..j + 1][..j] == t[..j];
    SafePrefix(t, i + 1);
    assert t[..i + 1][..i] == t[..i];
    assert Unresolved(t[..i + 1]);
    if j > i + 1 {
      UnresolvedBlocks(t, i, j - 1);
      assert LastIs(t[..j], t[j - 1]);
    } else {
      assert LastIs(t[..j], t[i]);
    }
  }

  const LAST_WORDS: set<Code> := {
    "watchdog_stalled", "provider_io", "source_drift", "provider_identity", "provider_redirect",
    "provider_outcome_unknown"
  }

  /** The last error on record is one after which the provider is not asked again. */
  predicate EndsFinally(errors: seq<Code>) {
    errors != [] && errors[|errors| - 1] in LAST_WORDS
  }

  /** The record of an attempt that ended in such an error. */
  predicate FinalRecord(a: Act, task: Task) {
    a.Saved? && a.task == task && a.checkpoint.status == Repairing && EndsFinally(a.checkpoint.errors)
  }

  /** Once an error that ends all attempts is on record, no call follows. */
  ghost predicate FinalEnds(t: seq<Act>, from: nat, task: Task) {
    forall i, j | from <= i < j < |t| && FinalRecord(t[i], task) :: !t[j].Called?
  }

  ghost predicate OnlyLastFinal(t: seq<Act>, from: nat, task: Task) {
    forall i | from <= i < |t| - 1 :: !FinalRecord(t[i], task)
  }

  lemma FinalIs(errors: seq<Code>)
    requires errors != []
    ensures Final(errors[|errors| - 1]) <==> EndsFinally(errors)
  {}

  /** No such error is on record yet. */
  ghost predicate NoneFinal(t: seq<Act>, from: nat, task: Task) {
    forall i | from <= i < |t| :: !FinalRecord(t[i], task)
  }

  class Runner {
    var checkpoints: map<Task, Checkpoint>
    var lease: Lease
    ghost var trace: seq<Act>

    constructor ()
      ensures Valid() && trace == []
    {
      checkpoints, lease, trace := map[], NoLease, [];
    }

    /** Every checkpoint counts at least the calls its task has made, and never more than two. */
    ghost predicate Valid()
      reads this
    {
      && Safe(trace) && lease == LeaseAfter(trace)
      && forall task :: Calls(trace, task) <= Attempts(trace, task) <= 2
           && Attempts(trace, task) == (if task in checkpoints then checkpoints[task].attempt else 0)
    }

    // -------------------------------------------------------------- the world

    /** Between runs a supervisor may replace the lease. */
    method ChangeLease(next: Lease)
      requires Valid()
      modifies `lease, `trace
      ensures Valid() && trace == old(trace) + [Outside(next)]
    {
      Snoc(trace, Outside(next));
      Counts(trace, Outside(next));
      lease, trace := next, trace + [Outside(next)];
    }

    method Save(task: Task, cp: Checkpoint) returns (alive: bool)
      requires Valid() && Attempts(trace, task) <= cp.attempt <= 2
      modifies `checkpoints, `trace
      ensures Valid()
      ensures trace == old(trace) || trace == old(trace) + [Saved(task, cp)]
      ensures alive ==> trace == old(trace) + [Saved(task, cp)]
      ensures forall other :: Calls(trace, other) == Calls(old(trace), other)
      ensures alive ==> Attempts(trace, task) == cp.attempt && checkpoints == old(checkpoints)[task := cp]
    {
      var happens: bool := *;
      alive := *;
      Snoc(trace, Saved(task, cp));
      Counts(trace, Saved(task, cp));
      if happens || alive {
        checkpoints, trace := checkpoints[task := cp], trace + [Saved(task, cp)];
      }
    }

    method SetLease(next: Lease) returns (reply: Reply<()>)
      requires Valid() && Allowed(trace, LeaseSet(next)) && next != NoLease
      modifies `lease, `trace
      ensures Valid()
      ensures trace == old(trace) || trace == old(trace) + [LeaseSet(next)]
      ensures reply.Got? ==> trace == old(trace) + [LeaseSet(next)]
      ensures forall other ::
        Calls(trace, other) == Calls(old(trace), other) && Attempts(trace, other) == Attempts(old(trace), other)
    {
      var happens: bool := *;
      reply := *;
      Snoc(trace, LeaseSet(next));
      Counts(trace, LeaseSet(next));
      if happens || reply.Got? {
        lease, trace := next, trace + [LeaseSet(next)];
      }
    }

    /** The provider call: it may answer, fail, or outlive the process. */
    method Call(task: Task) returns (reply: Reply<()>)
      requires Valid() && Calls(trace, task) < Attempts(trace, task) && LastIs(trace, LeaseSet(Inflight(task)))
      modifies `trace
      ensures Valid()
      ensures trace == old(trace) + [Called(task)] + if reply.Got? then [Returned(task)] else []
      ensures Calls(trace, task) == Calls(old(trace), task) + 1 && Attempts(trace, task) == Attempts(old(trace), task)
    {
      Snoc(trace, Called(task));
      Counts(trace, Called(task));
      Snoc(trace + [Called(task)], Returned(task));
      Counts(trace + [Called(task)], Returned(task));
      trace := trace + [Called(task)];
      reply := *;
      if reply.Got? {
        trace := trace + [Returned(task)];
      }
    }

    method Judge() returns (reply: Reply<()>) {
      reply := *;
    }

    // -------------------------------------------------------------- a run

    /** One attempt: lease, call, release, judge the answer. */
    method Attempt(task: Task) returns (reply: Reply<()>)
      requires Valid() && Calls(trace, task) < Attempts(trace, task)
      modifies `lease, `trace
      ensures Valid() && old(trace) <= trace
      ensures Attempts(trace, task) == Attempts(old(trace), task)
      ensures Calls(trace, task) <= Calls(old(trace), task) + 1
      ensures old(lease).Inflight? ==> trace == old(trace) && reply == Raised("provider_outcome_unknown")
      ensures forall i | |old(trace)| <= i < |trace| :: !trace[i].Saved?
      ensures reply.Got? ==>
        trace == old(trace) + [LeaseSet(Inflight(task)), Called(task), Returned(task), LeaseSet(Released)]
    {
      hide Safe, LeaseAfter, Unresolved, Calls, Attempts;
      if lease != NoLease && lease != Released {
        return Raised("provider_outcome_unknown");
      }
      reply := SetLease(Inflight(task));
      if !reply.Got? {
        return;
      }
      reply := Call(task);
      if !reply.Got? {
        return;
      }
      reply := SetLease(Released);
      if !reply.Got? {
        return;
      }
      reply := Judge();
    }

    /** One turn of the retry loop: count the attempt, make it, record how it went. */
    method Turn(task: Task, start: Checkpoint) returns (cp: Checkpoint, res: Option<Result>)
      requires Valid() && Attempts(trace, task) <= start.attempt < 2
      modifies this
      ensures Valid() && old(trace) <= trace
      ensures old(lease).Inflight? ==> lease == old(lease) && SameCalls(old(trace), trace)
      ensures OnlyLastFinal(trace, |old(trace)|, task)
      ensures cp.binding == start.binding
      ensures res.None? ==>
        && Attempts(trace, task) == cp.attempt == start.attempt + 1 && |cp.errors| == |start.errors| + 1
        && trace != old(trace) && trace[|trace| - 1] == Saved(task, cp)
      ensures res.Some? ==> res.value == Stopped || res.value == Candidate
      ensures res == Some(Candidate) ==>
        task in checkpoints && checkpoints[task] == cp && cp.status == CandidateReady
    {
      hide Safe, LeaseAfter, Unresolved, Calls, Attempts, Final, EndsFinally;
      cp := start.(status := Running, attempt := start.attempt + 1);
      var alive := Save(task, cp);
      if !alive {
        return cp, Some(Stopped);
      }
      ghost var before := trace;
      var reply := Attempt(task);
      if reply.Died? {
        return cp, Some(Stopped);
      }
      assert forall i | |before| <= i < |trace| :: !trace[i].Saved?;
      assert forall i | 0 <= i < |before| :: trace[i] == before[i];
      cp := if reply.Got? then cp.(status := CandidateReady)
        else cp.(errors := cp.errors + [reply.code], status := Repairing);
      alive := Save(task, cp);
      if !alive {
        return cp, Some(Stopped);
      }
      return cp, if reply.Got? then Some(Candidate) else None;
    }

    /** The retry loop: stop after the second attempt or after a final error. */
    method Retry(task: Task, start: Checkpoint) returns (cp: Checkpoint, res: Option<Result>)
      requires Valid() && Attempts(trace, task) <= start.attempt <= 2
      modifies this
      ensures Valid() && old(trace) <= trace
      ensures res.None? ==> Attempts(trace, task) <= cp.attempt <= 2
      ensures old(lease).Inflight? || start.attempt == 2 ==> SameCalls(old(trace), trace)
      ensures OnlyLastFinal(trace, |old(trace)|, task)
      ensures cp.binding == start.binding
      ensures res.None? ==>
        && (cp.attempt == 2 || EndsFinally(cp.errors))
        && |cp.errors| == |start.errors| + cp.attempt - start.attempt
      ensures res.Some? ==> res.value == Stopped || res.value == Candidate
      ensures res == Some(Candidate) ==>
        task in checkpoints && checkpoints[task] == cp && cp.status == CandidateReady
    {
      hide Safe, LeaseAfter, Unresolved, Calls, Attempts, Final, EndsFinally;
      ghost var from := |trace|;
      cp := start;
      while cp.attempt < 2
        invariant Valid() && old(trace) <= trace
        invariant Attempts(trace, task) <= cp.attempt <= 2
        invariant old(lease).Inflight? ==> lease == old(lease)
        invariant old(lease).Inflight? || start.attempt == 2 ==> SameCalls(old(trace), trace)
        invariant NoneFinal(trace, from, task)
        invariant cp.binding == start.binding && |cp.errors| == |start.errors| + cp.attempt - start.attempt
        decreases 2 - cp.attempt
      {
        ghost var errors := cp.errors;
        ghost var before := trace;
        cp, res := Turn(task, cp);
        assert forall i | 0 <= i < |before| :: trace[i] == before[i];
        if res.Some? {
          return;
        }
        FinalIs(cp.errors);
        if Final(cp.errors[|cp.errors| - 1]) {
          break;
        }
      }
      res := None;
    }

    /** `run_locked`: a fresh or resumed task, at most two attempts, then escalation. */
    method RunLocked(task: Task, binding: string, resume: bool) returns (res: Result)
      requires Valid()
      modifies this
      ensures Valid() && old(trace) <= trace
      ensures old(lease).Inflight? ==> SameCalls(old(trace), trace)
      ensures task in old(checkpoints) && Settled(old(checkpoints)[task]) ==> SameCalls(old(trace), trace)
      ensures FinalEnds(trace, |old(trace)|, task)
      ensures res == Refused("checkpoint_exists") <==> !resume && task in old(checkpoints)
      ensures res == Refused("checkpoint_invalid") <==> resume && task !in old(checkpoints)
      ensures res == Refused("resume_binding_mismatch") <==>
        resume && task in old(checkpoints) && old(checkpoints)[task].binding != binding
      ensures res == Refused("supervisor_required") <==>
        && resume && task in old(checkpoints) && old(checkpoints)[task].binding == binding
        && old(checkpoints)[task].status == Escalated
      ensures res.Refused? ==> res.code in {"checkpoint_exists", "checkpoint_invalid", "resume_binding_mismatch",
        "supervisor_required", "escalated"}
      ensures res == Candidate ==>
        task in checkpoints && checkpoints[task].status == CandidateReady && checkpoints[task].binding == binding
      ensures res == Refused("escalated") ==>
        && task in checkpoints && checkpoints[task].status == Escalated && checkpoints[task].binding == binding
        && (checkpoints[task].attempt == 2 || EndsFinally(checkpoints[task].errors))
    {
      hide Safe, LeaseAfter, Unresolved, Calls, Attempts;
      var cp;
      if resume {
        if task !in checkpoints {
          return Refused("checkpoint_invalid");
        }
        cp := checkpoints[task];
        if cp.binding != binding {
          return Refused("resume_binding_mismatch");
        }
        if cp.status == CandidateReady {
          return Candidate;
        }
        if cp.status == Escalated {
          return Refused("supervisor_required");
        }
      } else {
        if task in checkpoints {
          return Refused("checkpoint_exists");
        }
        cp := Checkpoint(binding, 0, [], Running);
        var alive := Save(task, cp);
        if !alive {
          return Stopped;
        }
      }
      if cp.attempt > 0 && cp.status == Running {
        cp := cp.(errors := cp.errors + ["interrupted_request_outcome_unknown"], attempt := 2);
      }
      var ended;
      cp, ended := Retry(task, cp);
      if ended.Some? {
        return ended.value;
      }
      var alive := Save(task, cp.(status := Escalated));
      return if alive then Refused("escalated") else Stopped;
    }
  }

  /** No call between two moments. */
  ghost predicate SameCalls(before: seq<Act>, after: seq<Act>) {
    forall task :: Calls(after, task) == Calls(before, task)
  }

  /** A checkpoint after which no run calls the provider again: done, escalated, or interrupted inside an attempt. */
  predicate Settled(cp: Checkpoint) {
    cp.status == CandidateReady || cp.status == Escalated || (cp.status == Running && cp.attempt > 0) || cp.attempt == 2
  }
}
