/**
 Resumable runs in general. A program is given by what it does next on a disk; a run performs durable writes one at a
 time and may die instead of any of them. If what happens next depends on the disk alone, apart from a clock read by
 the first write, then any number of interrupted runs amount to one.
 */
module Resumption {
  datatype Step<D, R, E> = Write(disk: D) | Done(receipt: R) | Fail(error: E)

  datatype Outcome<R, E> = Completed(receipt: R) | Failed(error: E) | Crashed

  /** The next durable write, success or refusal of a run with this clock on this disk. */
  type Program<!D, R, E> = (string, D) -> Step<D, R, E>

  /** A run that dies instead of performing its write number `writes + 1`. */
  function Run<D, R, E>(next: Program<D, R, E>, now: string, d: D, writes: nat): (D, Outcome<R, E>)
    decreases writes
  {
    match next(now, d)
    case Done(r) => (d, Completed(r))
    case Fail(e) => (d, Failed(e))
    case Write(after) => if writes == 0 then (d, Crashed) else Run(next, now, after, writes - 1)
  }

  datatype Attempt = Attempt(now: string, writes: nat)

  /** Runs one after the other on the same disk, each with its own clock and its own moment of death. */
  function Runs<D, R, E>(next: Program<D, R, E>, d: D, attempts: seq<Attempt>): (D, Outcome<R, E>)
    requires attempts != []
  {
    var first := Run(next, attempts[0].now, d, attempts[0].writes);
    if |attempts| == 1 then first else Runs(next, first.0, attempts[1..])
  }

  function WritesOf(attempts: seq<Attempt>): nat {
    if attempts == [] then 0 else attempts[0].writes + WritesOf(attempts[1..])
  }

  /** The clock is read only by the write that starts the transaction. */
  ghost predicate ClockOnlyAtStart<D(!new), R(!new), E(!new)>(next: Program<D, R, E>, started: D -> bool) {
    && (forall now, other, d :: !next(now, d).Write? || started(d) ==> next(other, d) == next(now, d))
    && (forall now, d :: next(now, d).Write? ==> started(next(now, d).disk))
  }

  lemma {:induction false} ClockIrrelevant<D(!new), R(!new), E(!new)>(
    next: Program<D, R, E>, started: D -> bool, now: string, other: string, d: D, writes: nat)
    requires ClockOnlyAtStart(next, started) && started(d)
    ensures Run(next, now, d, writes) == Run(next, other, d, writes)
    decreases writes
  {
    assert next(other, d) == next(now, d);
    if next(now, d).Write? && writes > 0 {
      ClockIrrelevant(next, started, now, other, next(now, d).disk, writes - 1);
    }
  }

  /** A crashed run followed by a run is one longer run; the clock is that of whichever run made the first write. */
  lemma {:induction false} RunCompose<D(!new), R(!new), E(!new)>(
    next: Program<D, R, E>, started: D -> bool, now: string, later: string, d: D, first: nat, second: nat)
    requires ClockOnlyAtStart(next, started) && Run(next, now, d, first).1.Crashed?
    ensures Run(next, later, Run(next, now, d, first).0, second)
      == Run(next, if first == 0 then later else now, d, first + second)
    decreases first
  {
    if first > 0 {
      var after := next(now, d).disk;
      RunCompose(next, started, now, later, after, first - 1, second);
      ClockIrrelevant(next, started, now, later, after, first - 1 + second);
    }
  }

  /** A completed or refused run stays that way when it is allowed more writes. */
  lemma {:induction false} RunSettled<D, R, E>(next: Program<D, R, E>, now: string, d: D, writes: nat, more: nat)
    requires !Run(next, now, d, writes).1.Crashed? && writes <= more
    ensures Run(next, now, d, more) == Run(next, now, d, writes)
    decreases writes
  {
    if next(now, d).Write? {
      RunSettled(next, now, next(now, d).disk, writes - 1, more - 1);
    }
  }

  /** Running again after a settled run changes nothing, whatever the clock says. */
  lemma {:induction false} SettledStays<D(!new), R(!new), E(!new)>(
    next: Program<D, R, E>, started: D -> bool, now: string, later: string, d: D, writes: nat, more: nat)
    requires ClockOnlyAtStart(next, started) && !Run(next, now, d, writes).1.Crashed?
    ensures Run(next, later, Run(next, now, d, writes).0, more) == Run(next, now, d, writes)
    decreases writes
  {
    if next(now, d).Write? {
      SettledStays(next, started, now, later, next(now, d).disk, writes - 1, more);
    } else {
      assert next(later, d) == next(now, d);
    }
  }

  /**
   Crash convergence: however often the runs died and whatever their clocks said, attempts that settle in the end leave
   the disk and the outcome of one uninterrupted run under the clock of the first attempt that got to write, or that
   had nothing to write.
   */
  lemma {:induction false} Convergence<D(!new), R(!new), E(!new)>(
    next: Program<D, R, E>, started: D -> bool, d: D, attempts: seq<Attempt>) returns (i: nat)
    requires ClockOnlyAtStart(next, started)
    requires attempts != [] && !Runs(next, d, attempts).1.Crashed?
    ensures i < |attempts| && forall j | 0 <= j < i :: attempts[j].writes == 0
    ensures attempts[i].writes > 0 || !next(attempts[i].now, d).Write?
    ensures forall writes: nat ::
      writes >= WritesOf(attempts) ==> Run(next, attempts[i].now, d, writes) == Runs(next, d, attempts)
  {
    var first := attempts[0];
    var once := Run(next, first.now, d, first.writes);
    if |attempts| == 1 {
      i := 0;
      forall writes: nat | writes >= WritesOf(attempts) ensures Run(next, first.now, d, writes) == once {
        RunSettled(next, first.now, d, first.writes, writes);
      }
    } else {
      var rest := attempts[1..];
      var j := Convergence(next, started, once.0, rest);
      if once.1.Crashed? {
        i := if first.writes == 0 then j + 1 else 0;
        forall writes: nat | writes >= WritesOf(attempts)
          ensures Run(next, attempts[i].now, d, writes) == Runs(next, d, attempts)
        {
          RunCompose(next, started, first.now, rest[j].now, d, first.writes, writes - first.writes);
        }
      } else {
        i := 0;
        SettledStays(next, started, first.now, rest[j].now, d, first.writes, WritesOf(rest));
        forall writes: nat | writes >= WritesOf(attempts)
          ensures Run(next, first.now, d, writes) == Runs(next, d, attempts)
        {
          RunSettled(next, first.now, d, first.writes, writes);
        }
      }
    }
  }
}
