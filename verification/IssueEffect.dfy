/**
 Creating an issue at most once without a lock. Any number of processes share one state file; what holds them apart is
 that the file is created exclusively before the request and never removed. A schedule is a list of moves, chosen by an
 adversary together with every answer, every write outcome and every crash.
 */
module IssueEffect {
  import opened Common

  type EffectId = string

  datatype Status = EffectStarted | Unknown | Bound

  datatype File = NoFile | Damaged | Holds(effect: EffectId, status: Status)

  /** How `execute` ends. `Refused` and `Undecoded` are error receipts that ask for no reconciliation. */
  datatype Outcome = Created | Reconciled | Refused | Undecoded | OutcomeUnknown | Crashed

  /**
   What comes back from the request: nothing usable, an answer that is no issue of this effect, the issue, or bytes on
   which decoding raises something that is not taken for a malformed answer, such as too deep a nesting.
   */
  datatype Reply = Lost | Mismatched | Accepted | Undecodable

  datatype Request = Request(process: nat, reply: Reply)

  /** Where a process is in `execute`. */
  datatype Pc =
    | Entered
    | Loaded(prior: Option<Status>)
    | Binding(prior: Option<Status>)
    | Creating
    | Started
    | Posted(reply: Reply)
    | Failing
    | Finished(outcome: Outcome)

  datatype World = World(file: File, pcs: map<nat, Pc>, posts: seq<Request>)

  datatype Observation = SeenBound | SeenMissing | SeenNothing

  /** How a write ends: done, raised with or without effect, or raised with the new file cut short. */
  datatype Writing = Done | RaisedAfter | RaisedBefore | CutShort

  datatype Move =
    | Enter(p: nat)
    | Load(p: nat)
    | Observe(p: nat, seen: Observation)
    | WriteBound(p: nat, how: Writing)
    | WriteIntent(p: nat, how: Writing)
    | Post(p: nat, reply: Reply)
    | Settle(p: nat, how: Writing)
    | MarkUnknown(p: nat, how: Writing)
    | Crash(p: nat)

  const EMPTY := World(NoFile, map[], [])

  function At(w: World, p: nat): Option<Pc> {
    if p in w.pcs then Some(w.pcs[p]) else None
  }

  function Goto(w: World, p: nat, pc: Pc): World {
    w.(pcs := w.pcs[p := pc])
  }

  /** `_write_state`: exclusive creation, or replacement of a file that is there. */
  function Written(file: File, next: File, initial: bool, how: Writing): (r: (File, bool))
    requires next.Holds?
    ensures file != NoFile ==> r.0 != NoFile
    ensures r.1 <==> how == Done && (initial <==> file == NoFile)
    ensures r.1 ==> r.0 == next
    ensures initial && file != NoFile ==> r == (file, false)
  {
    if initial != file.NoFile? then (file, false)
    else
      match how
      case Done => (next, true)
      case RaisedAfter => (next, false)
      case RaisedBefore => (file, false)
      case CutShort => (if initial then Damaged else file, false)
  }

  /** One step of one process; a move that is not enabled changes nothing. */
  function Perform(effect: nat -> EffectId, w: World, m: Move): World {
    match m
    case Enter(p) => if At(w, p).None? then Goto(w, p, Entered) else w
    case Load(p) =>
      if At(w, p) != Some(Entered) then w
      else if w.file.NoFile? then Goto(w, p, Loaded(None))
      else if w.file.Damaged? || w.file.effect != effect(p) then Goto(w, p, Finished(Refused))
      else Goto(w, p, Loaded(Some(w.file.status)))
    case Observe(p, seen) =>
      if At(w, p).None? || !w.pcs[p].Loaded? then w
      else
        var prior := w.pcs[p].prior;
        if seen == SeenBound then Goto(w, p, Binding(prior))
        else if seen == SeenNothing || prior == Some(Bound) then Goto(w, p, Finished(Refused))
        else if prior.Some? then Goto(w, p, Finished(OutcomeUnknown))
        else Goto(w, p, Creating)
    case WriteBound(p, how) =>
      if At(w, p).None? || !w.pcs[p].Binding? then w
      else
        var (file, ok) := Written(w.file, Holds(effect(p), Bound), w.pcs[p].prior.None?, how);
        Goto(w.(file := file), p, Finished(if ok then Reconciled else Refused))
    case WriteIntent(p, how) =>
      if At(w, p) != Some(Creating) then w
      else
        var (file, ok) := Written(w.file, Holds(effect(p), EffectStarted), true, how);
        Goto(w.(file := file), p, if ok then Started else Finished(Refused))
    case Post(p, reply) =>
      if At(w, p) != Some(Started) then w else Goto(w.(posts := w.posts + [Request(p, reply)]), p, Posted(reply))
    case Settle(p, how) =>
      if At(w, p).None? || !w.pcs[p].Posted? then w
      else if w.pcs[p].reply.Undecodable? then Goto(w, p, Finished(Undecoded))
      else if !w.pcs[p].reply.Accepted? then Goto(w, p, Failing)
      else
        var (file, ok) := Written(w.file, Holds(effect(p), Bound), false, how);
        Goto(w.(file := file), p, if ok then Finished(Created) else Failing)
    case MarkUnknown(p, how) =>
      if At(w, p) != Some(Failing) then w
      else Goto(w.(file := Written(w.file, Holds(effect(p), Unknown), false, how).0), p, Finished(OutcomeUnknown))
    case Crash(p) =>
      if At(w, p).None? || w.pcs[p].Finished? then w else Goto(w, p, Finished(Crashed))
  }

  function Schedule(effect: nat -> EffectId, w: World, moves: seq<Move>): World {
    if moves == [] then w else Perform(effect, Schedule(effect, w, moves[..|moves| - 1]), moves[|moves| - 1])
  }

  /** A process that created the file and has not finished. */
  predicate HoldsIntent(pc: Pc) {
    pc.Started? || pc.Posted? || pc.Failing?
  }

  /** What a process that sent the request may be doing. */
  predicate MaySend(pc: Pc) {
    pc.Posted? || pc.Failing? || (pc.Finished? && pc.outcome != Refused && pc.outcome != Reconciled)
  }

  /** The process sent the only request, and this came back. */
  predicate Sent(w: World, p: nat, reply: Reply) {
    w.posts == [Request(p, reply)]
  }

  predicate SentBy(w: World, p: nat) {
    exists i | 0 <= i < |w.posts| :: w.posts[i].process == p
  }

  /** What came back from the request of a process fits where the process is. */
  predicate Fits(w: World, p: nat, pc: Pc) {
    match pc
    case Posted(reply) => Sent(w, p, reply)
    case Failing => Sent(w, p, Lost) || Sent(w, p, Mismatched) || Sent(w, p, Accepted)
    case Finished(Created) => Sent(w, p, Accepted)
    case Finished(Undecoded) => Sent(w, p, Undecodable)
    case Finished(OutcomeUnknown) => !Sent(w, p, Undecodable)
    case _ => true
  }

  ghost predicate Inv(w: World) {
    && (forall p | p in w.pcs && HoldsIntent(w.pcs[p]) :: w.file != NoFile)
    && (forall p, q | p in w.pcs && q in w.pcs && HoldsIntent(w.pcs[p]) && HoldsIntent(w.pcs[q]) :: p == q)
    && (forall p | p in w.pcs && w.pcs[p].Started? :: w.posts == [])
    && (forall p | p in w.pcs :: Fits(w, p, w.pcs[p]))
    && |w.posts| <= 1
    && (w.posts != [] ==> w.file != NoFile && w.posts[0].process in w.pcs && MaySend(w.pcs[w.posts[0].process]))
  }

  /** A process moves on without taking the intent or sending anything. */
  lemma MovesOn(w: World, file: File, p: nat, pc: Pc)
    requires Inv(w) && (w.file != NoFile ==> file != NoFile)
    requires HoldsIntent(pc) ==> p in w.pcs && HoldsIntent(w.pcs[p]) && !pc.Started?
    requires Fits(w, p, pc)
    requires SentBy(w, p) ==> MaySend(pc)
    ensures Inv(Goto(w.(file := file), p, pc))
  {
    var after := Goto(w.(file := file), p, pc);
    forall q | q in after.pcs ensures Fits(after, q, after.pcs[q]) {
      assert Fits(w, q, after.pcs[q]);
    }
  }

  lemma NotSent(w: World, p: nat)
    requires Inv(w) && (p !in w.pcs || !MaySend(w.pcs[p]))
    ensures !SentBy(w, p) && forall reply :: !Sent(w, p, reply)
  {
    assert w.posts != [] ==> w.posts[0].process != p;
  }

  /** Exclusive creation succeeds only when nobody ever held the intent. */
  lemma TakesIntent(w: World, next: File, p: nat)
    requires Inv(w) && w.file == NoFile && next.Holds?
    ensures Inv(Goto(w.(file := next), p, Started))
  {
    var after := Goto(w.(file := next), p, Started);
    forall q | q in after.pcs && q != p ensures Fits(after, q, after.pcs[q]) {
      assert Fits(w, q, w.pcs[q]);
    }
  }

  lemma Sends(w: World, p: nat, reply: Reply)
    requires Inv(w) && At(w, p) == Some(Started)
    ensures Inv(Goto(w.(posts := w.posts + [Request(p, reply)]), p, Posted(reply)))
  {
    var after := Goto(w.(posts := w.posts + [Request(p, reply)]), p, Posted(reply));
    assert w.posts == [] && after.posts == [Request(p, reply)];
    forall q | q in after.pcs && q != p ensures Fits(after, q, after.pcs[q]) {
      assert Fits(w, q, w.pcs[q]);
    }
  }

  lemma StepKeeps(effect: nat -> EffectId, w: World, m: Move)
    requires Inv(w)
    ensures Inv(Perform(effect, w, m))
    ensures w.file != NoFile ==> Perform(effect, w, m).file != NoFile
  {
    hide Inv, Written;
    var after := Perform(effect, w, m);
    if after == w {
    } else if m.WriteIntent? && after.pcs[m.p].Started? {
      TakesIntent(w, after.file, m.p);
    } else if m.Post? {
      Sends(w, m.p, m.reply);
    } else {
      if At(w, m.p).None? || !MaySend(w.pcs[m.p]) {
        NotSent(w, m.p);
      } else {
        Sender(w, m.p);
      }
      MovesOn(w, after.file, m.p, after.pcs[m.p]);
      assert Goto(w.(file := after.file), m.p, after.pcs[m.p]) == after;
    }
  }

  lemma Sender(w: World, p: nat)
    requires Inv(w) && p in w.pcs && (w.pcs[p].Posted? || w.pcs[p].Failing?)
    ensures Fits(w, p, w.pcs[p])
  {}

  lemma {:induction false} ScheduleKeeps(effect: nat -> EffectId, w: World, moves: seq<Move>)
    requires Inv(w)
    ensures Inv(Schedule(effect, w, moves))
    ensures w.file != NoFile ==> Schedule(effect, w, moves).file != NoFile
  {
    hide Inv, Perform;
    if moves != [] {
      ScheduleKeeps(effect, w, moves[..|moves| - 1]);
      StepKeeps(effect, Schedule(effect, w, moves[..|moves| - 1]), moves[|moves| - 1]);
    }
  }

  /** At most one request is ever sent, over every schedule of every number of processes. */
  lemma AtMostOnePost(effect: nat -> EffectId, moves: seq<Move>)
    ensures |Schedule(effect, EMPTY, moves).posts| <= 1
  {
    ScheduleKeeps(effect, EMPTY, moves);
  }

  /** The state file is there before the request is sent and stays. */
  lemma PostAfterFile(effect: nat -> EffectId, moves: seq<Move>, more: seq<Move>)
    requires Schedule(effect, EMPTY, moves).posts != []
    ensures Schedule(effect, Schedule(effect, EMPTY, moves), more).file != NoFile
  {
    ScheduleKeeps(effect, EMPTY, moves);
    ScheduleKeeps(effect, Schedule(effect, EMPTY, moves), more);
  }

  /** An error receipt: nothing is said to need reconciliation. */
  predicate ErrorReceipt(outcome: Outcome) {
    outcome.Refused? || outcome.Undecoded?
  }

  /**
   How far receipts can be trusted: whoever reconciled sent nothing, whoever created the issue sent the one request, and
   an error receipt hides a request exactly when what came back raised an unforeseen error in decoding.
   */
  lemma ReceiptsTruthful(effect: nat -> EffectId, moves: seq<Move>, p: nat, outcome: Outcome)
    requires At(Schedule(effect, EMPTY, moves), p) == Some(Finished(outcome)) && !outcome.Crashed?
    ensures var w := Schedule(effect, EMPTY, moves);
      && (outcome == Reconciled ==> !SentBy(w, p))
      && (outcome == Created ==> Sent(w, p, Accepted))
      && (ErrorReceipt(outcome) && SentBy(w, p) <==> Sent(w, p, Undecodable))
  {
    var w := Schedule(effect, EMPTY, moves);
    ScheduleKeeps(effect, EMPTY, moves);
    assert Fits(w, p, w.pcs[p]);
    if Sent(w, p, Undecodable) {
      assert w.posts[0].process == p;
    }
  }

  /**
   What a move leaves on disk: the intent before a request, the binding behind a success, and doubt behind a failure
   whose record could be written; nothing else touches the file.
   */
  lemma MoveLeaves(effect: nat -> EffectId, w: World, m: Move)
    ensures var after := Perform(effect, w, m);
      && (after.posts != w.posts ==> m.Post? && At(w, m.p) == Some(Started) && after.file == w.file)
      && (At(w, m.p) != Some(Started) && At(after, m.p) == Some(Started) ==>
            w.file == NoFile && after.file == Holds(effect(m.p), EffectStarted))
      && (At(after, m.p) == Some(Finished(Created)) && At(w, m.p) != At(after, m.p) ==>
            after.file == Holds(effect(m.p), Bound) && At(w, m.p) == Some(Posted(Accepted)))
      && (At(after, m.p) == Some(Finished(Reconciled)) && At(w, m.p) != At(after, m.p) ==>
            after.file == Holds(effect(m.p), Bound))
      && (At(w, m.p) == Some(Failing) && m == MarkUnknown(m.p, Done) && w.file != NoFile ==>
            after.file == Holds(effect(m.p), Unknown))
      && (after.file != w.file ==> m.WriteBound? || m.WriteIntent? || m.Settle? || m.MarkUnknown?)
      && (forall p | p != m.p :: At(after, p) == At(w, p))
  {}

  /** What a process does with what it sees: it creates only where nothing was recorded and nothing is there. */
  lemma ObserveDecides(effect: nat -> EffectId, w: World, p: nat, seen: Observation)
    requires p in w.pcs && w.pcs[p].Loaded?
    ensures var prior, after := w.pcs[p].prior, Perform(effect, w, Observe(p, seen));
      && after.file == w.file && after.posts == w.posts
      && (seen == SeenBound <==> after.pcs[p] == Binding(prior))
      && (seen == SeenMissing && prior == None <==> after.pcs[p] == Creating)
      && (seen == SeenMissing && (prior == Some(EffectStarted) || prior == Some(Unknown)) <==>
            after.pcs[p] == Finished(OutcomeUnknown))
      && (seen == SeenNothing || (seen == SeenMissing && prior == Some(Bound)) <==> after.pcs[p] == Finished(Refused))
  {
    var prior := w.pcs[p].prior;
    assert prior.Some? ==> prior.value.EffectStarted? || prior.value.Unknown? || prior.value.Bound?;
  }

  /** Undisturbed, a process creates the issue and binds it. */
  lemma CreatesAlone(effect: nat -> EffectId) returns (moves: seq<Move>)
    ensures var w := Schedule(effect, EMPTY, moves);
      At(w, 0) == Some(Finished(Created)) && w.file == Holds(effect(0), Bound) && Sent(w, 0, Accepted)
  {
    var created := CreatedBy(effect);
    moves := created + [Post(0, Accepted)];
    LastMove(effect, created, Post(0, Accepted));
    LastMove(effect, moves, Settle(0, Done));
    moves := moves + [Settle(0, Done)];
  }

  lemma LastMove(effect: nat -> EffectId, moves: seq<Move>, m: Move)
    ensures Schedule(effect, EMPTY, moves + [m]) == Perform(effect, Schedule(effect, EMPTY, moves), m)
  {
    assert (moves + [m])[..|moves|] == moves;
  }

  /** It happens: one process, an answer that does not decode, and an error receipt although the request was sent. */
  lemma HiddenRequest(effect: nat -> EffectId) returns (moves: seq<Move>)
    ensures var w := Schedule(effect, EMPTY, moves);
      At(w, 0) == Some(Finished(Undecoded)) && Sent(w, 0, Undecodable) && w.file == Holds(effect(0), EffectStarted)
  {
    var created := CreatedBy(effect);
    moves := created + [Post(0, Undecodable)];
    LastMove(effect, created, Post(0, Undecodable));
    LastMove(effect, moves, Settle(0, Done));
    moves := moves + [Settle(0, Done)];
  }

  /** One process as far as its intent. */
  lemma CreatedBy(effect: nat -> EffectId) returns (moves: seq<Move>)
    ensures Schedule(effect, EMPTY, moves) == World(Holds(effect(0), EffectStarted), map[0 := Started], [])
  {
    hide Schedule;
    moves := [];
    assert Schedule(effect, EMPTY, moves) == EMPTY by { NoMoves(effect); }
    LastMove(effect, moves, Enter(0));
    moves := moves + [Enter(0)];
    LastMove(effect, moves, Load(0));
    moves := moves + [Load(0)];
    LastMove(effect, moves, Observe(0, SeenMissing));
    moves := moves + [Observe(0, SeenMissing)];
    assert Schedule(effect, EMPTY, moves) == World(NoFile, map[0 := Creating], []);
    LastMove(effect, moves, WriteIntent(0, Done));
    moves := moves + [WriteIntent(0, Done)];
  }

  lemma NoMoves(effect: nat -> EffectId)
    ensures Schedule(effect, EMPTY, []) == EMPTY
  {}

  /** A process that found a state file, or whose creation failed, is out of the race for good. */
  predicate Out(w: World, p: nat) {
    p in w.pcs && !SentBy(w, p) &&
    match w.pcs[p]
    case Loaded(prior) => prior.Some?
    case Binding(_) => true
    case Finished(_) => true
    case _ => false
  }

  lemma OutStep(effect: nat -> EffectId, w: World, m: Move, p: nat)
    requires Out(w, p)
    ensures Out(Perform(effect, w, m), p)
  {
    hide Written;
  }

  lemma {:induction false} OutForever(effect: nat -> EffectId, w: World, moves: seq<Move>, p: nat)
    requires Out(w, p)
    ensures Out(Schedule(effect, w, moves), p)
  {
    hide Out, Perform;
    if moves != [] {
      OutForever(effect, w, moves[..|moves| - 1], p);
      OutStep(effect, Schedule(effect, w, moves[..|moves| - 1]), moves[|moves| - 1], p);
    }
  }

  /** A run started once the file is there never sends anything, under any schedule. */
  lemma LateComersSendNothing(effect: nat -> EffectId, w: World, moves: seq<Move>, p: nat)
    requires At(w, p) == Some(Entered) && !SentBy(w, p) && w.file != NoFile
    ensures !SentBy(Schedule(effect, Perform(effect, w, Load(p)), moves), p)
  {
    OutForever(effect, Perform(effect, w, Load(p)), moves, p);
  }

  /**
   Exclusive creation is what carries the proof: with replacement instead, two processes that both saw no file both
   send.
   */
  function Unguarded(effect: nat -> EffectId, w: World, m: Move): World {
    if m.WriteIntent? && At(w, m.p) == Some(Creating)
      then Goto(w.(file := Holds(effect(m.p), EffectStarted)), m.p, Started)
    else Perform(effect, w, m)
  }

  function UnguardedSchedule(effect: nat -> EffectId, w: World, moves: seq<Move>): World {
    if moves == [] then w else Unguarded(effect, UnguardedSchedule(effect, w, moves[..|moves| - 1]), moves[|moves| - 1])
  }

  lemma UnguardedLast(effect: nat -> EffectId, moves: seq<Move>, m: Move)
    ensures UnguardedSchedule(effect, EMPTY, moves + [m])
      == Unguarded(effect, UnguardedSchedule(effect, EMPTY, moves), m)
  {
    assert (moves + [m])[..|moves|] == moves;
  }

  /** Two processes that enter, load and look before either writes. */
  lemma BothLook(effect: nat -> EffectId) returns (moves: seq<Move>)
    ensures UnguardedSchedule(effect, EMPTY, moves) == World(NoFile, map[0 := Creating, 1 := Creating], [])
  {
    hide UnguardedSchedule;
    moves := [];
    assert UnguardedSchedule(effect, EMPTY, moves) == EMPTY by { UnguardedNothing(effect); }
    UnguardedLast(effect, moves, Enter(0));
    moves := moves + [Enter(0)];
    UnguardedLast(effect, moves, Enter(1));
    moves := moves + [Enter(1)];
    assert UnguardedSchedule(effect, EMPTY, moves) == World(NoFile, map[0 := Entered, 1 := Entered], []);
    UnguardedLast(effect, moves, Load(0));
    moves := moves + [Load(0)];
    UnguardedLast(effect, moves, Load(1));
    moves := moves + [Load(1)];
    assert UnguardedSchedule(effect, EMPTY, moves) == World(NoFile, map[0 := Loaded(None), 1 := Loaded(None)], []);
    UnguardedLast(effect, moves, Observe(0, SeenMissing));
    moves := moves + [Observe(0, SeenMissing)];
    UnguardedLast(effect, moves, Observe(1, SeenMissing));
    moves := moves + [Observe(1, SeenMissing)];
  }

  lemma UnguardedNothing(effect: nat -> EffectId)
    ensures UnguardedSchedule(effect, EMPTY, []) == EMPTY
  {}

  lemma ExclusionNeeded(effect: nat -> EffectId) returns (moves: seq<Move>)
    ensures UnguardedSchedule(effect, EMPTY, moves).posts == [Request(0, Accepted), Request(1, Accepted)]
  {
    hide UnguardedSchedule;
    moves := BothLook(effect);
    UnguardedLast(effect, moves, WriteIntent(0, Done));
    moves := moves + [WriteIntent(0, Done)];
    UnguardedLast(effect, moves, WriteIntent(1, Done));
    moves := moves + [WriteIntent(1, Done)];
    UnguardedLast(effect, moves, Post(0, Accepted));
    moves := moves + [Post(0, Accepted)];
    UnguardedLast(effect, moves, Post(1, Accepted));
    moves := moves + [Post(1, Accepted)];
  }
}
