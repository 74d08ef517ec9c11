/**
 The supervision state of a goal: one Parent, at most one Supervisor for its whole life, a history of checkpoints, and
 replay records that only grow.
 */
module SupervisionBridge {
  import opened Common
  import opened Trimming

  type Digest = string

  /** Desktop threads and collaboration agents are located differently; each state uses one kind throughout. */
  datatype Kind = Desktop | Collaboration

  datatype Lifecycle = Pending | Active | Stale | Stopped

  datatype Subscription = UnknownSubscription | Available | Unavailable

  datatype Activity = Activity(id: string, role: string, status: string)

  datatype VisibleException = VisibleException(
    id: string, thread: string, reason: string, justification: string, terminal: bool, archiveReady: bool)

  /** The replay lists hold no value twice, so sets stand for them. */
  datatype Replay = Replay(nonces: set<string>, actions: set<string>, digests: set<string>, paths: set<string>)

  datatype State = State(
    goalId: string, active: string, history: seq<string>, supervisors: seq<string>,
    kind: Kind, parent: string, supervisor: Option<string>, host: Option<string>,
    identity: Option<Digest>, scope: string, replay: Replay, chainTip: Option<Digest>,
    cursor: Option<string>, seen: set<string>, lifecycle: Lifecycle, subscription: Subscription,
    activities: seq<Activity>, exceptions: seq<VisibleException>)

  datatype Error =
    | Malformed | TopologyFailed | DuplicateSupervisor | NotProved | ParentMismatch | IdentityRejected
    | NotActive | DuplicateActivity | Unjustified | DuplicateException | NotArchiveReady | ContinuityLost | Unsupported

  // ---------------------------------------------------------------- text

  /** `_text`: the trimmed text must not be empty. */
  predicate Text(s: string) {
    Strip(s) != ""
  }

  // ---------------------------------------------------------------- states

  function KindName(kind: Kind): string {
    if kind == Desktop then "desktop_thread_id" else "collaboration_agent_path"
  }

  function Scope(goalId: string, kind: Kind, parent: string): string {
    goalId + ":" + KindName(kind) + ":" + parent
  }

  /**
   `empty_state` and `empty_collaboration_state`: the replay scope is built from the goal as given, the rest is trimmed.
   */
  function Empty(kind: Kind, goalId: string, checkpoint: string, parent: string, host: string,
    topologyPassed: bool): Result<State, Error>
  {
    if !Text(goalId) || !Text(checkpoint) || !Text(parent) || (kind == Desktop && !Text(host)) then Err(Malformed)
    else if !topologyPassed then Err(TopologyFailed)
    else
      var locator := if kind == Desktop then Strip(parent) else parent;
      Ok(State(
        Strip(goalId), Strip(checkpoint), [Strip(checkpoint)], [], kind, locator, None,
        if kind == Desktop then Some(Strip(host)) else None,
        None, Scope(goalId, kind, locator), Replay({}, {}, {}, {}), None,
        None, {}, Pending, UnknownSubscription, [], []))
  }

  predicate IsReason(reason: string) {
    reason == "operator_requested" || reason == "direct_operator_interaction" || reason == "material_failure_evidence"
  }

  predicate Justified(e: VisibleException) {
    IsReason(e.reason) && (e.terminal ==> e.archiveReady)
  }

  /** `validate_state`. */
  ghost predicate Valid(s: State) {
    && Text(s.goalId) && Text(s.active) && s.history != [] && s.history[|s.history| - 1] == s.active
    && (forall i | 0 <= i < |s.history| :: s.history[i] != "")
    && Text(s.parent) && (s.kind == Desktop <==> s.host.Some?)
    && (s.supervisor.Some? ==>
          && Text(s.supervisor.value) && s.supervisor.value != s.parent
          && |s.supervisors| == |s.history| && forall i | 0 <= i < |s.supervisors| ::
            s.supervisors[i] == s.supervisor.value)
    && (s.supervisor.None? ==> s.supervisors == [])
    && s.scope == Scope(s.goalId, s.kind, s.parent)
    && s.chainTip == s.identity && (s.identity.Some? ==> s.supervisor.Some?)
    && (s.cursor.Some? ==> Text(s.cursor.value))
    && (forall i | 0 <= i < |s.activities| ::
      Text(s.activities[i].id) && Text(s.activities[i].role) && Text(s.activities[i].status))
    && (forall i | 0 <= i < |s.exceptions| :: Justified(s.exceptions[i]))
  }

  /**
   What `validate_state` misses: before there is a Supervisor there is exactly one checkpoint, and nothing is active.
   */
  ghost predicate Strong(s: State) {
    && Valid(s)
    && (s.supervisor.None? ==> |s.history| == 1 && s.lifecycle == Pending)
  }

  /** A fresh state is valid exactly when the goal was given trimmed. */
  lemma EmptyIsStrong(kind: Kind, goalId: string, checkpoint: string, parent: string, host: string)
    requires Empty(kind, goalId, checkpoint, parent, host, true).Ok?
    ensures Strong(Empty(kind, goalId, checkpoint, parent, host, true).value) <==> goalId == Strip(goalId)
  {
    hide Strip;
    StripTwice(goalId);
    StripTwice(checkpoint);
    StripTwice(parent);
    var s := Empty(kind, goalId, checkpoint, parent, host, true).value;
    if goalId != Strip(goalId) {
      ScopeDiffers(goalId, Strip(goalId), kind, s.parent);
    }
  }

  /** A fresh state, in the fields of what it was made from. */
  lemma EmptySays(kind: Kind, goalId: string, checkpoint: string, parent: string, host: string, topologyPassed: bool)
    ensures Empty(kind, goalId, checkpoint, parent, host, topologyPassed).Ok? <==>
      && Strip(goalId) != "" && Strip(checkpoint) != "" && Strip(parent) != ""
      && (kind == Desktop ==> Strip(host) != "") && topologyPassed
    ensures Empty(kind, goalId, checkpoint, parent, host, topologyPassed).Ok? ==>
      var s := Empty(kind, goalId, checkpoint, parent, host, topologyPassed).value;
      && s.goalId == Strip(goalId) && s.active == Strip(checkpoint) && s.history == [s.active]
      && s.parent == (if kind == Desktop then Strip(parent) else parent)
      && s.host == (if kind == Desktop then Some(Strip(host)) else None)
      && s.scope ==
           goalId + (if kind == Desktop then ":desktop_thread_id:" else ":collaboration_agent_path:") + s.parent
      && s.supervisor.None? && s.supervisors == [] && s.identity.None? && s.chainTip.None? && s.cursor.None?
      && s.replay == Replay({}, {}, {}, {}) && s.seen == {} && s.lifecycle == Pending
      && s.activities == [] && s.exceptions == []
  {
    hide Strip;
    ScopeIs(goalId, kind, if kind == Desktop then Strip(parent) else parent);
  }

  lemma ScopeIs(goalId: string, kind: Kind, parent: string)
    ensures Scope(goalId, kind, parent)
      == goalId + (if kind == Desktop then ":desktop_thread_id:" else ":collaboration_agent_path:") + parent
  {
    var name := if kind == Desktop then "desktop_thread_id" else "collaboration_agent_path";
    assert ":" + name + ":" == if kind == Desktop then ":desktop_thread_id:" else ":collaboration_agent_path:";
    assert goalId + ":" + name + ":" == goalId + (":" + name + ":");
  }

  lemma ScopeDiffers(a: string, b: string, kind: Kind, parent: string)
    requires a != b
    ensures Scope(a, kind, parent) != Scope(b, kind, parent)
  {
    var tail := ":" + KindName(kind) + ":" + parent;
    Assoc(a, ":", KindName(kind) + ":" + parent);
    assert Scope(a, kind, parent) == a + tail && Scope(b, kind, parent) == b + tail;
    if |a| == |b| {
      assert (a + tail)[..|a|] == a && (b + tail)[..|a|] == b;
    }
  }

  // ---------------------------------------------------------------- transitions

  /** What the native identity adapter returned: whom it saw, and the replay records including this receipt's. */
  datatype Identity = Identity(
    kind: Kind, parent: string, child: string, host: string, proved: bool, receipt: Digest, replay: Replay)

  predicate Grows(a: Replay, b: Replay) {
    a.nonces <= b.nonces && a.actions <= b.actions && a.digests <= b.digests && a.paths <= b.paths
  }

  /** Assumed of the adapter: a child that is not its parent, and replay records that only grow. */
  predicate AdapterKeeps(s: State, i: Identity) {
    Text(i.child) && i.child != i.parent && Grows(s.replay, i.replay)
  }

  /** `create_supervisor`, given what the adapter made of the evidence. */
  function CreateSupervisor(s: State, seen: Option<Identity>): Result<State, Error> {
    if seen.None? then Err(IdentityRejected)
    else
      var i := seen.value;
      if s.supervisor.Some? then Err(DuplicateSupervisor)
      else if !i.proved then Err(NotProved)
      else if i.kind != s.kind || i.parent != s.parent then Err(ParentMismatch)
      else
        Ok(s.(supervisor := Some(i.child), supervisors := [i.child],
              host := if s.kind == Desktop then Some(i.host) else s.host,
              identity := Some(i.receipt), chainTip := Some(i.receipt), replay := i.replay, lifecycle := Active))
  }

  function AdvanceCheckpoint(s: State, checkpoint: string): Result<State, Error> {
    if s.lifecycle != Active || s.supervisor.None? then Err(NotActive)
    else if !Text(checkpoint) then Err(Malformed)
    else if Strip(checkpoint) == s.active then Ok(s)
    else Ok(s.(history := s.history + [Strip(checkpoint)], supervisors := s.supervisors + [s.supervisor.value],
      active := Strip(checkpoint)))
  }

  function RegisterActivity(s: State, a: Activity): Result<State, Error> {
    if !Text(a.id) || !Text(a.role) || !Text(a.status) then Err(Malformed)
    else if exists i | 0 <= i < |s.activities| :: s.activities[i].id == Strip(a.id) then Err(DuplicateActivity)
    else Ok(s.(activities := s.activities + [Activity(Strip(a.id), Strip(a.role), Strip(a.status))]))
  }

  function RegisterException(s: State, e: VisibleException): Result<State, Error> {
    if !Text(e.id) || !Text(e.thread) || !Text(e.reason) || !Text(e.justification) then Err(Malformed)
    else
      var row := e.(id := Strip(e.id), thread := Strip(e.thread), reason := Strip(e.reason), justification :=
        Strip(e.justification));
      if !IsReason(row.reason) then Err(Unjustified)
      else if row.terminal && !row.archiveReady then Err(NotArchiveReady)
      else if exists i | 0 <= i < |s.exceptions| :: s.exceptions[i].thread == row.thread then Err(DuplicateException)
      else Ok(s.(exceptions := s.exceptions + [row]))
  }

  datatype Reading = Reading(thread: string, observed: bool, items: set<string>, cursor: Option<string>)

  function ReadNewest(s: State, r: Reading, limit: int): Result<State, Error> {
    if s.subscription == Unavailable && s.cursor.None? then Err(ContinuityLost)
    else if !(1 <= limit <= 100) then Err(Malformed)
    else if s.kind != Desktop then Err(Unsupported)
    else if s.lifecycle != Active || s.supervisor.None? then Err(NotActive)
    else if r.thread != s.supervisor.value || !r.observed || "" in r.items then Err(Malformed)
    else if r.cursor.Some? && !Text(r.cursor.value) then Err(Malformed)
    else
      Ok(s.(seen := s.seen + r.items, cursor := if r.cursor.Some? then Some(Strip(r.cursor.value)) else s.cursor))
  }

  datatype Move =
    | Create(seen: Option<Identity>)
    | Advance(checkpoint: string)
    | AddActivity(activity: Activity)
    | AddException(exception: VisibleException)
    | Read(reading: Reading, limit: int)

  function Step(s: State, m: Move): Result<State, Error> {
    match m
    case Create(seen) => CreateSupervisor(s, seen)
    case Advance(checkpoint) => AdvanceCheckpoint(s, checkpoint)
    case AddActivity(a) => RegisterActivity(s, a)
    case AddException(e) => RegisterException(s, e)
    case Read(r, limit) => ReadNewest(s, r, limit)
  }

  /** The state after these moves; a refused move leaves it as it was. */
  function After(s: State, moves: seq<Move>): State {
    if moves == [] then s else
    var before := After(s, moves[..|moves| - 1]);
    match Step(before, moves[|moves| - 1])
    case Ok(next) => next
    case Err(_) => before
  }

  /** Every adapter result used along the way kept the adapter's contract. */
  ghost predicate Honest(s: State, moves: seq<Move>) {
    moves == [] ||
    var n := |moves| - 1;
    && Honest(s, moves[..n])
    && (moves[n].Create? && moves[n].seen.Some? ==> AdapterKeeps(After(s, moves[..n]), moves[n].seen.value))
  }

  // ---------------------------------------------------------------- what every run keeps

  /** Identity is for life, histories only get longer, and records only grow. */
  ghost predicate Continues(a: State, b: State) {
    && b.goalId == a.goalId && b.kind == a.kind && b.parent == a.parent && b.scope == a.scope
    && (a.supervisor.Some? ==> b.supervisor == a.supervisor && b.identity == a.identity)
    && a.history <= b.history && a.supervisors <= b.supervisors
    && Grows(a.replay, b.replay) && a.seen <= b.seen
    && a.activities <= b.activities && a.exceptions <= b.exceptions
  }

  lemma AdvanceStaysStrong(s: State, checkpoint: string)
    requires Strong(s) && AdvanceCheckpoint(s, checkpoint).Ok?
    ensures Strong(AdvanceCheckpoint(s, checkpoint).value) && Continues(s, AdvanceCheckpoint(s, checkpoint).value)
  {
    hide Strip, IsReason, Scope;
    StripTwice(checkpoint);
  }

  lemma ActivityStaysStrong(s: State, a: Activity)
    requires Strong(s) && RegisterActivity(s, a).Ok?
    ensures Strong(RegisterActivity(s, a).value) && Continues(s, RegisterActivity(s, a).value)
  {
    hide Strip, IsReason, Scope;
    StripTwice(a.id);
    StripTwice(a.role);
    StripTwice(a.status);
  }

  lemma ReadStaysStrong(s: State, r: Reading, limit: int)
    requires Strong(s) && ReadNewest(s, r, limit).Ok?
    ensures Strong(ReadNewest(s, r, limit).value) && Continues(s, ReadNewest(s, r, limit).value)
  {
    hide Strip, IsReason, Scope;
    if r.cursor.Some? {
      StripTwice(r.cursor.value);
    }
  }

  lemma StepStaysStrong(s: State, m: Move)
    requires Strong(s) && Step(s, m).Ok?
    requires m.Create? && m.seen.Some? ==> AdapterKeeps(s, m.seen.value)
    ensures Strong(Step(s, m).value) && Continues(s, Step(s, m).value)
  {
    hide Strip, IsReason, Scope, AdvanceCheckpoint, RegisterActivity, ReadNewest;
    match m
    case Create(_) =>
    case Advance(checkpoint) => AdvanceStaysStrong(s, checkpoint);
    case AddActivity(a) => ActivityStaysStrong(s, a);
    case AddException(_) =>
    case Read(r, limit) => ReadStaysStrong(s, r, limit);
  }

  /**
   From a fresh state, every run of transitions keeps the state valid, and whatever it went through only continues.
   */
  lemma {:induction false} RunStaysStrong(s: State, moves: seq<Move>)
    requires Strong(s) && Honest(s, moves)
    ensures Strong(After(s, moves)) && Continues(s, After(s, moves))
  {
    hide Strong, Step, AdapterKeeps;
    if moves != [] {
      var n := |moves| - 1;
      RunStaysStrong(s, moves[..n]);
      if Step(After(s, moves[..n]), moves[n]).Ok? {
        StepStaysStrong(After(s, moves[..n]), moves[n]);
      }
    }
  }

  /** The supervisor is for life: whatever prefix of a run set it, the rest of the run keeps it. */
  lemma {:induction false} SupervisorForLife(s: State, moves: seq<Move>, n: nat)
    requires Strong(s) && Honest(s, moves) && n <= |moves|
    ensures Continues(After(s, moves[..n]), After(s, moves))
  {
    hide Strong, Step, AdapterKeeps;
    if n == |moves| {
      assert moves[..n] == moves;
    } else {
      var m := |moves| - 1;
      assert moves[..m][..n] == moves[..n];
      SupervisorForLife(s, moves[..m], n);
      RunStaysStrong(s, moves[..m]);
      if Step(After(s, moves[..m]), moves[m]).Ok? {
        StepStaysStrong(After(s, moves[..m]), moves[m]);
      }
    }
  }

  /**
   Validity alone is not inductive: creating a Supervisor in a valid state keeps it valid exactly when there is one
   checkpoint so far.
   */
  lemma CreateNeedsOneCheckpoint(s: State, i: Identity)
    requires Valid(s) && AdapterKeeps(s, i) && CreateSupervisor(s, Some(i)).Ok?
    ensures Valid(CreateSupervisor(s, Some(i)).value) <==> |s.history| == 1
  {
    hide Strip, IsReason, Scope;
  }

  // ---------------------------------------------------------------- what each transition does

  /** No two activities share an identity, and no two exceptions a thread. */
  ghost predicate KeysDistinct(s: State) {
    && (forall i, j | 0 <= i < j < |s.activities| :: s.activities[i].id != s.activities[j].id)
    && (forall i, j | 0 <= i < j < |s.exceptions| :: s.exceptions[i].thread != s.exceptions[j].thread)
  }

  /** When a transition is carried out, and what then is different: all it names, and nothing else. */
  ghost predicate Carries(s: State, m: Move, t: State) {
    match m
    case Create(seen) =>
      && s.supervisor.None? && seen.Some? && seen.value.proved && seen.value.kind == s.kind
      && seen.value.parent == s.parent
      && t == s.(supervisor := t.supervisor, supervisors := t.supervisors, host := t.host, identity := t.identity,
                 chainTip := t.chainTip, replay := t.replay, lifecycle := Active)
      && t.supervisor == Some(seen.value.child) && t.supervisors == [seen.value.child]
      && t.host == (if s.kind == Desktop then Some(seen.value.host) else s.host)
      && t.identity == t.chainTip == Some(seen.value.receipt) && t.replay == seen.value.replay
    case Advance(checkpoint) =>
      && s.lifecycle == Active && s.supervisor.Some? && Strip(checkpoint) != ""
      && t == s.(active := t.active, history := t.history, supervisors := t.supervisors)
      && t.active == Strip(checkpoint)
      && (if t.active == s.active then t == s else
            t.history == s.history + [t.active] && t.supervisors == s.supervisors + [s.supervisor.value])
    case AddActivity(a) =>
      && Strip(a.id) != "" && Strip(a.role) != "" && Strip(a.status) != ""
      && (forall i | 0 <= i < |s.activities| :: s.activities[i].id != Strip(a.id))
      && t == s.(activities := s.activities + [Activity(Strip(a.id), Strip(a.role), Strip(a.status))])
    case AddException(e) =>
      && Strip(e.id) != "" && Strip(e.thread) != "" && Strip(e.justification) != ""
      && Strip(e.reason) in {"operator_requested", "direct_operator_interaction", "material_failure_evidence"}
      && (e.terminal ==> e.archiveReady)
      && (forall i | 0 <= i < |s.exceptions| :: s.exceptions[i].thread != Strip(e.thread))
      && t == s.(exceptions := s.exceptions + [VisibleException(Strip(e.id), Strip(e.thread), Strip(e.reason),
        Strip(e.justification), e.terminal, e.archiveReady)])
    case Read(r, limit) =>
      && !(s.subscription == Unavailable && s.cursor.None?) && 1 <= limit <= 100
      && s.kind == Desktop && s.lifecycle == Active && s.supervisor == Some(r.thread) && r.observed && "" !in r.items
      && (r.cursor.Some? ==> Strip(r.cursor.value) != "")
      && t == s.(seen := s.seen + r.items,
                 cursor := if r.cursor.Some? then Some(Strip(r.cursor.value)) else s.cursor)
  }

  lemma StepExactly(s: State, m: Move, t: State)
    ensures Step(s, m) == Ok(t) <==> Carries(s, m, t)
  {
    hide Strip;
    if m.AddException? {
      ReasonIs(Strip(m.exception.reason));
    }
  }

  lemma ReasonIs(reason: string)
    ensures IsReason(reason) <==>
      reason in {"operator_requested", "direct_operator_interaction", "material_failure_evidence"}
    ensures IsReason(reason) ==> reason != ""
  {}

  /** Over every run no activity and no excepted thread is registered twice. */
  lemma {:induction false} RunKeepsKeys(s: State, moves: seq<Move>)
    requires KeysDistinct(s)
    ensures KeysDistinct(After(s, moves))
  {
    hide KeysDistinct, Step, Carries;
    if moves != [] {
      var n := |moves| - 1;
      RunKeepsKeys(s, moves[..n]);
      if Step(After(s, moves[..n]), moves[n]).Ok? {
        StepKeepsKeys(After(s, moves[..n]), moves[n]);
      }
    }
  }

  lemma StepKeepsKeys(s: State, m: Move)
    requires KeysDistinct(s) && Step(s, m).Ok?
    ensures KeysDistinct(Step(s, m).value)
  {
    hide Strip, Step;
    StepExactly(s, m, Step(s, m).value);
  }

  // ---------------------------------------------------------------- the visible chat oracle

  /** The part of the oracle that is about the state alone. */
  predicate CountInvariant(s: State) {
    |s.supervisors| == |s.history| && (set i | 0 <= i < |s.supervisors| :: s.supervisors[i])
      == {if s.supervisor.Some? then s.supervisor.value else ""}
  }

  /** On every state a run can reach, the chat count check passes exactly when there is a Supervisor. */
  lemma CountHolds(s: State)
    requires Strong(s)
    ensures CountInvariant(s) <==> s.supervisor.Some?
  {
    if s.supervisor.Some? {
      var all := set i | 0 <= i < |s.supervisors| :: s.supervisors[i];
      assert s.supervisors[0] in all;
      assert all == {s.supervisor.value};
    }
  }

  datatype Row = Row(role: string, active: bool, thread: string, exceptionId: Option<string>)

  function Rows(inventory: seq<Row>, p: Row -> bool): seq<Row> {
    if inventory == [] then [] else
    (if p(inventory[0]) then [inventory[0]] else []) + Rows(inventory[1..], p)
  }

  function ActiveAs(role: string): Row -> bool {
    (r: Row) => r.role == role && r.active
  }

  function Ordinary(): Row -> bool {
    (r: Row) => r.role == "worker" && r.exceptionId.None?
  }

  predicate Registered(s: State, r: Row) {
    r.exceptionId.Some? && exists i | 0 <= i < |s.exceptions| :: s.exceptions[i].id == r.exceptionId.value
  }

  /** `evaluate_visible_chat_oracle` on a desktop state. */
  function Oracle(s: State, inventory: seq<Row>): bool {
    var parents := Rows(inventory, ActiveAs("parent"));
    var supervisors := Rows(inventory, ActiveAs("supervisor"));
    && |parents| == 1 && parents[0].thread == s.parent
    && |supervisors| == 1 && Some(supervisors[0].thread) == s.supervisor
    && Rows(inventory, Ordinary()) == []
    && (forall r | r in inventory && r.role == "worker" && r.exceptionId.Some? :: Registered(s, r))
    && CountInvariant(s)
  }

  /** The one row of its kind. */
  ghost predicate TheOnly(inventory: seq<Row>, p: Row -> bool, i: nat) {
    i < |inventory| && p(inventory[i]) && forall j | 0 <= j < |inventory| && j != i :: !p(inventory[j])
  }

  /** Exactly one row is of a kind, and it shows this thread. */
  ghost predicate OneShows(inventory: seq<Row>, p: Row -> bool, thread: string) {
    exists i: nat :: TheOnly(inventory, p, i) && inventory[i].thread == thread
  }

  lemma {:induction false} RowsAre(inventory: seq<Row>, p: Row -> bool)
    ensures Rows(inventory, p) == [] <==> forall r | r in inventory :: !p(r)
  {
    if inventory != [] {
      RowsAre(inventory[1..], p);
      assert inventory == [inventory[0]] + inventory[1..];
      if p(inventory[0]) {
        assert inventory[0] in inventory;
      }
    }
  }

  lemma {:induction false} OneRow(inventory: seq<Row>, p: Row -> bool, thread: string)
    ensures |Rows(inventory, p)| == 1 && Rows(inventory, p)[0].thread == thread <==> OneShows(inventory, p, thread)
  {
    if inventory != [] {
      var rest := inventory[1..];
      OneRow(rest, p, thread);
      RowsAre(rest, p);
      if p(inventory[0]) {
        if Rows(rest, p) == [] {
          assert forall j | 0 < j < |inventory| :: inventory[j] == rest[j - 1] && rest[j - 1] in rest;
          assert TheOnly(inventory, p, 0);
        } else {
          var r :| r in rest && p(r);
          var k :| 0 <= k < |rest| && rest[k] == r;
          assert p(inventory[k + 1]);
        }
      } else {
        if i: nat :| TheOnly(rest, p, i) && rest[i].thread == thread {
          assert TheOnly(inventory, p, i + 1);
        }
        if i: nat :| TheOnly(inventory, p, i) && inventory[i].thread == thread {
          assert i > 0;
          assert forall j | 0 <= j < |rest| && j != i - 1 :: rest[j] == inventory[j + 1];
          assert TheOnly(rest, p, i - 1);
        }
      }
    }
  }

  /**
   The oracle passes exactly when there is one active Parent chat and it is the recorded one, one active Supervisor chat
   and it is the recorded one, every worker chat is a registered exception, and the histories fit.
   */
  lemma OracleMeaning(s: State, inventory: seq<Row>)
    ensures Oracle(s, inventory) <==>
      && OneShows(inventory, ActiveAs("parent"), s.parent)
      && s.supervisor.Some? && OneShows(inventory, ActiveAs("supervisor"), s.supervisor.value)
      && (forall r | r in inventory && r.role == "worker" :: Registered(s, r))
      && CountInvariant(s)
  {
    hide OneShows, CountInvariant, Rows;
    OneRow(inventory, ActiveAs("parent"), s.parent);
    if s.supervisor.Some? {
      OneRow(inventory, ActiveAs("supervisor"), s.supervisor.value);
    }
    RowsAre(inventory, Ordinary());
  }
}
