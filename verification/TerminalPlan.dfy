/**
 The terminal lifecycle plan: for every resource of the inventory one action, decided by who owns it and what it is
 doing, and the check that any plan must pass before it is acted on.
 */
module TerminalPlan {
  import opened Common
  import opened JsonText
  import opened Sorting

  type Digest = string

  /** The class of a resource and what identifies it exactly. */
  datatype Target =
    | Thread(threadId: string, hostId: string)
    | Agent(agentId: string, hostId: string)
    | Provider(pid: int, startedAt: int, executable: Digest)
    | Server(pid: int, startedAt: int, listener: string)
    | Worktree(path: string, sha: Digest, safe: bool, current: bool, dirty: bool, integrated: bool)
    | Session(sessionId: string, hostId: string)
    | ParentThread(threadId: string, hostId: string)

  predicate SameClass(a: Target, b: Target) {
    match a
    case Thread(_, _) => b.Thread?
    case Agent(_, _) => b.Agent?
    case Provider(_, _, _) => b.Provider?
    case Server(_, _, _) => b.Server?
    case Worktree(_, _, _, _, _, _) => b.Worktree?
    case Session(_, _) => b.Session?
    case ParentThread(_, _) => b.ParentThread?
  }

  datatype Ownership = GoalOwned | Shared | Unrelated | UnknownOwner

  datatype Lifecycle = Live | Terminal | Absent | UnknownState

  datatype Capabilities = Capabilities(archive: bool, unpin: bool, interrupt: bool, remove: bool)

  datatype Resource = Resource(
    id: string, target: Target, ownership: Ownership, lifecycle: Lifecycle, capabilities: Capabilities,
    authority: Option<Digest>, evidence: Digest)

  /** An operator's permission to keep one session; times are instants. */
  datatype Authority = Authority(
    resourceId: string, artifact: Digest, approved: bool, issuedAt: int, retainUntil: Option<int>)

  /** An inventory as its authority took and sealed it. */
  datatype Inventory = Inventory(observedAt: int, complete: bool, resources: seq<Resource>, authority: Digest,
    sha: Digest)

  /** What the gate trusts beforehand, and how artifacts are sealed. */
  datatype Anchors = Anchors(
    inventoryAuthority: Digest, parentAuthority: string, childPlan: Digest, allowed: set<Digest>,
    inventorySha: (int, bool, seq<Resource>, Digest) -> Digest,
    authoritySha: (string, bool, int, Option<int>) -> Digest)

  datatype Action =
    | NoAction | Archive | Unpin | ArchiveUnpin | Interrupt | StopProvider | StopServer | RemoveWorktree
    | RetainTerminalHostRecord | RetainPersistent

  predicate Retains(a: Action) {
    a == RetainTerminalHostRecord || a == RetainPersistent
  }

  datatype Error =
    | SchemaInvalid | InventoryIncomplete | PersistenceMissing | ParentForbidden | OwnedUnknown | OwnedActive
    | WorktreeCurrent | WorktreeDirty | WorktreeUnintegrated | WorktreeUnsafe
    | ActionMismatch | MutationForbidden | DigestMismatch
    | ChildPlanMismatch | TargetChanged | PidReused | ProviderRemains | ListenerRemains | StateMismatch

  // ---------------------------------------------------------------- what to do with one resource

  function VisibleAction(c: Capabilities): Option<Action> {
    if c.archive && c.unpin then Some(ArchiveUnpin)
    else if c.archive then Some(Archive)
    else if c.unpin then Some(Unpin)
    else None
  }

  function OwnershipName(o: Ownership): string {
    match o
    case GoalOwned => "goal_owned"
    case Shared => "shared"
    case Unrelated => "unrelated"
    case UnknownOwner => "unknown"
  }

  function CompileAction(r: Resource, authorities: map<string, Authority>): Result<(Action, string), Error> {
    if r.target.ParentThread? then
      if r.ownership == GoalOwned || r.capabilities.archive || r.capabilities.unpin || r.capabilities.interrupt
        || r.capabilities.remove
      then Err(ParentForbidden) else Ok((NoAction, "parent_thread_preserved"))
    else if r.ownership != GoalOwned then Ok((NoAction, OwnershipName(r.ownership) + "_resource_preserved"))
    else if r.lifecycle == UnknownState then Err(OwnedUnknown)
    else if r.target.Session? && r.lifecycle == Live then
      if r.id in authorities && r.authority == Some(authorities[r.id].artifact)
      then Ok((RetainPersistent, "prior_operator_persistence_authority")) else Err(PersistenceMissing)
    else if r.lifecycle != Live then
      if r.target.Agent? && r.lifecycle == Terminal && !r.capabilities.archive && !r.capabilities.remove
      then Ok((RetainTerminalHostRecord, "terminal_agent_host_record_only"))
      else if r.target.Thread? && VisibleAction(r.capabilities).Some?
      then Ok((VisibleAction(r.capabilities).value, "terminal_visible_task_cleanup"))
      else Ok((NoAction, "already_terminal_or_absent"))
    else
      match r.target
      case Thread(_, _) =>
        if VisibleAction(r.capabilities).None? then Err(OwnedActive)
        else Ok((VisibleAction(r.capabilities).value, "dispose_goal_owned_visible_task"))
      case Agent(_, _) =>
        if r.capabilities.interrupt then Ok((Interrupt, "stop_goal_owned_collaboration_agent")) else Err(OwnedActive)
      case Provider(_, _, _) => Ok((StopProvider, "stop_goal_owned_provider_process"))
      case Server(_, _, _) => Ok((StopServer, "stop_goal_owned_board_server"))
      case Worktree(_, _, safe, current, dirty, integrated) =>
        if current then Err(WorktreeCurrent) else if dirty then Err(WorktreeDirty)
        else if !integrated then Err(WorktreeUnintegrated)
        else if !r.capabilities.remove || !safe then Err(WorktreeUnsafe)
        else Ok((RemoveWorktree, "remove_goal_owned_safe_worktree"))
      case _ => Err(OwnedActive)
  }

  /**
   What an action may be used for: only goal-owned resources are touched, never the Parent, never a working tree in use.
   */
  lemma ActionsAreSafe(r: Resource, authorities: map<string, Authority>)
    requires CompileAction(r, authorities).Ok?
    ensures var a := CompileAction(r, authorities).value.0;
      && (r.ownership != GoalOwned || r.target.ParentThread? ==> a == NoAction)
      && (a == RemoveWorktree ==>
        r.target.Worktree? && !r.target.current && !r.target.dirty && r.target.integrated && r.target.safe)
      && (a == RetainPersistent <==> r.ownership == GoalOwned && r.target.Session? && r.lifecycle == Live)
      && (a == RetainPersistent ==> r.id in authorities && r.authority == Some(authorities[r.id].artifact))
      && (r.ownership == GoalOwned && r.lifecycle == Live ==> a != NoAction && a != RetainTerminalHostRecord)
  {}

  // ---------------------------------------------------------------- inventories and authorities

  /** Taken by the anchored authority, and not changed since. */
  predicate Sealed(a: Anchors, i: Inventory) {
    i.authority == a.inventoryAuthority && i.sha == a.inventorySha(i.observedAt, i.complete, i.resources, i.authority)
  }

  ghost predicate InventoryOk(i: Inventory) {
    i.complete && forall a, b | 0 <= a < b < |i.resources| :: i.resources[a].id != i.resources[b].id
  }

  method ValidateInventory(a: Anchors, i: Inventory) returns (res: Result<(), Error>)
    ensures res.Ok? <==> Sealed(a, i) && InventoryOk(i)
  {
    if i.authority != a.inventoryAuthority {
      return Err(SchemaInvalid);
    }
    if !i.complete {
      return Err(InventoryIncomplete);
    }
    var seen: set<string> := {};
    for n := 0 to |i.resources|
      invariant forall k, l | 0 <= k < l < n :: i.resources[k].id != i.resources[l].id
      invariant forall x :: x in seen <==> exists k | 0 <= k < n :: i.resources[k].id == x
    {
      if i.resources[n].id in seen {
        return Err(InventoryIncomplete);
      }
      seen := seen + {i.resources[n].id};
    }
    if i.sha != a.inventorySha(i.observedAt, i.complete, i.resources, i.authority) {
      return Err(InventoryIncomplete);
    }
    return Ok(());
  }

  /** An authority counts when it is sealed, anchored, approved, already issued and not yet expired. */
  predicate AuthorityOk(a: Authority, now: int, anchors: Anchors) {
    && a.artifact == anchors.authoritySha(a.resourceId, a.approved, a.issuedAt, a.retainUntil)
    && a.artifact in anchors.allowed && a.approved && a.issuedAt <= now
      && (a.retainUntil.None? || a.retainUntil.value > now)
  }

  /** All count, one a resource. */
  ghost predicate AuthoritiesOk(rows: seq<Authority>, now: int, anchors: Anchors) {
    && (forall i | 0 <= i < |rows| :: AuthorityOk(rows[i], now, anchors))
    && (forall i, j | 0 <= i < j < |rows| :: rows[i].resourceId != rows[j].resourceId)
  }

  /** The authorities by the resource they keep. */
  function TableOf(rows: seq<Authority>): map<string, Authority> {
    if rows == [] then map[] else
    var last := rows[|rows| - 1];
    TableOf(rows[..|rows| - 1])[last.resourceId := last]
  }

  /** The table knows exactly these authorities, each under its resource. */
  lemma {:induction false} TableMeaning(rows: seq<Authority>)
    requires forall i, j | 0 <= i < j < |rows| :: rows[i].resourceId != rows[j].resourceId
    ensures forall i | 0 <= i < |rows| ::
      rows[i].resourceId in TableOf(rows) && TableOf(rows)[rows[i].resourceId] == rows[i]
    ensures forall id | id in TableOf(rows) :: TableOf(rows)[id] in rows && TableOf(rows)[id].resourceId == id
  {
    if rows != [] {
      TableMeaning(rows[..|rows| - 1]);
    }
  }

  lemma OneMoreAuthority(rows: seq<Authority>, row: Authority, now: int, anchors: Anchors)
    requires AuthoritiesOk(rows, now, anchors)
    ensures TableOf(rows + [row]) == TableOf(rows)[row.resourceId := row]
    ensures AuthoritiesOk(rows + [row], now, anchors) <==>
      row.resourceId !in TableOf(rows) && AuthorityOk(row, now, anchors)
  {
    hide AuthorityOk, TableOf;
    var all := rows + [row];
    TableMeaning(rows);
    assert all[|rows|] == row && forall i | 0 <= i < |rows| :: all[i] == rows[i];
    assert TableOf(all) == TableOf(rows)[row.resourceId := row] by { TableNext(rows, row); }
    if row.resourceId in TableOf(rows) {
      var i :| 0 <= i < |rows| && rows[i] == TableOf(rows)[row.resourceId];
      assert all[i].resourceId == all[|rows|].resourceId;
    }
  }

  lemma TableNext(rows: seq<Authority>, row: Authority)
    ensures TableOf(rows + [row]) == TableOf(rows)[row.resourceId := row]
  {
    assert (rows + [row])[..|rows|] == rows;
  }

  lemma SomeAuthorities(rows: seq<Authority>, n: nat, now: int, anchors: Anchors)
    requires AuthoritiesOk(rows, now, anchors) && n <= |rows|
    ensures AuthoritiesOk(rows[..n], now, anchors)
  {
    hide AuthorityOk;
  }

  method ValidateAuthorities(rows: seq<Authority>, now: int, anchors: Anchors)
    returns (res: Result<map<string, Authority>, Error>)
    ensures res.Ok? <==> AuthoritiesOk(rows, now, anchors)
    ensures res.Ok? ==> res.value == TableOf(rows)
  {
    hide AuthorityOk, AuthoritiesOk, TableOf;
    NoAuthorities(now, anchors);
    var table: map<string, Authority> := map[];
    for n := 0 to |rows|
      invariant AuthoritiesOk(rows[..n], now, anchors) && table == TableOf(rows[..n])
    {
      var row := rows[n];
      assert rows[..n + 1] == rows[..n] + [row];
      OneMoreAuthority(rows[..n], row, now, anchors);
      if AuthoritiesOk(rows, now, anchors) {
        SomeAuthorities(rows, n + 1, now, anchors);
      }
      if row.resourceId in table {
        return Err(SchemaInvalid);
      }
      if !AuthorityOk(row, now, anchors) {
        return Err(PersistenceMissing);
      }
      table := table[row.resourceId := row];
    }
    assert rows[..|rows|] == rows;
    return Ok(table);
  }

  lemma NoAuthorities(now: int, anchors: Anchors)
    ensures AuthoritiesOk([], now, anchors) && TableOf([]) == map[]
  {}

  // ---------------------------------------------------------------- the plan

  datatype PlannedResource = PlannedResource(resource: Resource, retainUntil: Option<int>)

  datatype ActionRow = ActionRow(id: string, resourceId: string, action: Action, target: Target, reason: string)

  datatype Retained = Retained(resourceId: string, reason: string)

  datatype Body = Body(
    goalId: string, taskId: string, createdAt: int,
    resources: seq<PlannedResource>, actions: seq<ActionRow>, retained: seq<Retained>,
    hostActionsExecuted: bool, boardMutated: bool, acceptanceClaimed: bool)

  datatype Plan = Plan(body: Body, sha: Digest)

  datatype Digests = Digests(actionId: (string, Action, Target) -> string, plan: Body -> Digest)

  function RowFor(d: Digests, r: Resource, decided: (Action, string)): ActionRow {
    ActionRow(d.actionId(r.id, decided.0, r.target), r.id, decided.0, r.target, decided.1)
  }

  function Kept(r: Resource, authorities: map<string, Authority>): PlannedResource {
    PlannedResource(r, if r.id in authorities then authorities[r.id].retainUntil else None)
  }

  /** What the retaining actions keep, in their order. */
  function RetainedOf(actions: seq<ActionRow>): seq<Retained> {
    if actions == [] then [] else
    var n := |actions| - 1;
    RetainedOf(actions[..n])
      + if Retains(actions[n].action) then [Retained(actions[n].resourceId, actions[n].reason)] else []
  }

  lemma {:induction false} RetainedKept(actions: seq<ActionRow>, k: nat) returns (i: nat)
    requires k < |RetainedOf(actions)|
    ensures i < |actions| && Retains(actions[i].action)
    ensures RetainedOf(actions)[k] == Retained(actions[i].resourceId, actions[i].reason)
  {
    var n := |actions| - 1;
    if k < |RetainedOf(actions[..n])| {
      i := RetainedKept(actions[..n], k);
    } else {
      i := n;
    }
  }

  lemma {:induction false} RetainedDistinct(actions: seq<ActionRow>)
    requires forall i, j | 0 <= i < j < |actions| :: actions[i].resourceId != actions[j].resourceId
    ensures forall i, j | 0 <= i < j < |RetainedOf(actions)| ::
      RetainedOf(actions)[i].resourceId != RetainedOf(actions)[j].resourceId
  {
    if actions != [] {
      var n := |actions| - 1;
      RetainedDistinct(actions[..n]);
      forall k | 0 <= k < |RetainedOf(actions[..n])|
        ensures RetainedOf(actions[..n])[k].resourceId != actions[n].resourceId
      {
        var i := RetainedKept(actions[..n], k);
      }
    }
  }

  /** The plan body lists exactly these resources, each beside the action decided for it, and what those retain. */
  ghost predicate Plans(d: Digests, b: Body, resources: seq<Resource>, authorities: map<string, Authority>) {
    && |b.resources| == |resources| == |b.actions|
    && (forall i | 0 <= i < |resources| ::
          && CompileAction(resources[i], authorities).Ok?
          && b.resources[i] == Kept(resources[i], authorities)
          && b.actions[i] == RowFor(d, resources[i], CompileAction(resources[i], authorities).value))
    && b.retained == RetainedOf(b.actions)
    && !b.hostActionsExecuted && !b.boardMutated && !b.acceptanceClaimed
  }

  function ResourceOrder(a: Resource, b: Resource): bool {
    StrLess(a.id, b.id)
  }

  ghost predicate DistinctIds(resources: seq<Resource>) {
    forall i, j | 0 <= i < j < |resources| :: resources[i].id != resources[j].id
  }

  lemma OneMorePlanned(d: Digests, b: Body, resources: seq<Resource>, authorities: map<string, Authority>, r: Resource)
    requires Plans(d, b, resources, authorities) && CompileAction(r, authorities).Ok?
    ensures var decided := CompileAction(r, authorities).value;
      Plans(d, b.(resources := b.resources + [Kept(r, authorities)], actions := b.actions + [RowFor(d, r, decided)],
                  retained := b.retained + if Retains(decided.0) then [Retained(r.id, decided.1)] else []),
            resources + [r], authorities)
  {
    hide CompileAction;
    var row := RowFor(d, r, CompileAction(r, authorities).value);
    assert (b.actions + [row])[..|b.actions|] == b.actions;
  }

  /** The planning loop of `plan`, over the sorted inventory. */
  method PlanActions(d: Digests, goalId: string, taskId: string, inventory: Inventory,
    authorities: map<string, Authority>)
    returns (res: Result<Plan, Error>)
    requires InventoryOk(inventory)
    ensures res.Ok? <==> forall r | r in inventory.resources :: CompileAction(r, authorities).Ok?
    ensures res.Ok? ==>
      && Plans(d, res.value.body, Sorted(ResourceOrder, inventory.resources), authorities)
      && res.value.sha == d.plan(res.value.body)
      && res.value.body.goalId == goalId && res.value.body.taskId == taskId
        && res.value.body.createdAt == inventory.observedAt
  {
    hide CompileAction, Sorted;
    var sorted := Sorted(ResourceOrder, inventory.resources);
    SameElements(ResourceOrder, inventory.resources);
    SortedDistinct(ResourceOrder, (r: Resource) => r.id, inventory.resources);
    var b := Body(goalId, taskId, inventory.observedAt, [], [], [], false, false, false);
    for n := 0 to |sorted|
      invariant Plans(d, b, sorted[..n], authorities)
      invariant b.goalId == goalId && b.taskId == taskId && b.createdAt == inventory.observedAt
    {
      var r := sorted[n];
      assert sorted[..n + 1] == sorted[..n] + [r];
      assert r in sorted && r in inventory.resources;
      var decided := CompileAction(r, authorities);
      if decided.Err? {
        return Err(decided.error);
      }
      OneMorePlanned(d, b, sorted[..n], authorities, r);
      b := b.(resources := b.resources + [Kept(r, authorities)], actions := b.actions + [RowFor(d, r, decided.value)],
              retained := b.retained + if Retains(decided.value.0) then [Retained(r.id, decided.value.1)] else []);
    }
    assert sorted[..|sorted|] == sorted;
    forall r | r in inventory.resources ensures CompileAction(r, authorities).Ok? {
      assert r in sorted;
      var i :| 0 <= i < |sorted| && sorted[i] == r;
    }
    return Ok(Plan(b, d.plan(b)));
  }

  // ---------------------------------------------------------------- the check every plan must pass

  ghost predicate ActionRowOk(d: Digests, b: Body, a: ActionRow) {
    exists i | 0 <= i < |b.resources| ::
      var r := b.resources[i].resource;
      && r.id == a.resourceId && SameClass(a.target, r.target)
      && a.id == d.actionId(a.resourceId, a.action, a.target)
      && (r.ownership != GoalOwned || r.target.ParentThread? ==> a.action == NoAction)
  }

  predicate HasAction(b: Body, id: string) {
    exists i | 0 <= i < |b.actions| :: b.actions[i].resourceId == id
  }

  predicate KeptByAction(b: Body, id: string) {
    exists i | 0 <= i < |b.actions| :: b.actions[i].resourceId == id && Retains(b.actions[i].action)
  }

  /** What `_validate_plan` accepts: one action per resource, none that may touch what the goal does not own. */
  ghost predicate PlanOk(d: Digests, p: Plan) {
    var b := p.body;
    && (forall i, j | 0 <= i < j < |b.resources| :: b.resources[i].resource.id != b.resources[j].resource.id)
    && (forall i, j | 0 <= i < j < |b.actions| :: b.actions[i].resourceId != b.actions[j].resourceId)
    && (forall i | 0 <= i < |b.actions| :: ActionRowOk(d, b, b.actions[i]))
    && (forall i | 0 <= i < |b.resources| :: HasAction(b, b.resources[i].resource.id))
    && (forall i, j | 0 <= i < j < |b.retained| :: b.retained[i].resourceId != b.retained[j].resourceId)
    && (forall k | 0 <= k < |b.retained| :: KeptByAction(b, b.retained[k].resourceId))
    && !b.hostActionsExecuted && !b.boardMutated && !b.acceptanceClaimed
    && p.sha == d.plan(b)
  }

  /** Every plan the planner emits passes the check. */
  lemma EmittedPlansPass(d: Digests, b: Body, resources: seq<Resource>, authorities: map<string, Authority>)
    requires Plans(d, b, resources, authorities) && DistinctIds(resources)
    ensures PlanOk(d, Plan(b, d.plan(b)))
  {
    hide CompileAction, RetainedOf;
    RetainedDistinct(b.actions);
    forall i | 0 <= i < |b.actions| ensures ActionRowOk(d, b, b.actions[i]) {
      ActionsAreSafe(resources[i], authorities);
      assert b.resources[i].resource == resources[i];
    }
    forall i | 0 <= i < |b.resources| ensures HasAction(b, b.resources[i].resource.id) {
      assert b.actions[i].resourceId == resources[i].id;
    }
    forall k | 0 <= k < |b.retained| ensures KeptByAction(b, b.retained[k].resourceId) {
      var i := RetainedKept(b.actions, k);
      assert b.actions[i].resourceId == b.retained[k].resourceId;
    }
  }

  ghost predicate ResourceTable(table: map<string, Resource>, rows: seq<PlannedResource>) {
    && (forall i | 0 <= i < |rows| :: rows[i].resource.id in table && table[rows[i].resource.id] == rows[i].resource)
    && (forall id | id in table ::
      exists i | 0 <= i < |rows| :: rows[i].resource == table[id] && rows[i].resource.id == id)
  }

  lemma NoResources()
    ensures ResourceTable(map[], [])
  {}

  lemma InResourceTable(table: map<string, Resource>, rows: seq<PlannedResource>, n: nat, id: string)
    requires n <= |rows| && ResourceTable(table, rows[..n])
    ensures id in table <==> exists i | 0 <= i < n :: rows[i].resource.id == id
  {
    if i :| 0 <= i < n && rows[i].resource.id == id {
      assert rows[..n][i] == rows[i];
    }
  }

  method CheckResources(b: Body) returns (res: Result<map<string, Resource>, Error>)
    ensures res.Ok? <==>
      forall i, j | 0 <= i < j < |b.resources| :: b.resources[i].resource.id != b.resources[j].resource.id
    ensures res.Ok? ==> ResourceTable(res.value, b.resources)
  {
    hide ResourceTable;
    assert ResourceTable(map[], []) by { NoResources(); }
    var table: map<string, Resource> := map[];
    for n := 0 to |b.resources|
      invariant ResourceTable(table, b.resources[..n])
      invariant forall i, j | 0 <= i < j < n :: b.resources[i].resource.id != b.resources[j].resource.id
    {
      var row := b.resources[n];
      assert b.resources[..n + 1] == b.resources[..n] + [row];
      InResourceTable(table, b.resources, n, row.resource.id);
      if row.resource.id in table {
        return Err(SchemaInvalid);
      }
      ResourceTableGrows(table, b.resources[..n], row);
      table := table[row.resource.id := row.resource];
    }
    assert b.resources[..|b.resources|] == b.resources;
    return Ok(table);
  }

  lemma ResourceTableGrows(table: map<string, Resource>, rows: seq<PlannedResource>, row: PlannedResource)
    requires ResourceTable(table, rows) && row.resource.id !in table
    ensures ResourceTable(table[row.resource.id := row.resource], rows + [row])
  {
    var all, next := rows + [row], table[row.resource.id := row.resource];
    assert all[|rows|] == row;
    forall id | id in next ensures exists i | 0 <= i < |all| ::
      all[i].resource == next[id] && all[i].resource.id == id
    {
      if id != row.resource.id {
        var i :| 0 <= i < |rows| && rows[i].resource == table[id] && rows[i].resource.id == id;
        assert all[i].resource == next[id];
      }
    }
  }

  lemma ActionRowByTable(d: Digests, b: Body, table: map<string, Resource>, a: ActionRow)
    requires ResourceTable(table, b.resources)
    ensures ActionRowOk(d, b, a) <==>
      && a.resourceId in table && SameClass(a.target, table[a.resourceId].target)
      && a.id == d.actionId(a.resourceId, a.action, a.target)
      && (table[a.resourceId].ownership != GoalOwned || table[a.resourceId].target.ParentThread? ==>
        a.action == NoAction)
  {
    if a.resourceId in table {
      var i :| 0 <= i < |b.resources| && b.resources[i].resource == table[a.resourceId]
        && b.resources[i].resource.id == a.resourceId;
    }
  }

  /** The action by resource, as far as it was read. */
  ghost predicate ActionTable(table: map<string, Action>, rows: seq<ActionRow>) {
    && (forall i | 0 <= i < |rows| :: rows[i].resourceId in table && table[rows[i].resourceId] == rows[i].action)
    && (forall id | id in table ::
      exists i | 0 <= i < |rows| :: rows[i].resourceId == id && rows[i].action == table[id])
  }

  lemma ActionTableGrows(table: map<string, Action>, rows: seq<ActionRow>, row: ActionRow)
    requires ActionTable(table, rows) && row.resourceId !in table
    ensures ActionTable(table[row.resourceId := row.action], rows + [row])
  {
    var all, next := rows + [row], table[row.resourceId := row.action];
    assert all[|rows|] == row;
    forall id | id in next ensures exists i | 0 <= i < |all| :: all[i].resourceId == id && all[i].action == next[id] {
      if id != row.resourceId {
        var i :| 0 <= i < |rows| && rows[i].resourceId == id && rows[i].action == table[id];
        assert all[i].action == next[id];
      }
    }
  }

  method CheckActions(d: Digests, b: Body, resources: map<string, Resource>)
    returns (res: Result<map<string, Action>, Error>)
    requires ResourceTable(resources, b.resources)
    ensures res.Ok? ==> ActionTable(res.value, b.actions)
    ensures res.Ok? <==>
      && (forall i, j | 0 <= i < j < |b.actions| :: b.actions[i].resourceId != b.actions[j].resourceId)
      && (forall i | 0 <= i < |b.actions| :: ActionRowOk(d, b, b.actions[i]))
  {
    hide ActionRowOk, ResourceTable, SameClass;
    var table: map<string, Action> := map[];
    for n := 0 to |b.actions|
      invariant ActionTable(table, b.actions[..n])
      invariant forall i, j | 0 <= i < j < n :: b.actions[i].resourceId != b.actions[j].resourceId
      invariant forall i | 0 <= i < n :: ActionRowOk(d, b, b.actions[i])
    {
      var row := b.actions[n];
      assert b.actions[..n + 1] == b.actions[..n] + [row];
      ActionRowByTable(d, b, resources, row);
      if row.resourceId in table {
        var i :| 0 <= i < n && b.actions[..n][i].resourceId == row.resourceId;
        assert b.actions[i].resourceId == b.actions[n].resourceId;
        return Err(SchemaInvalid);
      }
      if row.resourceId !in resources || !SameClass(row.target, resources[row.resourceId].target) {
        return Err(SchemaInvalid);
      }
      if row.id != d.actionId(row.resourceId, row.action, row.target) {
        return Err(ActionMismatch);
      }
      var owner := resources[row.resourceId];
      if owner.ownership != GoalOwned && row.action != NoAction {
        return Err(MutationForbidden);
      }
      if owner.target.ParentThread? && row.action != NoAction {
        return Err(ParentForbidden);
      }
      forall i | 0 <= i < n ensures b.actions[i].resourceId != row.resourceId {
        assert b.actions[..n][i].resourceId in table;
      }
      ActionTableGrows(table, b.actions[..n], row);
      table := table[row.resourceId := row.action];
    }
    assert b.actions[..|b.actions|] == b.actions;
    return Ok(table);
  }

  lemma KeptMeans(b: Body, table: map<string, Action>, id: string)
    requires ActionTable(table, b.actions)
    requires forall i, j | 0 <= i < j < |b.actions| :: b.actions[i].resourceId != b.actions[j].resourceId
    ensures KeptByAction(b, id) <==> id in table && Retains(table[id])
  {}

  method CheckRetained(b: Body, table: map<string, Action>) returns (res: Result<(), Error>)
    requires ActionTable(table, b.actions)
    requires forall i, j | 0 <= i < j < |b.actions| :: b.actions[i].resourceId != b.actions[j].resourceId
    ensures res.Ok? <==>
      && (forall i, j | 0 <= i < j < |b.retained| :: b.retained[i].resourceId != b.retained[j].resourceId)
      && (forall k | 0 <= k < |b.retained| :: KeptByAction(b, b.retained[k].resourceId))
  {
    hide ActionTable, KeptByAction;
    var ids: set<string> := {};
    for n := 0 to |b.retained|
      invariant forall x :: x in ids <==> exists k | 0 <= k < n :: b.retained[k].resourceId == x
      invariant forall i, j | 0 <= i < j < n :: b.retained[i].resourceId != b.retained[j].resourceId
      invariant forall k | 0 <= k < n :: KeptByAction(b, b.retained[k].resourceId)
    {
      var id := b.retained[n].resourceId;
      KeptMeans(b, table, id);
      if id in ids || id !in table || !Retains(table[id]) {
        return Err(SchemaInvalid);
      }
      ids := ids + {id};
    }
    return Ok(());
  }

  /** `_validate_plan`. */
  method Check(d: Digests, p: Plan) returns (res: Result<(), Error>)
    ensures res.Ok? <==> PlanOk(d, p)
  {
    hide ActionRowOk, KeptByAction, SameClass;
    var b := p.body;
    var resources := CheckResources(b);
    if resources.Err? {
      return Err(resources.error);
    }
    var actions := CheckActions(d, b, resources.value);
    if actions.Err? {
      return Err(actions.error);
    }
    assert forall id :: HasAction(b, id) <==> id in actions.value;
    if exists i | 0 <= i < |b.resources| :: b.resources[i].resource.id !in actions.value {
      return Err(SchemaInvalid);
    }
    var retained := CheckRetained(b, actions.value);
    if retained.Err? {
      return retained;
    }
    if b.hostActionsExecuted || b.boardMutated || b.acceptanceClaimed {
      return Err(SchemaInvalid);
    }
    if p.sha != d.plan(b) {
      return Err(DigestMismatch);
    }
    return Ok(());
  }
}
