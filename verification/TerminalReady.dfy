/**
 From plan to readiness: the Parent is protected, children and resources correspond one to one, and a ready inventory
 differs from the planned one only where the goal owned something, which is now finished.
 */
module TerminalReady {
  import opened Common
  import opened Sorting
  import opened TerminalPlan
  import C = ChildCloseout
  import K = ChildPlanCheck

  // ---------------------------------------------------------------- the protected Parent

  predicate IsParentThread(parent: C.Parent, r: Resource) {
    r.target == ParentThread(parent.thread, parent.host) && r.ownership == Shared && r.lifecycle == Live
  }

  predicate IsParentAgent(parent: C.Parent, r: Resource) {
    r.target == Agent(parent.path, parent.host) && r.ownership == Shared && r.lifecycle == Live
  }

  function Those(rows: seq<Resource>, p: Resource -> bool): seq<Resource> {
    if rows == [] then [] else Those(rows[..|rows| - 1], p) + if p(rows[|rows| - 1]) then [rows[|rows| - 1]] else []
  }

  lemma {:induction false} ThoseAre(rows: seq<Resource>, p: Resource -> bool)
    ensures forall r :: r in Those(rows, p) <==> r in rows && p(r)
  {
    if rows != [] {
      ThoseAre(rows[..|rows| - 1], p);
      assert rows == rows[..|rows| - 1] + [rows[|rows| - 1]];
    }
  }

  /** `_protected_parent`: exactly one thread and one agent of the anchored Parent, shared and active. */
  function ProtectedParent(parent: C.Parent, anchored: string, rows: seq<Resource>): Result<(Resource, Resource),
    Error>
  {
    var threads := Those(rows, (r: Resource) => IsParentThread(parent, r));
    var agents := Those(rows, (r: Resource) => IsParentAgent(parent, r));
    if anchored != parent.thread || |threads| != 1 || |agents| != 1 then Err(ChildPlanMismatch)
    else Ok((threads[0], agents[0]))
  }

  lemma ProtectedAre(parent: C.Parent, anchored: string, rows: seq<Resource>)
    requires ProtectedParent(parent, anchored, rows).Ok?
    ensures var (thread, agent) := ProtectedParent(parent, anchored, rows).value;
      && thread in rows && IsParentThread(parent, thread)
      && agent in rows && IsParentAgent(parent, agent)
  {
    ThoseAre(rows, (r: Resource) => IsParentThread(parent, r));
    ThoseAre(rows, (r: Resource) => IsParentAgent(parent, r));
  }

  // ---------------------------------------------------------------- children and resources, one to one

  predicate VisibleChild(host: string, r: Resource) {
    r.target.Thread? && r.ownership == GoalOwned && r.target.hostId == host
  }

  /** A goal-owned agent under the Parent; a finished host record that nobody planned for does not count. */
  predicate AgentChild(parent: C.Parent, paths: set<string>, r: Resource) {
    && r.target.Agent? && r.ownership == GoalOwned && r.target.hostId == parent.host
      && C.Under(r.target.agentId, parent.path)
    && !((r.lifecycle == Terminal || r.lifecycle == Absent) && !r.capabilities.archive && !r.capabilities.remove
         && r.target.agentId !in paths)
  }

  /** No two threads, and no two agents, share a target. */
  ghost predicate TargetsDistinct(rows: seq<Resource>) {
    forall i, j | 0 <= i < j < |rows| && (rows[i].target.Thread? || rows[i].target.Agent?) ::
      rows[i].target != rows[j].target
  }

  ghost predicate TargetTable(table: map<Target, Resource>, rows: seq<Resource>) {
    && (forall i | 0 <= i < |rows| && (rows[i].target.Thread? || rows[i].target.Agent?) ::
          rows[i].target in table && table[rows[i].target] == rows[i])
    && (forall t | t in table :: (t.Thread? || t.Agent?) && table[t] in rows && table[t].target == t)
  }

  /** The two dictionaries by exact target. */
  method ByTarget(rows: seq<Resource>) returns (res: Result<map<Target, Resource>, Error>)
    ensures res.Ok? <==> TargetsDistinct(rows)
    ensures res.Ok? ==> TargetTable(res.value, rows)
  {
    var table: map<Target, Resource> := map[];
    for n := 0 to |rows|
      invariant TargetTable(table, rows[..n])
      invariant TargetsDistinct(rows[..n])
    {
      var r := rows[n];
      assert rows[..n + 1] == rows[..n] + [r];
      if r.target.Thread? || r.target.Agent? {
        if r.target in table {
          var i :| 0 <= i < n && rows[..n][i] == table[r.target];
          assert rows[i].target == rows[n].target;
          return Err(ChildPlanMismatch);
        }
        table := table[r.target := r];
      }
    }
    assert rows[..|rows|] == rows;
    return Ok(table);
  }

  function Threads(children: seq<C.Descendant>): set<string> {
    set i | 0 <= i < |children| :: children[i].thread
  }

  function Paths(children: seq<C.Descendant>): set<string> {
    set i | 0 <= i < |children| :: children[i].path
  }

  /** The planned children are exactly the goal's visible threads, and exactly its agents, at the Parent's host. */
  ghost predicate Bijective(parent: C.Parent, children: seq<C.Descendant>, rows: seq<Resource>) {
    && (forall t ::
      t in Threads(children) <==> exists r | r in rows :: VisibleChild(parent.host, r) && r.target.threadId == t)
    && (forall p ::
      p in Paths(children) <==> exists r | r in rows :: AgentChild(parent, Paths(children), r) && r.target.agentId == p)
    && |Threads(children)| == |Paths(children)|
  }

  /** The Parent is protected, and the planned children are the goal's threads and agents. */
  ghost predicate Matched(parent: C.Parent, children: seq<C.Descendant>, anchored: string, rows: seq<Resource>) {
    && ProtectedParent(parent, anchored, rows).Ok? && TargetsDistinct(rows)
    && parent.thread !in Threads(children) && parent.path !in Paths(children)
    && Bijective(parent, children, rows)
  }

  datatype Pair = Pair(thread: Resource, agent: Resource)

  /** Every child has its own thread and its own agent, both goal-owned, both in the inventory. */
  ghost predicate Paired(parent: C.Parent, children: seq<C.Descendant>, rows: seq<Resource>, pairs: map<string, Pair>) {
    && pairs.Keys == Threads(children)
    && forall i | 0 <= i < |children| ::
         var c := children[i];
         && c.thread in pairs
         && pairs[c.thread].thread in rows && pairs[c.thread].thread.ownership == GoalOwned
         && pairs[c.thread].thread.target == Thread(c.thread, parent.host)
         && pairs[c.thread].agent in rows && pairs[c.thread].agent.ownership == GoalOwned
         && pairs[c.thread].agent.target == Agent(c.path, parent.host)
  }

  lemma TargetFound(table: map<Target, Resource>, rows: seq<Resource>, r: Resource)
    requires TargetTable(table, rows) && r in rows && (r.target.Thread? || r.target.Agent?)
    ensures r.target in table && table[r.target] == r
  {
    var i :| 0 <= i < |rows| && rows[i] == r;
  }

  /** What the terminal plan decided, by resource, and what the closeout plan does with its children. */
  datatype Steps = Steps(decided: map<string, TerminalPlan.Action>, closeout: seq<C.Action>)

  predicate Interrupts(closeout: seq<C.Action>, thread: string) {
    exists i | 0 <= i < |closeout| :: closeout[i].thread == thread && closeout[i].kind == C.Interrupt
  }

  /** The terminal plan archives the child's thread, and interrupts its agent if the closeout plan does. */
  predicate StepsFit(steps: Steps, thread: string, pair: Pair) {
    && pair.thread.id in steps.decided && pair.agent.id in steps.decided
    && steps.decided[pair.thread.id] in {Archive, ArchiveUnpin}
    && (Interrupts(steps.closeout, thread) ==> steps.decided[pair.agent.id] == TerminalPlan.Interrupt)
  }

  /** The plans agree on every child, whichever resources are its. */
  ghost predicate StepsAgree(parent: C.Parent, children: seq<C.Descendant>, rows: seq<Resource>, steps: Steps) {
    forall i, thread, agent | 0 <= i < |children| && thread in rows && agent in rows
      && thread.target == Thread(children[i].thread, parent.host)
        && agent.target == Agent(children[i].path, parent.host) ::
      StepsFit(steps, children[i].thread, Pair(thread, agent))
  }

  /** The goal owns a thread and an agent for this child. */
  ghost predicate Present(parent: C.Parent, paths: set<string>, rows: seq<Resource>, child: C.Descendant) {
    && (exists r | r in rows :: VisibleChild(parent.host, r) && r.target.threadId == child.thread)
    && (exists r | r in rows :: AgentChild(parent, paths, r) && r.target.agentId == child.path)
  }

  /** The last lookup, child by child, can no longer fail; only the two plans can still disagree. */
  method PairUp(parent: C.Parent, children: seq<C.Descendant>, rows: seq<Resource>, table: map<Target, Resource>,
    ghost paths: set<string>, steps: Option<Steps>)
    returns (res: Result<map<string, Pair>, Error>)
    requires forall i, j | 0 <= i < j < |children| :: children[i].thread != children[j].thread
    requires steps.Some? ==> forall r | r in rows :: r.id in steps.value.decided
    requires TargetTable(table, rows)
    requires forall i | 0 <= i < |children| :: Present(parent, paths, rows, children[i])
    ensures res.Ok? <==> (steps.Some? ==> StepsAgree(parent, children, rows, steps.value))
    ensures res.Ok? ==> Paired(parent, children, rows, res.value)
  {
    hide Paired, TargetTable, StepsFit, Interrupts, Present;
    NoPairs(parent, rows);
    var pairs: map<string, Pair> := map[];
    for n := 0 to |children|
      invariant Paired(parent, children[..n], rows, pairs)
      invariant steps.Some? ==> StepsAgree(parent, children[..n], rows, steps.value)
    {
      var child := children[n];
      assert children[..n + 1] == children[..n] + [child];
      FindsBoth(table, rows, parent, paths, child);
      var thread, agent := Thread(child.thread, parent.host), Agent(child.path, parent.host);
      if thread !in table || agent !in table || table[thread].ownership != GoalOwned
        || table[agent].ownership != GoalOwned
      {
        assert false;
      }
      var pair := Pair(table[thread], table[agent]);
      OneMorePair(parent, children[..n], rows, pairs, child, pair);
      pairs := pairs[child.thread := pair];
      if steps.Some? {
        OnlyPair(table, rows, parent, child, pair);
        assert children[n] == child && pair.thread in rows && pair.agent in rows;
        if steps.value.decided[pair.thread.id] !in {Archive, ArchiveUnpin} {
          MisfitShows(steps.value, child.thread, pair);
          return Err(ChildPlanMismatch);
        }
        if Interrupts(steps.value.closeout, child.thread)
          && steps.value.decided[pair.agent.id] != TerminalPlan.Interrupt
        {
          MisfitShows(steps.value, child.thread, pair);
          return Err(ChildPlanMismatch);
        }
        assert StepsFit(steps.value, child.thread, pair) by { FitShows(steps.value, child.thread, pair); }
      }
    }
    assert children[..|children|] == children;
    return Ok(pairs);
  }

  /** `_child_resource_maps` over a validated closeout plan. */
  method ChildResources(parent: C.Parent, children: seq<C.Descendant>, anchored: string, rows: seq<Resource>,
    steps: Option<Steps>)
    returns (res: Result<map<string, Pair>, Error>)
    requires forall i, j | 0 <= i < j < |children| ::
      children[i].thread != children[j].thread && children[i].path != children[j].path
    requires steps.Some? ==> forall r | r in rows :: r.id in steps.value.decided
    ensures res.Ok? <==>
      && Matched(parent, children, anchored, rows)
      && (steps.Some? ==> StepsAgree(parent, children, rows, steps.value))
    ensures res.Ok? ==> Paired(parent, children, rows, res.value)
  {
    hide ProtectedParent, C.Under, Paired, TargetTable, TargetsDistinct, StepsAgree;
    var protected := ProtectedParent(parent, anchored, rows);
    if protected.Err? {
      return Err(protected.error);
    }
    var table := ByTarget(rows);
    if table.Err? {
      return Err(table.error);
    }
    var threads, paths := Threads(children), Paths(children);
    if parent.thread in threads || parent.path in paths {
      return Err(ParentForbidden);
    }
    var visible := set r | r in rows && VisibleChild(parent.host, r) :: r.target.threadId;
    var agents := set r | r in rows && AgentChild(parent, paths, r) :: r.target.agentId;
    if threads != visible || paths != agents || |threads| != |paths| {
      return Err(ChildPlanMismatch);
    }
    forall i | 0 <= i < |children| ensures Present(parent, paths, rows, children[i]) {
      assert children[i].thread in visible && children[i].path in agents;
    }
    res := PairUp(parent, children, rows, table.value, paths, steps);
  }

  lemma MisfitShows(steps: Steps, thread: string, pair: Pair)
    requires pair.thread.id in steps.decided && pair.agent.id in steps.decided
    requires || steps.decided[pair.thread.id] !in {Archive, ArchiveUnpin}
             || (Interrupts(steps.closeout, thread) && steps.decided[pair.agent.id] != TerminalPlan.Interrupt)
    ensures !StepsFit(steps, thread, pair)
  {}

  lemma FitShows(steps: Steps, thread: string, pair: Pair)
    requires pair.thread.id in steps.decided && pair.agent.id in steps.decided
    requires steps.decided[pair.thread.id] in {Archive, ArchiveUnpin}
    requires Interrupts(steps.closeout, thread) ==> steps.decided[pair.agent.id] == TerminalPlan.Interrupt
    ensures StepsFit(steps, thread, pair)
  {}

  /** The tables hold the only resources with these targets. */
  lemma OnlyPair(table: map<Target, Resource>, rows: seq<Resource>, parent: C.Parent, child: C.Descendant, pair: Pair)
    requires TargetTable(table, rows)
    requires Thread(child.thread, parent.host) in table && pair.thread == table[Thread(child.thread, parent.host)]
    requires Agent(child.path, parent.host) in table && pair.agent == table[Agent(child.path, parent.host)]
    ensures pair.thread.target == Thread(child.thread, parent.host)
      && pair.agent.target == Agent(child.path, parent.host)
    ensures forall r | r in rows && r.target == Thread(child.thread, parent.host) :: r == pair.thread
    ensures forall r | r in rows && r.target == Agent(child.path, parent.host) :: r == pair.agent
  {
    forall r | r in rows && (r.target.Thread? || r.target.Agent?) ensures r.target in table && table[r.target] == r {
      TargetFound(table, rows, r);
    }
  }

  lemma NoPairs(parent: C.Parent, rows: seq<Resource>)
    ensures Paired(parent, [], rows, map[])
  {}

  lemma FindsBoth(table: map<Target, Resource>, rows: seq<Resource>, parent: C.Parent, paths: set<string>,
    child: C.Descendant)
    requires TargetTable(table, rows)
    requires Present(parent, paths, rows, child)
    ensures var thread, agent := Thread(child.thread, parent.host), Agent(child.path, parent.host);
      && thread in table && agent in table
      && table[thread].ownership == GoalOwned && table[agent].ownership == GoalOwned
      && table[thread] in rows && table[agent] in rows
      && table[thread].target == thread && table[agent].target == agent
  {
    hide C.Under;
    var r :| r in rows && VisibleChild(parent.host, r) && r.target.threadId == child.thread;
    TargetFound(table, rows, r);
    assert r.target == Thread(child.thread, parent.host);
    var s :| s in rows && AgentChild(parent, paths, s) && s.target.agentId == child.path;
    TargetFound(table, rows, s);
    assert s.target == Agent(child.path, parent.host);
  }

  lemma OneMorePair(parent: C.Parent, children: seq<C.Descendant>, rows: seq<Resource>, pairs: map<string, Pair>,
    child: C.Descendant, pair: Pair)
    requires Paired(parent, children, rows, pairs) && child.thread !in Threads(children)
    requires pair.thread in rows && pair.thread.ownership == GoalOwned
      && pair.thread.target == Thread(child.thread, parent.host)
    requires pair.agent in rows && pair.agent.ownership == GoalOwned
      && pair.agent.target == Agent(child.path, parent.host)
    ensures Paired(parent, children + [child], rows, pairs[child.thread := pair])
  {
    var all := children + [child];
    assert all[|children|] == child;
    assert Threads(all) == Threads(children) + {child.thread} by {
      forall t ensures t in Threads(all) <==> t in Threads(children) || t == child.thread {
        if t in Threads(children) {
          var i :| 0 <= i < |children| && children[i].thread == t;
          assert all[i].thread == t;
        }
      }
    }
    forall i | 0 <= i < |children| ensures children[i].thread in Threads(children) && all[i] == children[i] {}
  }

  // ---------------------------------------------------------------- ready

  /** A goal-owned resource is finished, or is a session kept under an authority that has not expired. */
  predicate Finished(before: PlannedResource, after: Resource, action: TerminalPlan.Action, now: int) {
    || after.lifecycle == Terminal || after.lifecycle == Absent
    || (&& after.lifecycle == Live && after.target.Session? && action == RetainPersistent
        && before.resource.authority.Some? && (before.retainUntil.None? || before.retainUntil.value > now))
  }

  /** What the post-inventory may say about one planned resource. */
  predicate Settled(before: PlannedResource, after: Resource, row: ActionRow, now: int) {
    var r := before.resource;
    && SameClass(after.target, r.target) && after.ownership == r.ownership
    && after.target == row.target && after.evidence == r.evidence
    && if r.ownership == GoalOwned then Finished(before, after, row.action, now)
       else
         && row.action == NoAction && after.lifecycle == r.lifecycle
         && after.capabilities == r.capabilities && after.authority == r.authority
  }

  /** `_target_drift` and the checks on one resource, with their errors. */
  function CheckResource(before: PlannedResource, after: Resource, row: ActionRow, now: int): Result<(), Error> {
    var r := before.resource;
    if !SameClass(after.target, r.target) then Err(TargetChanged)
    else if after.ownership != r.ownership then Err(MutationForbidden)
    else if after.target != row.target then
      Err(if (after.target.Provider? && row.target.Provider? && after.target.pid == row.target.pid
        && after.target.startedAt != row.target.startedAt)
             || (after.target.Server? && row.target.Server? && after.target.pid == row.target.pid
               && after.target.startedAt != row.target.startedAt)
          then PidReused else TargetChanged)
    else if after.evidence != r.evidence then Err(MutationForbidden)
    else if r.ownership != GoalOwned then
      if row.action != NoAction || after.lifecycle != r.lifecycle || after.capabilities != r.capabilities
        || after.authority != r.authority
      then Err(MutationForbidden) else Ok(())
    else if after.lifecycle == UnknownState then Err(OwnedUnknown)
    else if after.lifecycle == Live then
      match after.target
      case Provider(_, _, _) => Err(ProviderRemains)
      case Server(_, _, _) => Err(ListenerRemains)
      case Worktree(_, _, _, current, dirty, integrated) =>
        Err(if current then WorktreeCurrent else if dirty then WorktreeDirty else if !integrated
          then WorktreeUnintegrated else WorktreeUnsafe)
      case Session(_, _) =>
        if row.action != RetainPersistent || r.authority.None? then Err(OwnedActive)
        else if before.retainUntil.Some? && before.retainUntil.value <= now then Err(PersistenceMissing)
        else Ok(())
      case _ => Err(OwnedActive)
    else Ok(())
  }

  lemma CheckedIsSettled(before: PlannedResource, after: Resource, row: ActionRow, now: int)
    ensures CheckResource(before, after, row, now).Ok? <==> Settled(before, after, row, now)
  {}

  predicate Has(rows: seq<Resource>, id: string) {
    exists i | 0 <= i < |rows| :: rows[i].id == id
  }

  predicate HasPlanned(rows: seq<PlannedResource>, id: string) {
    exists i | 0 <= i < |rows| :: rows[i].resource.id == id
  }

  function ById(rows: seq<Resource>): (table: map<string, Resource>)
    requires DistinctIds(rows)
    ensures forall i | 0 <= i < |rows| :: rows[i].id in table && table[rows[i].id] == rows[i]
    ensures forall id | id in table :: Has(rows, id)
  {
    map i | 0 <= i < |rows| :: rows[i].id := rows[i]
  }

  /** Whatever the post-inventory says about a planned resource is settled. */
  ghost predicate AllSettled(b: Body, post: Inventory, i: nat)
    requires i < |b.resources| == |b.actions|
  {
    forall j | 0 <= j < |post.resources| && post.resources[j].id == b.resources[i].resource.id ::
      Settled(b.resources[i], post.resources[j], b.actions[i], post.observedAt)
  }

  /** The post-inventory covers the same resources and every one of them is settled. */
  ghost predicate ReadyOk(b: Body, post: Inventory)
    requires |b.resources| == |b.actions|
  {
    && (forall id :: HasPlanned(b.resources, id) <==> Has(post.resources, id))
    && (forall i | 0 <= i < |b.resources| :: AllSettled(b, post, i))
  }

  lemma SettledById(b: Body, post: Inventory, table: map<string, Resource>, i: nat)
    requires InventoryOk(post) && table == ById(post.resources)
    requires i < |b.resources| == |b.actions| && b.resources[i].resource.id in table
    ensures AllSettled(b, post, i) <==>
      Settled(b.resources[i], table[b.resources[i].resource.id], b.actions[i], post.observedAt)
  {
    hide Settled;
    var id := b.resources[i].resource.id;
    assert Has(post.resources, id);
    var j :| 0 <= j < |post.resources| && post.resources[j].id == id;
    assert table[id] == post.resources[j];
  }

  /** The comparison loop of `_compute_ready`, over a plan whose rows go together. */
  method Compare(b: Body, post: Inventory) returns (res: Result<(), Error>)
    requires |b.resources| == |b.actions| && InventoryOk(post)
    ensures res.Ok? <==> ReadyOk(b, post)
  {
    hide Settled, AllSettled, CheckResource;
    var table := ById(post.resources);
    var planned := set i | 0 <= i < |b.resources| :: b.resources[i].resource.id;
    assert forall id :: id in planned <==> HasPlanned(b.resources, id);
    assert forall id :: id in table.Keys <==> Has(post.resources, id);
    if planned != table.Keys {
      if exists i | 0 <= i < |b.resources| ::
        b.resources[i].resource.id !in table && b.resources[i].resource.ownership != GoalOwned
      {
        return Err(MutationForbidden);
      }
      return Err(if table.Keys <= planned then InventoryIncomplete else MutationForbidden);
    }
    for n := 0 to |b.resources|
      invariant forall i | 0 <= i < n :: AllSettled(b, post, i)
    {
      var before, row := b.resources[n], b.actions[n];
      assert before.resource.id in planned;
      var after := table[before.resource.id];
      CheckedIsSettled(before, after, row, post.observedAt);
      SettledById(b, post, table, n);
      var checked := CheckResource(before, after, row, post.observedAt);
      if checked.Err? {
        return Err(checked.error);
      }
    }
    return Ok(());
  }

  /** How a resource of the initial inventory and its successor may differ. */
  predicate Successor(r: Resource, s: Resource, authorities: map<string, Authority>, now: int) {
    if r.ownership != GoalOwned then s == r else
    && s.ownership == GoalOwned && s.target == r.target && s.evidence == r.evidence
    && (|| s.lifecycle == Terminal || s.lifecycle == Absent
        || (&& s.lifecycle == Live && s.target.Session? && r.lifecycle == Live
            && r.id in authorities && r.authority == Some(authorities[r.id].artifact)
            && (authorities[r.id].retainUntil.None? || authorities[r.id].retainUntil.value > now)))
  }

  /** Where the initial inventory and the post-inventory may differ. */
  ghost predicate Framed(initial: seq<Resource>, post: Inventory, authorities: map<string, Authority>) {
    && (forall id :: Has(initial, id) <==> Has(post.resources, id))
    && (forall r, s | r in initial && s in post.resources && r.id == s.id ::
      Successor(r, s, authorities, post.observedAt))
  }

  /** One planned resource and its successor in the post-inventory. */
  lemma FramedOne(d: Digests, r: Resource, s: Resource, authorities: map<string, Authority>, now: int)
    requires CompileAction(r, authorities).Ok? && r.id == s.id
    requires Settled(Kept(r, authorities), s, RowFor(d, r, CompileAction(r, authorities).value), now)
    ensures Successor(r, s, authorities, now)
  {
    ActionsAreSafe(r, authorities);
  }

  lemma HasIn(rows: seq<Resource>, id: string)
    ensures Has(rows, id) <==> exists r | r in rows :: r.id == id
  {
    if r :| r in rows && r.id == id {
      var i :| 0 <= i < |rows| && rows[i] == r;
      assert rows[i].id == id;
    }
    if Has(rows, id) {
      var i :| 0 <= i < |rows| && rows[i].id == id;
      assert rows[i] in rows;
    }
  }

  /**
   The frame theorem: when a plan emitted from an inventory is found ready, the set of resources is unchanged, nothing
   the goal does not own changed in any field, and everything it owns is finished or kept under an unexpired authority.
   */
  lemma ReadyIsFrame(d: Digests, b: Body, initial: seq<Resource>, authorities: map<string, Authority>, post: Inventory)
    requires Plans(d, b, Sorted(ResourceOrder, initial), authorities) && ReadyOk(b, post)
    ensures Framed(initial, post, authorities)
  {
    hide Settled, CompileAction, Sorted, Successor;
    var sorted := Sorted(ResourceOrder, initial);
    SameElements(ResourceOrder, initial);
    forall r, s | r in initial && s in post.resources && r.id == s.id
      ensures Successor(r, s, authorities, post.observedAt)
    {
      assert r in sorted;
      var i :| 0 <= i < |sorted| && sorted[i] == r;
      var j :| 0 <= j < |post.resources| && post.resources[j] == s;
      assert AllSettled(b, post, i);
      FramedOne(d, r, s, authorities, post.observedAt);
    }
    forall id ensures Has(initial, id) <==> Has(post.resources, id) {
      HasIn(initial, id);
      HasIn(sorted, id);
      PlannedIds(d, b, sorted, authorities, id);
    }
  }

  lemma PlannedIds(d: Digests, b: Body, resources: seq<Resource>, authorities: map<string, Authority>, id: string)
    requires Plans(d, b, resources, authorities)
    ensures HasPlanned(b.resources, id) <==> Has(resources, id)
  {
    hide CompileAction;
    if Has(resources, id) {
      var i :| 0 <= i < |resources| && resources[i].id == id;
      assert b.resources[i].resource.id == id;
    }
  }

  /** So the protected Parent is still there, thread and agent, unchanged and active. */
  lemma ParentSurvives(parent: C.Parent, anchored: string, initial: seq<Resource>, post: Inventory,
    authorities: map<string, Authority>)
    requires ProtectedParent(parent, anchored, initial).Ok? && Framed(initial, post, authorities)
    ensures var (thread, agent) := ProtectedParent(parent, anchored, initial).value;
      && thread in post.resources && IsParentThread(parent, thread)
      && agent in post.resources && IsParentAgent(parent, agent)
  {
    hide ProtectedParent;
    ProtectedAre(parent, anchored, initial);
    var (thread, agent) := ProtectedParent(parent, anchored, initial).value;
    HasIn(initial, thread.id);
    HasIn(post.resources, thread.id);
    HasIn(initial, agent.id);
    HasIn(post.resources, agent.id);
    var s :| s in post.resources && s.id == thread.id;
    var t :| t in post.resources && t.id == agent.id;
    assert Successor(thread, s, authorities, post.observedAt) && Successor(agent, t, authorities, post.observedAt);
  }

  // ---------------------------------------------------------------- the gate end to end

  datatype Request = Request(
    goalId: string, taskId: string, before: Inventory, authorities: seq<Authority>, closeout: C.Plan)

  /** The closeout plan is acceptable and the anchored one, and its children are the goal's threads and agents. */
  ghost predicate CloseoutFits(anchors: Anchors, k: C.Digests, q: Request) {
    && K.Acceptable(k, q.closeout, q.goalId, q.taskId) && q.closeout.sha == anchors.childPlan
    && Matched(q.closeout.body.parent, q.closeout.body.descendants, anchors.parentAuthority, q.before.resources)
  }

  /** A plan can be made. */
  ghost predicate Plannable(anchors: Anchors, k: C.Digests, q: Request) {
    && Sealed(anchors, q.before) && InventoryOk(q.before)
    && AuthoritiesOk(q.authorities, q.before.observedAt, anchors)
    && CloseoutFits(anchors, k, q)
    && forall r | r in q.before.resources :: CompileAction(r, TableOf(q.authorities)).Ok?
  }

  /** The one plan for a request. */
  ghost predicate Emitted(d: Digests, q: Request, p: Plan) {
    && Plans(d, p.body, Sorted(ResourceOrder, q.before.resources), TableOf(q.authorities))
    && p.sha == d.plan(p.body)
    && p.body.goalId == q.goalId && p.body.taskId == q.taskId && p.body.createdAt == q.before.observedAt
  }

  lemma EmittedOnce(d: Digests, q: Request, p: Plan, other: Plan)
    requires Emitted(d, q, p) && Emitted(d, q, other)
    ensures p == other
  {
    hide CompileAction, Sorted, RetainedOf, TableOf;
    assert p.body.resources == other.body.resources && p.body.actions == other.body.actions;
  }

  /** `plan`, once board and audit allow it. */
  method EmitPlan(anchors: Anchors, d: Digests, k: C.Digests, q: Request) returns (res: Result<Plan, Error>)
    ensures res.Ok? <==> Plannable(anchors, k, q)
    ensures res.Ok? ==> Emitted(d, q, res.value)
  {
    hide Plans, CompileAction, Sorted, AuthorityOk, Matched, TableOf;
    var body := q.closeout.body;
    var valid := ValidateInventory(anchors, q.before);
    if valid.Err? {
      return Err(valid.error);
    }
    var authorities := ValidateAuthorities(q.authorities, q.before.observedAt, anchors);
    if authorities.Err? {
      return Err(authorities.error);
    }
    var closeout := K.Check(k, q.closeout, q.goalId, q.taskId);
    if closeout.Err? || q.closeout.sha != anchors.childPlan {
      return Err(ChildPlanMismatch);
    }
    ChildrenDistinct(k, q);
    var pairs := ChildResources(body.parent, body.descendants, anchors.parentAuthority, q.before.resources, None);
    if pairs.Err? {
      return Err(pairs.error);
    }
    res := PlanActions(d, q.goalId, q.taskId, q.before, authorities.value);
  }

  lemma ChildrenDistinct(k: C.Digests, q: Request)
    requires K.Acceptable(k, q.closeout, q.goalId, q.taskId)
    ensures var children := q.closeout.body.descendants;
      forall i, j | 0 <= i < j < |children| ::
        children[i].thread != children[j].thread && children[i].path != children[j].path
  {}

  function Resources(rows: seq<PlannedResource>): seq<Resource> {
    seq(|rows|, i requires 0 <= i < |rows| => rows[i].resource)
  }

  /** What the plan does, by resource. */
  function Decided(actions: seq<ActionRow>): map<string, TerminalPlan.Action> {
    if actions == [] then map[] else
    var n := |actions| - 1;
    Decided(actions[..n])[actions[n].resourceId := actions[n].action]
  }

  lemma {:induction false} DecidedHas(actions: seq<ActionRow>, i: nat)
    requires i < |actions|
    ensures actions[i].resourceId in Decided(actions)
  {
    if i < |actions| - 1 {
      DecidedHas(actions[..|actions| - 1], i);
    }
  }

  /** The plan archives the thread of every child and interrupts the agents the closeout interrupts. */
  ghost predicate Handled(anchors: Anchors, q: Request, p: Plan) {
    var b, rows := q.closeout.body, Resources(p.body.resources);
    && Matched(b.parent, b.descendants, anchors.parentAuthority, rows)
    && StepsAgree(b.parent, b.descendants, rows, Steps(Decided(p.body.actions), b.actions))
  }

  lemma EmittedFacts(d: Digests, q: Request, p: Plan)
    requires Emitted(d, q, p) && InventoryOk(q.before)
    ensures PlanOk(d, p) && |p.body.resources| == |p.body.actions|
    ensures forall r | r in Resources(p.body.resources) :: r.id in Decided(p.body.actions)
  {
    hide Plans, CompileAction, Sorted, TableOf, PlanOk, Decided;
    var sorted := Sorted(ResourceOrder, q.before.resources);
    SortedDistinct(ResourceOrder, (r: Resource) => r.id, q.before.resources);
    EmittedPlansPass(d, p.body, sorted, TableOf(q.authorities));
    assert p == Plan(p.body, d.plan(p.body));
    PlannedTogether(d, p.body, sorted, TableOf(q.authorities));
    forall r | r in Resources(p.body.resources) ensures r.id in Decided(p.body.actions) {
      var i :| 0 <= i < |p.body.resources| && p.body.resources[i].resource == r;
      DecidedHas(p.body.actions, i);
    }
  }

  lemma PlannedTogether(d: Digests, b: Body, resources: seq<Resource>, authorities: map<string, Authority>)
    requires Plans(d, b, resources, authorities)
    ensures |b.resources| == |b.actions|
    ensures forall i | 0 <= i < |b.actions| :: b.actions[i].resourceId == b.resources[i].resource.id
  {
    hide CompileAction, RetainedOf;
  }

  /** The post-inventory is sealed, newer than the plan, and settles everything planned. */
  ghost predicate FoundReady(anchors: Anchors, d: Digests, q: Request, p: Plan, post: Inventory) {
    && Emitted(d, q, p) && Handled(anchors, q, p) && |p.body.resources| == |p.body.actions|
    && Sealed(anchors, post) && InventoryOk(post) && post.observedAt > q.before.observedAt
    && ReadyOk(p.body, post)
  }

  /** This authority keeps the session: it was valid when the plan was made and has not expired. */
  predicate Keeps(anchors: Anchors, a: Authority, r: Resource, planned: int, now: int) {
    && a.resourceId == r.id && AuthorityOk(a, planned, anchors) && r.authority == Some(a.artifact)
    && (a.retainUntil.None? || a.retainUntil.value > now)
  }

  predicate Over(r: Resource) {
    r.lifecycle == Terminal || r.lifecycle == Absent
  }

  /** Whatever the goal owns and is not over is a session that an authority of the request keeps. */
  ghost predicate KeptByAuthority(anchors: Anchors, q: Request, post: Inventory) {
    forall r, s | r in q.before.resources && s in post.resources && r.id == s.id
      && r.ownership == GoalOwned && !Over(s) ::
      && s.target.Session?
      && exists a | a in q.authorities :: Keeps(anchors, a, r, q.before.observedAt, post.observedAt)
  }

  /** The resource with this target is over. */
  ghost predicate Gone(rows: seq<Resource>, t: Target) {
    && (exists r | r in rows :: r.target == t)
    && (forall r | r in rows && r.target == t :: Over(r))
  }

  /** Thread and agent of every planned child are over. */
  ghost predicate ChildrenGone(q: Request, post: Inventory) {
    forall c | c in q.closeout.body.descendants ::
      && Gone(post.resources, Thread(c.thread, q.closeout.body.parent.host))
      && Gone(post.resources, Agent(c.path, q.closeout.body.parent.host))
  }

  /** The Parent's thread and agent are there, shared and active. */
  ghost predicate ParentThere(parent: C.Parent, rows: seq<Resource>) {
    && (exists r | r in rows :: IsParentThread(parent, r))
    && (exists r | r in rows :: IsParentAgent(parent, r))
  }

  /**
   What ready means: only what the goal owned has changed and all of it is over, the children first of all, except
   sessions an authority keeps; and the Parent is still there.
   */
  ghost predicate SafelyClosed(anchors: Anchors, q: Request, post: Inventory) {
    && Framed(q.before.resources, post, TableOf(q.authorities))
    && KeptByAuthority(anchors, q, post)
    && ChildrenGone(q, post)
    && ParentThere(q.closeout.body.parent, post.resources)
  }

  lemma TargetGone(initial: seq<Resource>, post: Inventory, authorities: map<string, Authority>, r: Resource)
    requires Framed(initial, post, authorities) && TargetsDistinct(initial)
    requires r in initial && r.ownership == GoalOwned && (r.target.Thread? || r.target.Agent?)
    ensures Gone(post.resources, r.target)
  {
    HasIn(initial, r.id);
    HasIn(post.resources, r.id);
    var s :| s in post.resources && s.id == r.id;
    assert Successor(r, s, authorities, post.observedAt);
    forall t | t in post.resources && t.target == r.target ensures Over(t) {
      HasIn(post.resources, t.id);
      HasIn(initial, t.id);
      var o :| o in initial && o.id == t.id;
      assert Successor(o, t, authorities, post.observedAt);
      var i, j :| 0 <= i < |initial| && 0 <= j < |initial| && initial[i] == r && initial[j] == o;
      assert o == r;
    }
  }

  lemma ChildrenAreGone(anchors: Anchors, k: C.Digests, q: Request, post: Inventory)
    requires CloseoutFits(anchors, k, q) && Framed(q.before.resources, post, TableOf(q.authorities))
    ensures ChildrenGone(q, post)
  {
    hide K.Acceptable, ProtectedParent, Framed, TargetsDistinct, C.Under, TableOf, Gone;
    var b, rows := q.closeout.body, q.before.resources;
    forall c | c in b.descendants
      ensures Gone(post.resources, Thread(c.thread, b.parent.host))
      ensures Gone(post.resources, Agent(c.path, b.parent.host))
    {
      assert c.thread in Threads(b.descendants) && c.path in Paths(b.descendants);
      var r :| r in rows && VisibleChild(b.parent.host, r) && r.target.threadId == c.thread;
      var s :| s in rows && AgentChild(b.parent, Paths(b.descendants), s) && s.target.agentId == c.path;
      TargetGone(rows, post, TableOf(q.authorities), r);
      TargetGone(rows, post, TableOf(q.authorities), s);
    }
  }

  lemma AuthorityKeeps(anchors: Anchors, q: Request, post: Inventory)
    requires AuthoritiesOk(q.authorities, q.before.observedAt, anchors)
    requires Framed(q.before.resources, post, TableOf(q.authorities))
    ensures KeptByAuthority(anchors, q, post)
  {
    hide TableOf, AuthorityOk;
    forall r, s | r in q.before.resources && s in post.resources && r.id == s.id
      && r.ownership == GoalOwned && !Over(s)
      ensures s.target.Session?
      ensures exists a | a in q.authorities :: Keeps(anchors, a, r, q.before.observedAt, post.observedAt)
    {
      assert Successor(r, s, TableOf(q.authorities), post.observedAt);
      TableMeaning(q.authorities);
      assert Keeps(anchors, TableOf(q.authorities)[r.id], r, q.before.observedAt, post.observedAt);
    }
  }

  /** The safety theorem of the gate. */
  lemma ReadyIsSafe(anchors: Anchors, d: Digests, k: C.Digests, q: Request, p: Plan, post: Inventory)
    requires Plannable(anchors, k, q) && FoundReady(anchors, d, q, p, post)
    ensures SafelyClosed(anchors, q, post)
  {
    hide Plans, CompileAction, Sorted, ReadyOk, Framed, TableOf, Handled, ProtectedParent, AuthoritiesOk, K.Acceptable,
      KeptByAuthority, ChildrenGone, Bijective, TargetsDistinct;
    var parent := q.closeout.body.parent;
    ReadyIsFrame(d, p.body, q.before.resources, TableOf(q.authorities), post);
    AuthorityKeeps(anchors, q, post);
    ChildrenAreGone(anchors, k, q, post);
    ParentSurvives(parent, anchors.parentAuthority, q.before.resources, post, TableOf(q.authorities));
  }

  /**
   `ready` up to receipts: the plan is made again, its actions are matched with the closeout, and the new inventory is
   compared with it.
   */
  method PlanThenReady(anchors: Anchors, d: Digests, k: C.Digests, q: Request, post: Inventory)
    returns (res: Result<Plan, Error>)
    ensures res.Ok? <==> Plannable(anchors, k, q) && exists p :: FoundReady(anchors, d, q, p, post)
    ensures res.Ok? ==> FoundReady(anchors, d, q, res.value, post) && SafelyClosed(anchors, q, post)
  {
    hide Plans, PlanOk, ReadyOk, SafelyClosed, CompileAction, Sorted, TableOf, Matched, StepsAgree, K.Acceptable,
      Emitted, AuthoritiesOk, Decided;
    var plan := EmitPlan(anchors, d, k, q);
    if plan.Err? {
      return plan;
    }
    forall p | Emitted(d, q, p) ensures p == plan.value {
      EmittedOnce(d, q, p, plan.value);
    }
    EmittedFacts(d, q, plan.value);
    var valid := ValidateInventory(anchors, post);
    if valid.Err? {
      return Err(valid.error);
    }
    var checked := TerminalPlan.Check(d, plan.value);
    if checked.Err? {
      assert false;
    }
    var body, b := q.closeout.body, plan.value.body;
    ChildrenDistinct(k, q);
    var steps := Steps(Decided(b.actions), body.actions);
    var pairs := ChildResources(body.parent, body.descendants, anchors.parentAuthority, Resources(b.resources),
      Some(steps));
    if pairs.Err? {
      return Err(pairs.error);
    }
    assert b.createdAt == q.before.observedAt by { EmittedWhen(d, q, plan.value); }
    if post.observedAt <= b.createdAt {
      return Err(InventoryIncomplete);
    }
    var ready := Compare(b, post);
    if ready.Err? {
      return Err(ready.error);
    }
    ReadyIsSafe(anchors, d, k, q, plan.value, post);
    return plan;
  }

  lemma EmittedWhen(d: Digests, q: Request, p: Plan)
    requires Emitted(d, q, p)
    ensures p.body.createdAt == q.before.observedAt
  {}
}
