/** What a terminal lifecycle plan says about each resource, in the fields of the resource alone. */
module TerminalMeaning {
  import opened Common
  import opened JsonText
  import opened Sorting
  import opened TerminalPlan
  import C = ChildCloseout
  import K = ChildPlanCheck
  import R = TerminalReady

  // ---------------------------------------------------------------- one resource

  /** The goal's own, and not the Parent's thread. */
  predicate Owned(r: Resource) {
    r.ownership == GoalOwned && !r.target.ParentThread?
  }

  predicate Over(r: Resource) {
    r.lifecycle == Terminal || r.lifecycle == Absent
  }

  /** An authority of the request keeps this resource. */
  ghost predicate KeptBy(rows: seq<Authority>, r: Resource) {
    exists a | a in rows :: a.resourceId == r.id && r.authority == Some(a.artifact)
  }

  /** A resource that something can be done about, or that nothing has to be done about. */
  ghost predicate Disposable(rows: seq<Authority>, r: Resource) {
    && (r.target.ParentThread? ==>
          r.ownership != GoalOwned && r.capabilities == Capabilities(false, false, false, false))
    && (Owned(r) ==> r.lifecycle != UnknownState)
    && (Owned(r) && r.lifecycle == Live ==>
          match r.target
          case Thread(_, _) => r.capabilities.archive || r.capabilities.unpin
          case Agent(_, _) => r.capabilities.interrupt
          case Worktree(_, _, safe, current, dirty, integrated) =>
            safe && !current && !dirty && integrated && r.capabilities.remove
          case Session(_, _) => KeptBy(rows, r)
          case _ => true)
  }

  /** When each of the ten actions is decided on. */
  predicate Decided(r: Resource, a: Action) {
    && (a == StopProvider <==> Owned(r) && r.lifecycle == Live && r.target.Provider?)
    && (a == StopServer <==> Owned(r) && r.lifecycle == Live && r.target.Server?)
    && (a == RemoveWorktree <==> Owned(r) && r.lifecycle == Live && r.target.Worktree?)
    && (a == Interrupt <==> Owned(r) && r.lifecycle == Live && r.target.Agent? && r.capabilities.interrupt)
    && (a == Archive <==> Owned(r) && r.target.Thread? && r.capabilities.archive && !r.capabilities.unpin)
    && (a == Unpin <==> Owned(r) && r.target.Thread? && !r.capabilities.archive && r.capabilities.unpin)
    && (a == ArchiveUnpin <==> Owned(r) && r.target.Thread? && r.capabilities.archive && r.capabilities.unpin)
    && (a == RetainPersistent <==> Owned(r) && r.lifecycle == Live && r.target.Session?)
    && (a == RetainTerminalHostRecord <==>
          Owned(r) && r.lifecycle == Terminal && r.target.Agent? && !r.capabilities.archive && !r.capabilities.remove)
    && (a == NoAction <==>
          || !Owned(r)
          || (Over(r) && r.target.Thread? && !r.capabilities.archive && !r.capabilities.unpin)
          || (r.lifecycle == Terminal && r.target.Agent? && (r.capabilities.archive || r.capabilities.remove))
          || (r.lifecycle == Absent && r.target.Agent?)
          || (Over(r) && !r.target.Thread? && !r.target.Agent?))
  }

  function Owner(r: Resource): string {
    if r.ownership == Shared then "shared"
    else if r.ownership == Unrelated then "unrelated"
    else if r.ownership == UnknownOwner then "unknown"
    else "goal_owned"
  }

  /** Why, as the row says it. */
  predicate Explained(r: Resource, a: Action, reason: string) {
    && (a == StopProvider ==> reason == "stop_goal_owned_provider_process")
    && (a == StopServer ==> reason == "stop_goal_owned_board_server")
    && (a == RemoveWorktree ==> reason == "remove_goal_owned_safe_worktree")
    && (a == Interrupt ==> reason == "stop_goal_owned_collaboration_agent")
    && (a in {Archive, Unpin, ArchiveUnpin} ==>
          reason == if Over(r) then "terminal_visible_task_cleanup" else "dispose_goal_owned_visible_task")
    && (a == RetainPersistent ==> reason == "prior_operator_persistence_authority")
    && (a == RetainTerminalHostRecord ==> reason == "terminal_agent_host_record_only")
    && (a == NoAction && Owned(r) ==> reason == "already_terminal_or_absent")
    && (r.target.ParentThread? ==> reason == "parent_thread_preserved")
    && (!r.target.ParentThread? && r.ownership != GoalOwned ==> reason == Owner(r) + "_resource_preserved")
  }

  ghost predicate OnePerResource(rows: seq<Authority>) {
    forall i, j | 0 <= i < j < |rows| :: rows[i].resourceId != rows[j].resourceId
  }

  lemma KeptByTable(rows: seq<Authority>, r: Resource)
    requires OnePerResource(rows)
    ensures KeptBy(rows, r) <==> r.id in TableOf(rows) && r.authority == Some(TableOf(rows)[r.id].artifact)
  {
    hide TableOf;
    TableMeaning(rows);
    if a :| a in rows && a.resourceId == r.id && r.authority == Some(a.artifact) {
      var i :| 0 <= i < |rows| && rows[i] == a;
      assert TableOf(rows)[rows[i].resourceId] == rows[i];
    }
  }

  /** Every resource has an action exactly if it can be disposed of or left alone. */
  lemma ActionExactly(rows: seq<Authority>, r: Resource)
    requires OnePerResource(rows)
    ensures CompileAction(r, TableOf(rows)).Ok? <==> Disposable(rows, r)
  {
    hide TableOf, KeptBy, OwnershipName;
    KeptByTable(rows, r);
  }

  lemma ActionDecided(r: Resource, authorities: map<string, Authority>)
    requires CompileAction(r, authorities).Ok?
    ensures Decided(r, CompileAction(r, authorities).value.0)
  {
    hide CompileAction, Decided;
    if !Owned(r) {
      LeftAloneDecided(r, authorities);
    } else if r.lifecycle == Live {
      LiveDecided(r, authorities);
    } else {
      OverDecided(r, authorities);
    }
  }

  lemma LeftAloneDecided(r: Resource, authorities: map<string, Authority>)
    requires CompileAction(r, authorities).Ok? && !Owned(r)
    ensures Decided(r, CompileAction(r, authorities).value.0)
  {
    hide OwnershipName;
  }

  lemma LiveDecided(r: Resource, authorities: map<string, Authority>)
    requires CompileAction(r, authorities).Ok? && Owned(r) && r.lifecycle == Live
    ensures Decided(r, CompileAction(r, authorities).value.0)
  {
    hide OwnershipName;
  }

  lemma OverDecided(r: Resource, authorities: map<string, Authority>)
    requires CompileAction(r, authorities).Ok? && Owned(r) && r.lifecycle != Live
    ensures Decided(r, CompileAction(r, authorities).value.0)
  {
    hide OwnershipName;
  }

  lemma ActionExplained(r: Resource, authorities: map<string, Authority>)
    requires CompileAction(r, authorities).Ok?
    ensures Explained(r, CompileAction(r, authorities).value.0, CompileAction(r, authorities).value.1)
  {
    hide CompileAction, Explained;
    if !Owned(r) {
      LeftAloneExplained(r, authorities);
    } else if r.lifecycle == Live {
      LiveExplained(r, authorities);
    } else {
      OverExplained(r, authorities);
    }
  }

  lemma LeftAloneExplained(r: Resource, authorities: map<string, Authority>)
    requires CompileAction(r, authorities).Ok? && !Owned(r)
    ensures Explained(r, CompileAction(r, authorities).value.0, CompileAction(r, authorities).value.1)
  {
    hide OwnershipName, Owner;
    assert OwnershipName(r.ownership) == Owner(r) by { OwnerIs(r); }
  }

  lemma LiveExplained(r: Resource, authorities: map<string, Authority>)
    requires CompileAction(r, authorities).Ok? && Owned(r) && r.lifecycle == Live
    ensures Explained(r, CompileAction(r, authorities).value.0, CompileAction(r, authorities).value.1)
  {
    hide OwnershipName, Owner;
  }

  lemma OverExplained(r: Resource, authorities: map<string, Authority>)
    requires CompileAction(r, authorities).Ok? && Owned(r) && r.lifecycle != Live
    ensures Explained(r, CompileAction(r, authorities).value.0, CompileAction(r, authorities).value.1)
  {
    hide OwnershipName, Owner;
  }

  lemma OwnerIs(r: Resource)
    ensures OwnershipName(r.ownership) == Owner(r)
  {}

  // ---------------------------------------------------------------- the plan

  /** What one row of the plan says, and how long its resource is kept. */
  ghost predicate RowTells(d: Digests, rows: seq<Authority>, b: Body, i: nat)
    requires i < |b.resources| == |b.actions|
  {
    var r, row := b.resources[i].resource, b.actions[i];
    && row.resourceId == r.id && row.target == r.target && row.id == d.actionId(r.id, row.action, r.target)
    && Decided(r, row.action) && Explained(r, row.action, row.reason)
    && (forall a | a in rows && a.resourceId == r.id :: b.resources[i].retainUntil == a.retainUntil)
    && ((forall a | a in rows :: a.resourceId != r.id) ==> b.resources[i].retainUntil.None?)
  }

  predicate Keeping(a: Action) {
    a == RetainTerminalHostRecord || a == RetainPersistent
  }

  ghost predicate KeptByRow(actions: seq<ActionRow>, kept: Retained) {
    exists i | 0 <= i < |actions| && Keeping(actions[i].action) ::
      kept == Retained(actions[i].resourceId, actions[i].reason)
  }

  /** Retained is what a row keeps, for the same reason, in the order of the rows. */
  ghost predicate RetainedTell(b: Body) {
    && (forall i | 0 <= i < |b.actions| && Keeping(b.actions[i].action) ::
          Retained(b.actions[i].resourceId, b.actions[i].reason) in b.retained)
    && (forall k | 0 <= k < |b.retained| :: KeptByRow(b.actions, b.retained[k]))
    && (forall j, k | 0 <= j < k < |b.retained| :: StrLess(b.retained[j].resourceId, b.retained[k].resourceId))
  }

  /** The plan of a request: every resource once, in order of identity, with its action. */
  ghost predicate Tells(d: Digests, q: R.Request, p: Plan) {
    var b := p.body;
    && b.goalId == q.goalId && b.taskId == q.taskId && b.createdAt == q.before.observedAt
    && !b.hostActionsExecuted && !b.boardMutated && !b.acceptanceClaimed && p.sha == d.plan(b)
    && |b.resources| == |b.actions| == |q.before.resources|
    && (forall r :: r in q.before.resources <==> exists i | 0 <= i < |b.resources| :: b.resources[i].resource == r)
    && (forall i, j | 0 <= i < j < |b.resources| :: StrLess(b.resources[i].resource.id, b.resources[j].resource.id))
    && (forall i: nat | i < |b.resources| :: RowTells(d, q.authorities, b, i))
    && RetainedTell(b)
  }

  lemma ResourceOrderStrict()
    ensures StrictOrder(ResourceOrder)
  {
    hide StrLess;
    forall a: Resource, b: Resource, c: Resource | ResourceOrder(a, b) && ResourceOrder(b, c)
      ensures ResourceOrder(a, c)
    {
      StrLessTransitive(a.id, b.id, c.id);
    }
    forall a: Resource ensures !ResourceOrder(a, a) {
      StrLessStrict(a.id, a.id);
    }
  }

  lemma SortedById(resources: seq<Resource>)
    requires DistinctIds(resources)
    ensures var sorted := Sorted(ResourceOrder, resources);
      forall i, j | 0 <= i < j < |sorted| :: StrLess(sorted[i].id, sorted[j].id)
  {
    hide StrLess, StrictOrder;
    ResourceOrderStrict();
    forall i, j | 0 <= i < j < |resources|
      ensures ResourceOrder(resources[i], resources[j]) || ResourceOrder(resources[j], resources[i])
    {
      StrLessStrict(resources[i].id, resources[j].id);
    }
    SortedOrdered(ResourceOrder, resources);
    var sorted := Sorted(ResourceOrder, resources);
    assert forall i, j | 0 <= i < j < |sorted| :: ResourceOrder(sorted[i], sorted[j]);
  }

  lemma PlannedRow(d: Digests, rows: seq<Authority>, b: Body, resources: seq<Resource>, i: nat)
    requires OnePerResource(rows) && Plans(d, b, resources, TableOf(rows)) && i < |resources|
    ensures RowTells(d, rows, b, i)
    ensures b.resources[i].resource == resources[i] && b.actions[i].resourceId == resources[i].id
  {
    hide TableOf, CompileAction, Decided, Explained, RetainedOf;
    var r := resources[i];
    ActionDecided(r, TableOf(rows));
    ActionExplained(r, TableOf(rows));
    TableMeaning(rows);
    forall a | a in rows && a.resourceId == r.id ensures b.resources[i].retainUntil == a.retainUntil {
      var k :| 0 <= k < |rows| && rows[k] == a;
      assert TableOf(rows)[rows[k].resourceId] == rows[k];
    }
  }

  lemma {:induction false} RetainedTells(actions: seq<ActionRow>)
    requires forall i, j | 0 <= i < j < |actions| :: StrLess(actions[i].resourceId, actions[j].resourceId)
    ensures forall i | 0 <= i < |actions| && Keeping(actions[i].action) ::
      Retained(actions[i].resourceId, actions[i].reason) in RetainedOf(actions)
    ensures forall k | 0 <= k < |RetainedOf(actions)| :: KeptByRow(actions, RetainedOf(actions)[k])
    ensures forall j, k | 0 <= j < k < |RetainedOf(actions)| ::
      StrLess(RetainedOf(actions)[j].resourceId, RetainedOf(actions)[k].resourceId)
  {
    hide StrLess;
    if actions != [] {
      var n := |actions| - 1;
      var front := actions[..n];
      RetainedTells(front);
      forall k | 0 <= k < |RetainedOf(front)| ensures StrLess(RetainedOf(front)[k].resourceId, actions[n].resourceId) {
        var i := RetainedKept(front, k);
        assert front[i] == actions[i];
      }
      forall k | 0 <= k < |RetainedOf(actions)|
        ensures KeptByRow(actions, RetainedOf(actions)[k])
      {
        var i := RetainedKept(actions, k);
        assert Keeping(actions[i].action);
      }
    }
  }

  /** Every emitted plan says what it should. */
  lemma EmittedTells(d: Digests, q: R.Request, p: Plan)
    requires R.Emitted(d, q, p) && DistinctIds(q.before.resources) && OnePerResource(q.authorities)
    ensures Tells(d, q, p)
  {
    hide TableOf, CompileAction, Sorted, RowTells, RetainedOf, StrLess;
    var b, resources := p.body, Sorted(ResourceOrder, q.before.resources);
    SameElements(ResourceOrder, q.before.resources);
    SortedById(q.before.resources);
    forall i: nat | i < |b.resources|
      ensures RowTells(d, q.authorities, b, i)
      ensures b.resources[i].resource == resources[i] && b.actions[i].resourceId == resources[i].id
    {
      PlannedRow(d, q.authorities, b, resources, i);
    }
    forall r ensures r in q.before.resources <==> exists i | 0 <= i < |b.resources| :: b.resources[i].resource == r {
      assert r in q.before.resources <==> r in resources;
      if r in resources {
        var i :| 0 <= i < |resources| && resources[i] == r;
        assert b.resources[i].resource == r;
      }
    }
    forall i, j | 0 <= i < j < |b.actions| ensures StrLess(b.actions[i].resourceId, b.actions[j].resourceId) {
      assert b.actions[i].resourceId == resources[i].id && b.actions[j].resourceId == resources[j].id;
    }
    RetainedTells(b.actions);
  }

  // ---------------------------------------------------------------- when there is a plan

  /** The Parent's own thread, or its agent: shared, active, at its host. */
  predicate ParentSeat(r: Resource, t: Target) {
    r.target == t && r.ownership == Shared && r.lifecycle == Live
  }

  /** Exactly one row is this seat of the Parent. */
  ghost predicate OneSeat(rows: seq<Resource>, t: Target) {
    exists i: nat :: SeatAt(rows, t, i)
  }

  ghost predicate SeatAt(rows: seq<Resource>, t: Target, i: nat) {
    i < |rows| && ParentSeat(rows[i], t) && forall j | 0 <= j < |rows| && ParentSeat(rows[j], t) :: j == i
  }

  ghost predicate ChildThread(children: seq<C.Descendant>, thread: string) {
    exists i | 0 <= i < |children| :: children[i].thread == thread
  }

  ghost predicate ChildPath(children: seq<C.Descendant>, path: string) {
    exists i | 0 <= i < |children| :: children[i].path == path
  }

  /** The goal owns something with exactly this target. */
  ghost predicate OwnedAt(rows: seq<Resource>, t: Target) {
    exists i | 0 <= i < |rows| :: rows[i].target == t && rows[i].ownership == GoalOwned
  }

  /** Something of the goal's that the closeout must not forget: a thread, or an agent beyond a mere host record. */
  predicate MustBePlanned(parent: C.Parent, r: Resource) {
    && r.ownership == GoalOwned
    && match r.target
       case Thread(_, host) => host == parent.host
       case Agent(path, host) => host == parent.host && C.Under(path, parent.path)
         && (!Over(r) || r.capabilities.archive || r.capabilities.remove)
       case _ => false
  }

  ghost predicate ChildAt(children: seq<C.Descendant>, t: Target) {
    (t.Thread? && ChildThread(children, t.threadId)) || (t.Agent? && ChildPath(children, t.agentId))
  }

  /** Every child has its thread and its agent. */
  ghost predicate EachPresent(parent: C.Parent, children: seq<C.Descendant>, rows: seq<Resource>) {
    forall i | 0 <= i < |children| ::
      OwnedAt(rows, Thread(children[i].thread, parent.host)) && OwnedAt(rows, Agent(children[i].path, parent.host))
  }

  ghost predicate NoneForgotten(parent: C.Parent, children: seq<C.Descendant>, rows: seq<Resource>) {
    forall r | r in rows && MustBePlanned(parent, r) :: ChildAt(children, r.target)
  }

  /**
   The Parent sits in the inventory and is no child; every child has its thread and its agent there, and nothing of the
   goal's is left without a child.
   */
  ghost predicate ChildrenFit(parent: C.Parent, children: seq<C.Descendant>, rows: seq<Resource>) {
    && OneSeat(rows, ParentThread(parent.thread, parent.host)) && OneSeat(rows, Agent(parent.path, parent.host))
    && (forall i, j | 0 <= i < j < |rows| && (rows[i].target.Thread? || rows[i].target.Agent?) ::
          rows[i].target != rows[j].target)
    && !ChildThread(children, parent.thread) && !ChildPath(children, parent.path)
    && EachPresent(parent, children, rows) && NoneForgotten(parent, children, rows)
  }

  ghost predicate OnlyAt(rows: seq<Resource>, p: Resource -> bool, i: nat) {
    i < |rows| && p(rows[i]) && forall j | 0 <= j < |rows| && p(rows[j]) :: j == i
  }

  ghost predicate Once(rows: seq<Resource>, p: Resource -> bool) {
    exists i: nat :: OnlyAt(rows, p, i)
  }

  ghost predicate Nowhere(rows: seq<Resource>, p: Resource -> bool) {
    forall j | 0 <= j < |rows| :: !p(rows[j])
  }

  lemma NowhereGrows(front: seq<Resource>, r: Resource, p: Resource -> bool)
    ensures Nowhere(front + [r], p) <==> Nowhere(front, p) && !p(r)
  {
    var all := front + [r];
    assert all[|front|] == r && forall k | 0 <= k < |front| :: all[k] == front[k];
  }

  lemma {:induction false} NoneOfThose(rows: seq<Resource>, p: Resource -> bool)
    ensures R.Those(rows, p) == [] <==> Nowhere(rows, p)
  {
    if rows == [] {
      assert Nowhere(rows, p);
    } else {
      hide Nowhere;
      var n := |rows| - 1;
      NoneOfThose(rows[..n], p);
      NowhereGrows(rows[..n], rows[n], p);
      assert rows == rows[..n] + [rows[n]];
    }
  }

  lemma OnlyAtGrows(front: seq<Resource>, r: Resource, p: Resource -> bool, i: nat)
    ensures OnlyAt(front + [r], p, i) <==> if p(r) then i == |front| && Nowhere(front, p) else OnlyAt(front, p, i)
  {
    var all := front + [r];
    assert all[|front|] == r && forall k | 0 <= k < |front| :: all[k] == front[k];
  }

  lemma OnceGrows(front: seq<Resource>, r: Resource, p: Resource -> bool)
    ensures Once(front + [r], p) <==> if p(r) then Nowhere(front, p) else Once(front, p)
  {
    hide OnlyAt, Nowhere;
    OnlyAtGrows(front, r, p, |front|);
    if i: nat :| OnlyAt(front + [r], p, i) {
      OnlyAtGrows(front, r, p, i);
    }
    if i: nat :| OnlyAt(front, p, i) {
      OnlyAtGrows(front, r, p, i);
    }
  }

  lemma {:induction false} OneOfThose(rows: seq<Resource>, p: Resource -> bool)
    ensures |R.Those(rows, p)| == 1 <==> Once(rows, p)
  {
    if rows == [] {
      assert !Once(rows, p);
    } else {
      hide Once, Nowhere;
      var n := |rows| - 1;
      OneOfThose(rows[..n], p);
      NoneOfThose(rows[..n], p);
      OnceGrows(rows[..n], rows[n], p);
      assert rows == rows[..n] + [rows[n]];
    }
  }

  lemma ParentExactly(parent: C.Parent, anchored: string, rows: seq<Resource>)
    ensures R.ProtectedParent(parent, anchored, rows).Ok? <==>
      && anchored == parent.thread
      && OneSeat(rows, ParentThread(parent.thread, parent.host)) && OneSeat(rows, Agent(parent.path, parent.host))
  {
    hide R.Those, Once;
    var p := (r: Resource) => R.IsParentThread(parent, r);
    var q := (r: Resource) => R.IsParentAgent(parent, r);
    OneOfThose(rows, p);
    OneOfThose(rows, q);
    SeatOnce(rows, p, ParentThread(parent.thread, parent.host));
    SeatOnce(rows, q, Agent(parent.path, parent.host));
  }

  lemma SeatOnce(rows: seq<Resource>, p: Resource -> bool, t: Target)
    requires forall r :: p(r) <==> ParentSeat(r, t)
    ensures Once(rows, p) <==> OneSeat(rows, t)
  {
    if i: nat :| OnlyAt(rows, p, i) {
      assert forall j | 0 <= j < |rows| && ParentSeat(rows[j], t) :: p(rows[j]);
      assert SeatAt(rows, t, i);
    }
    if i: nat :| SeatAt(rows, t, i) {
      assert OnlyAt(rows, p, i);
    }
  }

  ghost predicate ChildrenDiffer(parent: C.Parent, children: seq<C.Descendant>) {
    && (forall i, j | 0 <= i < j < |children| ::
          children[i].thread != children[j].thread && children[i].path != children[j].path)
    && (forall c | c in children :: C.Under(c.path, parent.path))
  }

  lemma {:induction false} AsManyThreads(children: seq<C.Descendant>)
    requires forall i, j | 0 <= i < j < |children| :: children[i].thread != children[j].thread
    ensures |R.Threads(children)| == |children|
  {
    if children != [] {
      var n := |children| - 1;
      var front, last := children[..n], children[n];
      AsManyThreads(front);
      forall t ensures t in R.Threads(children) <==> t in R.Threads(front) || t == last.thread {
        if i :| 0 <= i < n && front[i].thread == t {
          assert children[i].thread == t;
        }
      }
      assert R.Threads(children) == R.Threads(front) + {last.thread};
    }
  }

  lemma {:induction false} AsManyPaths(children: seq<C.Descendant>)
    requires forall i, j | 0 <= i < j < |children| :: children[i].path != children[j].path
    ensures |R.Paths(children)| == |children|
  {
    if children != [] {
      var n := |children| - 1;
      var front, last := children[..n], children[n];
      AsManyPaths(front);
      forall t ensures t in R.Paths(children) <==> t in R.Paths(front) || t == last.path {
        if i :| 0 <= i < n && front[i].path == t {
          assert children[i].path == t;
        }
      }
      assert R.Paths(children) == R.Paths(front) + {last.path};
    }
  }

  lemma BijectiveFits(parent: C.Parent, children: seq<C.Descendant>, rows: seq<Resource>)
    requires R.Bijective(parent, children, rows)
    ensures EachPresent(parent, children, rows)
  {
    hide C.Under;
    forall i | 0 <= i < |children|
      ensures OwnedAt(rows, Thread(children[i].thread, parent.host))
      ensures OwnedAt(rows, Agent(children[i].path, parent.host))
    {
      var c := children[i];
      assert c.thread in R.Threads(children) && c.path in R.Paths(children);
      var r :| r in rows && R.VisibleChild(parent.host, r) && r.target.threadId == c.thread;
      assert r.target == Thread(c.thread, parent.host);
      var s :| s in rows && R.AgentChild(parent, R.Paths(children), s) && s.target.agentId == c.path;
      assert s.target == Agent(c.path, parent.host);
    }
  }

  lemma BijectiveForgetsNone(parent: C.Parent, children: seq<C.Descendant>, rows: seq<Resource>)
    requires R.Bijective(parent, children, rows)
    ensures NoneForgotten(parent, children, rows)
  {
    hide C.Under;
    forall r | r in rows && MustBePlanned(parent, r) ensures ChildAt(children, r.target) {
      if r.target.Thread? {
        assert R.VisibleChild(parent.host, r);
        assert r.target.threadId in R.Threads(children);
      } else {
        assert R.AgentChild(parent, R.Paths(children), r);
        assert r.target.agentId in R.Paths(children);
      }
    }
  }

  lemma ThreadsFit(parent: C.Parent, children: seq<C.Descendant>, rows: seq<Resource>, t: string)
    requires EachPresent(parent, children, rows) && NoneForgotten(parent, children, rows)
    ensures t in R.Threads(children) <==>
      exists r | r in rows :: R.VisibleChild(parent.host, r) && r.target.threadId == t
  {
    if t in R.Threads(children) {
      var i :| 0 <= i < |children| && children[i].thread == t;
      var k :| 0 <= k < |rows| && rows[k].target == Thread(t, parent.host) && rows[k].ownership == GoalOwned;
      assert R.VisibleChild(parent.host, rows[k]);
    }
    if r :| r in rows && R.VisibleChild(parent.host, r) && r.target.threadId == t {
      assert MustBePlanned(parent, r);
    }
  }

  lemma PathsFit(parent: C.Parent, children: seq<C.Descendant>, rows: seq<Resource>, path: string)
    requires EachPresent(parent, children, rows) && NoneForgotten(parent, children, rows)
    requires forall c | c in children :: C.Under(c.path, parent.path)
    ensures path in R.Paths(children) <==>
      exists r | r in rows :: R.AgentChild(parent, R.Paths(children), r) && r.target.agentId == path
  {
    hide C.Under;
    if path in R.Paths(children) {
      var i :| 0 <= i < |children| && children[i].path == path;
      assert children[i] in children;
      var k :| 0 <= k < |rows| && rows[k].target == Agent(path, parent.host) && rows[k].ownership == GoalOwned;
      assert R.AgentChild(parent, R.Paths(children), rows[k]);
    }
    if r :| r in rows && R.AgentChild(parent, R.Paths(children), r) && r.target.agentId == path {
      assert path in R.Paths(children) || MustBePlanned(parent, r);
    }
  }

  /**
   The matching succeeds exactly if the Parent sits in the inventory, each child has its thread and its agent, and
   nothing that must be planned for is forgotten.
   */
  lemma MatchedExactly(parent: C.Parent, children: seq<C.Descendant>, anchored: string, rows: seq<Resource>)
    requires ChildrenDiffer(parent, children)
    ensures R.Matched(parent, children, anchored, rows) <==>
      anchored == parent.thread && ChildrenFit(parent, children, rows)
  {
    hide R.ProtectedParent, OneSeat, EachPresent, NoneForgotten, R.VisibleChild, R.AgentChild, C.Under;
    ParentExactly(parent, anchored, rows);
    AsManyThreads(children);
    AsManyPaths(children);
    assert parent.thread in R.Threads(children) <==> ChildThread(children, parent.thread);
    assert parent.path in R.Paths(children) <==> ChildPath(children, parent.path);
    if R.Bijective(parent, children, rows) {
      BijectiveFits(parent, children, rows);
      BijectiveForgetsNone(parent, children, rows);
    }
    if EachPresent(parent, children, rows) && NoneForgotten(parent, children, rows) {
      forall t { ThreadsFit(parent, children, rows, t); }
      forall t { PathsFit(parent, children, rows, t); }
    }
  }

  /** A plan is emitted exactly from a sealed and complete inventory, valid authorities and a fitting closeout. */
  ghost predicate PlanPossible(anchors: Anchors, k: C.Digests, q: R.Request) {
    var now, b := q.before.observedAt, q.closeout.body;
    && q.before.authority == anchors.inventoryAuthority && q.before.complete
    && q.before.sha == anchors.inventorySha(now, q.before.complete, q.before.resources, q.before.authority)
    && (forall i, j | 0 <= i < j < |q.before.resources| :: q.before.resources[i].id != q.before.resources[j].id)
    && (forall a | a in q.authorities ::
          && a.artifact == anchors.authoritySha(a.resourceId, a.approved, a.issuedAt, a.retainUntil)
          && a.artifact in anchors.allowed && a.approved && a.issuedAt <= now
          && (a.retainUntil.None? || now < a.retainUntil.value))
    && OnePerResource(q.authorities)
    && K.Acceptable(k, q.closeout, q.goalId, q.taskId) && q.closeout.sha == anchors.childPlan
    && anchors.parentAuthority == b.parent.thread && ChildrenFit(b.parent, b.descendants, q.before.resources)
    && forall r | r in q.before.resources :: Disposable(q.authorities, r)
  }

  lemma PlannableExactly(anchors: Anchors, k: C.Digests, q: R.Request)
    ensures R.Plannable(anchors, k, q) <==> PlanPossible(anchors, k, q)
  {
    hide K.ActionsOk, K.Covers, R.Matched, ChildrenFit, Disposable, TableOf, CompileAction, C.Under;
    var b := q.closeout.body;
    if K.Acceptable(k, q.closeout, q.goalId, q.taskId) {
      MatchedExactly(b.parent, b.descendants, anchors.parentAuthority, q.before.resources);
    }
    if OnePerResource(q.authorities) {
      forall r | r in q.before.resources { ActionExactly(q.authorities, r); }
    }
    assert AuthoritiesOk(q.authorities, q.before.observedAt, anchors) ==> OnePerResource(q.authorities);
  }
}
