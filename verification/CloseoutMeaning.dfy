/** What a closeout plan says and when there is one, in the fields of the request and the plan. */
module CloseoutMeaning {
  import opened Common
  import opened JsonText
  import opened Sorting
  import opened ChildCloseout
  import opened ChildPlanCheck

  // ---------------------------------------------------------------- when there is a plan

  /** Somebody listed runs at this path. */
  ghost predicate RunsAt(rows: seq<AgentRow>, path: string) {
    exists i | 0 <= i < |rows| :: rows[i].path == path && Active(rows[i].status)
  }

  ghost predicate EventAt(events: seq<Event>, path: string) {
    exists i | 0 <= i < |events| :: events[i].path == path
  }

  /**
   A trustworthy history, each agent listed once, the Parent running, whoever else runs known from the history, and
   nothing to keep.
   */
  ghost predicate Plannable(r: Request) {
    && Chained(r.pages) && Consistent(r.parent, AllEvents(r.pages))
    && (forall i, j | 0 <= i < j < |r.live| :: r.live[i].path != r.live[j].path)
    && RunsAt(r.live, r.parent.path)
    && (forall i | 0 <= i < |r.live| && Active(r.live[i].status) && r.live[i].path != r.parent.path ::
          EventAt(AllEvents(r.pages), r.live[i].path))
    && r.authorities == []
  }

  lemma ChildAt(parent: Parent, events: seq<Event>, children: seq<Child>, path: string)
    requires Describes(parent, events, children)
    ensures EventAt(events, path) <==> exists c | c in children :: c.path == path
  {
    if i :| 0 <= i < |events| && events[i].path == path {
      assert events[i] in events;
      assert Listed(children, events[i].thread, path);
    }
    if c :| c in children && c.path == path {
      assert Names(events, c.thread, c.path);
      var i :| 0 <= i < |events| && events[i].thread == c.thread && events[i].path == c.path;
    }
  }

  lemma StatusIs(rows: seq<AgentRow>, live: map<string, Status>, path: string)
    requires LiveTable(rows, live)
    ensures RunsAt(rows, path) <==> Active(StatusOf(live, path))
  {
    if i :| 0 <= i < |rows| && rows[i].path == path && Active(rows[i].status) {
      assert live[path] == rows[i].status;
    }
    if path in live {
      var i :| 0 <= i < |rows| && rows[i].path == path;
      assert live[path] == rows[i].status;
    }
  }

  lemma KnownExactly(r: Request, live: map<string, Status>, children: seq<Child>)
    requires LiveTable(r.live, live) && Describes(r.parent, AllEvents(r.pages), children)
    ensures InventoryKnown(r, live, children) <==>
      && RunsAt(r.live, r.parent.path)
      && (forall i | 0 <= i < |r.live| && Active(r.live[i].status) && r.live[i].path != r.parent.path ::
            EventAt(AllEvents(r.pages), r.live[i].path))
      && r.authorities == []
  {
    hide Describes, AllEvents, EventAt, RunsAt;
    StatusIs(r.live, live, r.parent.path);
    forall path ensures EventAt(AllEvents(r.pages), path) <==> exists c | c in children :: c.path == path {
      ChildAt(r.parent, AllEvents(r.pages), children, path);
    }
    if InventoryKnown(r, live, children) {
      forall i | 0 <= i < |r.live| && Active(r.live[i].status) && r.live[i].path != r.parent.path
        ensures EventAt(AllEvents(r.pages), r.live[i].path)
      {
        assert r.live[i].path in live;
      }
    }
    if forall i | 0 <= i < |r.live| && Active(r.live[i].status) && r.live[i].path != r.parent.path ::
      EventAt(AllEvents(r.pages), r.live[i].path)
    {
      forall path | path in live && path != r.parent.path && Active(live[path])
        ensures exists c | c in children :: c.path == path
      {
        var i :| 0 <= i < |r.live| && r.live[i].path == path;
        assert live[path] == r.live[i].status;
      }
    }
  }

  function TableOf(rows: seq<AgentRow>): map<string, Status>
    requires forall i, j | 0 <= i < j < |rows| :: rows[i].path != rows[j].path
  {
    map i | 0 <= i < |rows| :: rows[i].path := rows[i].status
  }

  /** `compile_plan` succeeds exactly on plannable requests. */
  lemma CompilesExactly(r: Request)
    ensures Compilable(r) <==> Plannable(r)
  {
    hide Chained, AllEvents, Describes, InventoryKnown, RunsAt, EventAt, Consistent, Ordered, Sorted;
    if Compilable(r) {
      var children, live :| IsHistory(r.parent, AllEvents(r.pages), children) && Complete(r, children, live);
      KnownExactly(r, live, children);
    }
    if Plannable(r) {
      var live := TableOf(r.live);
      var children := HistoryExists(r.parent, AllEvents(r.pages));
      KnownExactly(r, live, children);
      assert Complete(r, children, live);
    }
  }

  lemma HistoryExists(parent: Parent, events: seq<Event>) returns (children: seq<Child>)
    requires Consistent(parent, events)
    ensures IsHistory(parent, events, children)
  {
    hide See, Sorted;
    SeeAllIff(parent, events);
    SeeAllMeaning(parent, events);
    children := Sorted(ChildOrder, SeeAll(parent, events).value.children);
    SeenIsHistory(parent, events);
  }

  // ---------------------------------------------------------------- what the plan says

  /** Lower sequence first, then lower path. */
  ghost predicate InTurn(actions: seq<Action>) {
    forall i, j | 0 <= i < j < |actions| ::
      && actions[i].sequence.Some? && actions[j].sequence.Some?
      && (|| actions[i].sequence.value < actions[j].sequence.value
          || (actions[i].sequence == actions[j].sequence && StrLess(actions[i].path, actions[j].path)))
  }

  /** The one thing to do with a child: archive it, or interrupt it first if it still runs. */
  ghost predicate ActsOn(d: Digests, host: string, a: Action, c: Descendant) {
    && a.thread == c.thread && a.path == c.path && a.host == host && a.id == d.actionId(a.kind, c.thread, c.path)
    && (|| (a.kind == Archive && a.sequence == Some(2))
        || (a.kind == Interrupt && a.sequence == Some(1) && Active(c.status)))
  }

  /** The status of a child is the one listed at its path, or that it is not loaded. */
  ghost predicate StatusListed(rows: seq<AgentRow>, c: Descendant) {
    if exists i | 0 <= i < |rows| :: rows[i].path == c.path then
      exists i | 0 <= i < |rows| :: rows[i].path == c.path && rows[i].status == c.status
    else c.status == NotLoaded
  }

  /** The children of the history, in order of their paths, each with its newest event and its status. */
  ghost predicate DescendantsTell(r: Request, rows: seq<Descendant>) {
    && (forall i | 0 <= i < |rows| ::
          && Names(AllEvents(r.pages), rows[i].thread, rows[i].path)
          && NewestKind(AllEvents(r.pages), rows[i].thread, rows[i].lastKind)
          && StatusListed(r.live, rows[i]) && rows[i].authority.None?)
    && (forall e | e in AllEvents(r.pages) :: exists i | 0 <= i < |rows| :: rows[i].thread == e.thread)
    && (forall i, j | 0 <= i < j < |rows| :: StrLess(rows[i].path, rows[j].path) && rows[i].thread != rows[j].thread)
  }

  ghost predicate ActionsTell(d: Digests, b: Body) {
    && (forall a | a in b.actions :: exists c | c in b.descendants :: ActsOn(d, b.parent.host, a, c))
    && (forall c | c in b.descendants :: Does(b.actions, c.thread, Archive))
    && (forall c | c in b.descendants && Active(c.status) :: Does(b.actions, c.thread, Interrupt))
    && InTurn(b.actions)
  }

  /** The plan of a request. */
  ghost predicate Tells(d: Digests, r: Request, p: Plan) {
    && p.body.goalId == r.goalId && p.body.taskId == r.taskId && p.body.parent == r.parent
    && p.body.retained == [] && !p.body.boardMutation && p.sha == d.plan(p.body)
    && DescendantsTell(r, p.body.descendants) && ActionsTell(d, p.body)
  }

  lemma ActionOrderStrict()
    ensures StrictOrder(ActionOrder)
  {
    hide StrLess;
    forall a: Action, b: Action, c: Action | ActionOrder(a, b) && ActionOrder(b, c) ensures ActionOrder(a, c) {
      if StrLess(a.path, b.path) && StrLess(b.path, c.path) {
        StrLessTransitive(a.path, b.path, c.path);
      }
      if StrLess(a.thread, b.thread) && StrLess(b.thread, c.thread) {
        StrLessTransitive(a.thread, b.thread, c.thread);
      }
    }
    forall a: Action ensures !ActionOrder(a, a) {
      StrLessStrict(a.path, a.path);
      StrLessStrict(a.thread, a.thread);
    }
  }

  /** The turn of an action. */
  function Turn(a: Action): (Option<int>, string) {
    (a.sequence, a.path)
  }

  lemma {:induction false} TurnsDistinct(d: Digests, host: string, live: map<string, Status>, children: seq<Child>)
    requires forall i, j | 0 <= i < j < |children| :: children[i].path != children[j].path
    ensures DistinctBy(Turn, AllActions(d, host, live, children))
    ensures forall a | a in AllActions(d, host, live, children) :: a.sequence == Some(1) || a.sequence == Some(2)
  {
    if children != [] {
      var n := |children| - 1;
      var before, last := AllActions(d, host, live, children[..n]), ActionsFor(d, host, live, children[n]);
      TurnsDistinct(d, host, live, children[..n]);
      forall a | a in before ensures a.path != children[n].path {
        ActionsOfChildren(d, host, live, children[..n], a);
        var c :| c in children[..n] && a in ActionsFor(d, host, live, c);
      }
    }
  }

  lemma SortedInTurn(actions: seq<Action>)
    requires DistinctBy(Turn, actions)
    requires forall a | a in actions :: a.sequence == Some(1) || a.sequence == Some(2)
    ensures InTurn(Sorted(ActionOrder, actions))
  {
    hide StrLess, StrictOrder, InTurn, Sorted;
    ActionOrderStrict();
    forall i, j | 0 <= i < j < |actions|
      ensures ActionOrder(actions[i], actions[j]) || ActionOrder(actions[j], actions[i])
    {
      assert Turn(actions[i]) != Turn(actions[j]);
      StrLessStrict(actions[i].path, actions[j].path);
    }
    SortedOrdered(ActionOrder, actions);
    SortedDistinct(ActionOrder, Turn, actions);
    SameElements(ActionOrder, actions);
    OrderedInTurn(Sorted(ActionOrder, actions));
  }

  lemma OrderedInTurn(sorted: seq<Action>)
    requires DistinctBy(Turn, sorted) && Ordered(ActionOrder, sorted)
    requires forall a | a in sorted :: a.sequence == Some(1) || a.sequence == Some(2)
    ensures InTurn(sorted)
  {
    hide StrLess;
    forall i, j | 0 <= i < j < |sorted|
      ensures sorted[i].sequence.Some? && sorted[j].sequence.Some?
      ensures || sorted[i].sequence.value < sorted[j].sequence.value
              || (sorted[i].sequence == sorted[j].sequence && StrLess(sorted[i].path, sorted[j].path))
    {
      assert sorted[i] in sorted && sorted[j] in sorted && ActionOrder(sorted[i], sorted[j]);
      assert Turn(sorted[i]) != Turn(sorted[j]);
    }
  }

  lemma ChildTells(r: Request, live: map<string, Status>, children: seq<Child>)
    requires IsHistory(r.parent, AllEvents(r.pages), children) && LiveTable(r.live, live)
    ensures DescendantsTell(r, Descendants(live, children))
  {
    hide AllEvents, Names, NewestKind, Under, StrLess;
    var rows := Descendants(live, children);
    forall i | 0 <= i < |rows| ensures StatusListed(r.live, rows[i]) {
      StatusFound(r.live, live, rows[i]);
    }
    forall e | e in AllEvents(r.pages) ensures exists i | 0 <= i < |rows| :: rows[i].thread == e.thread {
      assert Listed(children, e.thread, e.path);
      var c :| c in children && c.thread == e.thread && c.path == e.path;
      var i :| 0 <= i < |children| && children[i] == c;
      assert rows[i].thread == e.thread;
    }
    forall i, j | 0 <= i < j < |rows| ensures StrLess(rows[i].path, rows[j].path) && rows[i].thread != rows[j].thread {
      assert ChildOrder(children[i], children[j]) && children[i].path != children[j].path;
    }
  }

  lemma StatusFound(rows: seq<AgentRow>, live: map<string, Status>, c: Descendant)
    requires LiveTable(rows, live) && c.status == StatusOf(live, c.path)
    ensures StatusListed(rows, c)
  {
    if i :| 0 <= i < |rows| && rows[i].path == c.path {
      assert live[c.path] == rows[i].status;
    }
  }

  lemma BodyTells(d: Digests, r: Request, live: map<string, Status>, children: seq<Child>)
    requires OneToOne(children)
    ensures ActionsTell(d, PlanBody(d, r, live, children))
  {
    hide Sorted, AllActions, ActionsFor, ActsOn, Does, InTurn;
    var b, host := PlanBody(d, r, live, children), r.parent.host;
    var all := AllActions(d, host, live, children);
    SameElements(ActionOrder, all);
    forall a | a in b.actions ensures exists c | c in b.descendants :: ActsOn(d, host, a, c) {
      ActionsOfChildren(d, host, live, children, a);
      var c :| c in children && a in ActionsFor(d, host, live, c);
      var i :| 0 <= i < |children| && children[i] == c;
      ActionTells(d, host, live, c, a);
      assert b.descendants[i] == Describe(live, c);
    }
    PlannedCovers(d, r, live, children);
    forall c | c in b.descendants
      ensures Does(b.actions, c.thread, Archive) && (Active(c.status) ==> Does(b.actions, c.thread, Interrupt))
    {
      var i :| 0 <= i < |b.descendants| && b.descendants[i] == c;
    }
    TurnsDistinct(d, host, live, children);
    SortedInTurn(all);
  }

  lemma ActionTells(d: Digests, host: string, live: map<string, Status>, c: Child, a: Action)
    requires a in ActionsFor(d, host, live, c)
    ensures ActsOn(d, host, a, Describe(live, c))
  {}

  /** Every compiled plan says what it should. */
  lemma CompiledTells(d: Digests, r: Request, plan: Plan)
    requires Compiled(d, r, plan)
    ensures Tells(d, r, plan)
  {
    hide AllEvents, Chained, LiveTable, InventoryKnown, Consistent, IsHistory, Sorted, AllActions, DescendantsTell,
      ActionsTell;
    var children, live :| IsHistory(r.parent, AllEvents(r.pages), children) && From(d, r, children, plan, live);
    ChildTells(r, live, children);
    assert Describes(r.parent, AllEvents(r.pages), children) by { HistoryDescribes(r, children); }
    DescribedShape(r.parent, AllEvents(r.pages), children);
    BodyTells(d, r, live, children);
  }

  lemma HistoryDescribes(r: Request, children: seq<Child>)
    requires IsHistory(r.parent, AllEvents(r.pages), children)
    ensures Describes(r.parent, AllEvents(r.pages), children)
  {
    hide Describes, Ordered;
  }

  /** So every interruption comes before every archiving. */
  lemma InterruptsFirst(d: Digests, r: Request, plan: Plan, i: nat, j: nat)
    requires Compiled(d, r, plan) && i < |plan.body.actions| && j < |plan.body.actions|
    requires plan.body.actions[i].kind == Interrupt && plan.body.actions[j].kind == Archive
    ensures i < j
  {
    hide Compiled, DescendantsTell;
    CompiledTells(d, r, plan);
    var actions := plan.body.actions;
    assert actions[i] in actions && actions[j] in actions;
  }
}
