/**
 The terminal gate's own reading of a child closeout plan, and its agreement with the compiler that writes them.
 */
module ChildPlanCheck {
  import opened Common
  import opened Sorting
  import opened ChildCloseout

  datatype Mismatch =
    | Identity | NestedPersistence | Ownership | DescendantConflict | ActionTarget | ActionSequence | ActionId
    | ArchiveMissing | InterruptPolicy | DigestMismatch

  function ExpectedSequence(kind: ActionKind): Option<int> {
    if kind == Interrupt then Some(1) else if kind == Archive then Some(2) else None
  }

  predicate DescendantOk(parent: Parent, d: Descendant) {
    Under(d.path, parent.path) && d.authority.None?
  }

  ghost predicate DescendantsOk(parent: Parent, rows: seq<Descendant>) {
    && (forall i | 0 <= i < |rows| :: DescendantOk(parent, rows[i]))
    && (forall i, j | 0 <= i < j < |rows| :: rows[i].thread != rows[j].thread && rows[i].path != rows[j].path)
  }

  predicate Targets(rows: seq<Descendant>, a: Action) {
    exists i | 0 <= i < |rows| :: rows[i].thread == a.thread && rows[i].path == a.path
  }

  ghost predicate ActionOk(d: Digests, b: Body, a: Action) {
    && Targets(b.descendants, a) && a.host == b.parent.host
    && a.sequence == ExpectedSequence(a.kind)
    && a.id == d.actionId(a.kind, a.thread, a.path)
  }

  predicate Does(actions: seq<Action>, thread: string, kind: ActionKind) {
    exists i | 0 <= i < |actions| :: actions[i].thread == thread && actions[i].kind == kind
  }

  ghost predicate ActionsOk(d: Digests, b: Body) {
    && (forall i | 0 <= i < |b.actions| :: ActionOk(d, b, b.actions[i]))
    && (forall i, j | 0 <= i < j < |b.actions| :: b.actions[i].id != b.actions[j].id)
  }

  /** Every child is archived, and interrupted exactly when it is active. */
  ghost predicate Covers(b: Body) {
    forall i | 0 <= i < |b.descendants| ::
      && Does(b.actions, b.descendants[i].thread, Archive)
      && (Does(b.actions, b.descendants[i].thread, Interrupt) <==> Active(b.descendants[i].status))
  }

  /** What the terminal gate accepts. An unrecognised action without a sequence is not refused. */
  ghost predicate Acceptable(d: Digests, p: Plan, goalId: string, taskId: string) {
    && p.body.goalId == goalId && p.body.taskId == taskId && !p.body.boardMutation && p.body.retained == []
    && DescendantsOk(p.body.parent, p.body.descendants)
    && ActionsOk(d, p.body) && Covers(p.body)
    && p.sha == d.plan(p.body)
  }

  // ---------------------------------------------------------------- the check as performed

  ghost predicate ByThread(table: map<string, Descendant>, rows: seq<Descendant>) {
    && (forall i | 0 <= i < |rows| :: rows[i].thread in table && table[rows[i].thread] == rows[i])
    && (forall t | t in table :: exists i | 0 <= i < |rows| :: rows[i].thread == t)
  }

  ghost predicate PathsOf(paths: set<string>, rows: seq<Descendant>) {
    forall p :: p in paths <==> exists i | 0 <= i < |rows| :: rows[i].path == p
  }

  lemma PathsGrow(rows: seq<Descendant>, row: Descendant, paths: set<string>)
    requires PathsOf(paths, rows)
    ensures PathsOf(paths + {row.path}, rows + [row])
  {
    var all, n := rows + [row], |rows|;
    assert all[n] == row && forall i | 0 <= i < n :: all[i] == rows[i];
  }

  lemma ThreadsGrow(rows: seq<Descendant>, row: Descendant, table: map<string, Descendant>)
    requires ByThread(table, rows) && row.thread !in table
    ensures ByThread(table[row.thread := row], rows + [row])
  {
    var all, n := rows + [row], |rows|;
    assert all[n] == row && forall i | 0 <= i < n :: all[i] == rows[i];
    forall t | t in table ensures exists i | 0 <= i < |all| :: all[i].thread == t {
      var i :| 0 <= i < n && rows[i].thread == t;
      assert all[i].thread == t;
    }
  }

  lemma DescendantGrows(parent: Parent, rows: seq<Descendant>, row: Descendant, table: map<string, Descendant>,
    paths: set<string>)
    requires DescendantsOk(parent, rows) && ByThread(table, rows) && PathsOf(paths, rows)
    ensures DescendantsOk(parent, rows + [row]) <==>
      DescendantOk(parent, row) && row.thread !in table && row.path !in paths
  {
    hide DescendantOk;
    var all, n := rows + [row], |rows|;
    assert all[n] == row && forall i | 0 <= i < n :: all[i] == rows[i];
    if row.thread in table {
      var i :| 0 <= i < n && rows[i].thread == row.thread;
      assert all[i].thread == all[n].thread;
    }
    if row.path in paths {
      var i :| 0 <= i < n && rows[i].path == row.path;
      assert all[i].path == all[n].path;
    }
  }

  lemma DescendantsShrink(parent: Parent, rows: seq<Descendant>, n: nat)
    requires n <= |rows| && DescendantsOk(parent, rows)
    ensures DescendantsOk(parent, rows[..n])
  {
    hide Under;
  }

  method CheckDescendants(parent: Parent, rows: seq<Descendant>)
    returns (res: Result<map<string, Descendant>, Mismatch>)
    ensures res.Ok? <==> DescendantsOk(parent, rows)
    ensures res.Ok? ==> ByThread(res.value, rows)
  {
    hide Under, DescendantOk;
    var table: map<string, Descendant> := map[];
    var paths: set<string> := {};
    for n := 0 to |rows|
      invariant DescendantsOk(parent, rows[..n]) && ByThread(table, rows[..n]) && PathsOf(paths, rows[..n])
    {
      var row := rows[n];
      assert rows[..n + 1] == rows[..n] + [row];
      DescendantGrows(parent, rows[..n], row, table, paths);
      if !DescendantOk(parent, row) || row.thread in table || row.path in paths {
        if DescendantsOk(parent, rows) {
          DescendantsShrink(parent, rows, n + 1);
        }
        return Err(if DescendantOk(parent, row) then DescendantConflict else Ownership);
      }
      ThreadsGrow(rows[..n], row, table);
      PathsGrow(rows[..n], row, paths);
      table := table[row.thread := row];
      paths := paths + {row.path};
    }
    assert rows[..|rows|] == rows;
    return Ok(table);
  }

  ghost predicate IdsOf(ids: set<string>, actions: seq<Action>) {
    forall x :: x in ids <==> exists i | 0 <= i < |actions| :: actions[i].id == x
  }

  ghost predicate PairsOf(pairs: set<(string, ActionKind)>, actions: seq<Action>) {
    forall t, k :: (t, k) in pairs <==> Does(actions, t, k)
  }

  lemma ActionGrows(d: Digests, b: Body, actions: seq<Action>, a: Action, ids: set<string>,
    pairs: set<(string, ActionKind)>)
    requires ActionsOk(d, b.(actions := actions)) && IdsOf(ids, actions) && PairsOf(pairs, actions)
    ensures ActionsOk(d, b.(actions := actions + [a])) <==> ActionOk(d, b, a) && a.id !in ids
    ensures IdsOf(ids + {a.id}, actions + [a])
    ensures PairsOf(pairs + {(a.thread, a.kind)}, actions + [a])
  {
    hide Targets;
    var all, n := actions + [a], |actions|;
    assert all[n] == a && forall i | 0 <= i < n :: all[i] == actions[i];
    if a.id in ids {
      var i :| 0 <= i < n && actions[i].id == a.id;
      assert all[i].id == all[n].id;
    }
    forall t, k ensures Does(all, t, k) <==> Does(actions, t, k) || (a.thread == t && a.kind == k) {
      if Does(actions, t, k) {
        var i :| 0 <= i < n && actions[i].thread == t && actions[i].kind == k;
        assert all[i] == actions[i];
      }
    }
  }

  lemma ActionsShrink(d: Digests, b: Body, n: nat)
    requires n <= |b.actions| && ActionsOk(d, b)
    ensures ActionsOk(d, b.(actions := b.actions[..n]))
  {
    hide Targets;
  }

  lemma TargetByThread(rows: seq<Descendant>, table: map<string, Descendant>, a: Action)
    requires ByThread(table, rows)
    ensures Targets(rows, a) <==> a.thread in table && table[a.thread].path == a.path
  {}

  method CheckActions(d: Digests, b: Body, table: map<string, Descendant>)
    returns (res: Result<set<(string, ActionKind)>, Mismatch>)
    requires ByThread(table, b.descendants)
    ensures res.Ok? <==> ActionsOk(d, b)
    ensures res.Ok? ==> PairsOf(res.value, b.actions)
  {
    hide Targets, ByThread;
    var ids: set<string> := {};
    var pairs: set<(string, ActionKind)> := {};
    for n := 0 to |b.actions|
      invariant ActionsOk(d, b.(actions := b.actions[..n])) && IdsOf(ids, b.actions[..n])
        && PairsOf(pairs, b.actions[..n])
    {
      var a := b.actions[n];
      assert b.actions[..n + 1] == b.actions[..n] + [a];
      ActionGrows(d, b, b.actions[..n], a, ids, pairs);
      if ActionsOk(d, b) {
        ActionsShrink(d, b, n + 1);
      }
      TargetByThread(b.descendants, table, a);
      if a.id in ids || a.thread !in table || a.path != table[a.thread].path || a.host != b.parent.host {
        return Err(ActionTarget);
      }
      if a.sequence != ExpectedSequence(a.kind) {
        return Err(ActionSequence);
      }
      if a.id != d.actionId(a.kind, a.thread, a.path) {
        return Err(ActionId);
      }
      ids := ids + {a.id};
      pairs := pairs + {(a.thread, a.kind)};
    }
    assert b.actions[..|b.actions|] == b.actions;
    assert b.(actions := b.actions) == b;
    return Ok(pairs);
  }

  /** `_validate_parent_child_plan`. */
  method Check(d: Digests, p: Plan, goalId: string, taskId: string) returns (res: Result<(), Mismatch>)
    ensures res.Ok? <==> Acceptable(d, p, goalId, taskId)
  {
    hide DescendantsOk, ActionsOk;
    var b := p.body;
    if b.goalId != goalId || b.taskId != taskId || b.boardMutation {
      return Err(Identity);
    }
    if b.retained != [] {
      return Err(NestedPersistence);
    }
    var table := CheckDescendants(b.parent, b.descendants);
    if table.Err? {
      return Err(table.error);
    }
    var pairs := CheckActions(d, b, table.value);
    if pairs.Err? {
      return Err(pairs.error);
    }
    for n := 0 to |b.descendants|
      invariant forall i | 0 <= i < n ::
        && Does(b.actions, b.descendants[i].thread, Archive)
        && (Does(b.actions, b.descendants[i].thread, Interrupt) <==> Active(b.descendants[i].status))
    {
      var row := b.descendants[n];
      if (row.thread, Archive) !in pairs.value {
        return Err(ArchiveMissing);
      }
      if ((row.thread, Interrupt) in pairs.value) != Active(row.status) {
        return Err(InterruptPolicy);
      }
    }
    if p.sha != d.plan(b) {
      return Err(DigestMismatch);
    }
    return Ok(());
  }

  /** The accepted actions are not pinned down: an action of an unknown kind, without a sequence, slips through. */
  lemma UnknownActionAccepted(d: Digests, p: Plan, goalId: string, taskId: string, name: string, i: nat)
    requires Acceptable(d, p, goalId, taskId) && i < |p.body.descendants|
    requires var x := d.actionId(OtherAction(name), p.body.descendants[i].thread, p.body.descendants[i].path);
      forall k | 0 <= k < |p.body.actions| :: p.body.actions[k].id != x
    ensures var child := p.body.descendants[i];
      var extra := Action(d.actionId(OtherAction(name), child.thread, child.path), None, OtherAction(name),
        child.thread, p.body.parent.host, child.path);
      var body := p.body.(actions := p.body.actions + [extra]);
      Acceptable(d, Plan(body, d.plan(body)), goalId, taskId)
  {
    hide Under;
    var child := p.body.descendants[i];
    var extra := Action(d.actionId(OtherAction(name), child.thread, child.path), None, OtherAction(name), child.thread,
      p.body.parent.host, child.path);
    var all, n := p.body.actions + [extra], |p.body.actions|;
    assert all[n] == extra && forall j | 0 <= j < n :: all[j] == p.body.actions[j];
    forall t, k | k != OtherAction(name) ensures Does(all, t, k) <==> Does(p.body.actions, t, k) {
      if Does(p.body.actions, t, k) {
        var j :| 0 <= j < n && p.body.actions[j].thread == t && p.body.actions[j].kind == k;
        assert all[j] == p.body.actions[j];
      }
    }
  }

  // ---------------------------------------------------------------- agreement

  lemma {:induction false} ActionsOfChildren(d: Digests, host: string, live: map<string, Status>, children: seq<Child>,
    a: Action)
    ensures a in AllActions(d, host, live, children) <==> exists c | c in children :: a in ActionsFor(d, host, live, c)
  {
    if children != [] {
      var n := |children| - 1;
      ActionsOfChildren(d, host, live, children[..n], a);
      assert children == children[..n] + [children[n]];
    }
  }

  /** Different children have different actions, and so do the two actions of one child. */
  lemma {:induction false} IdsDistinct(d: Digests, host: string, live: map<string, Status>, children: seq<Child>)
    requires Injective(d)
    requires forall i, j | 0 <= i < j < |children| :: children[i].thread != children[j].thread
    ensures DistinctBy((a: Action) => a.id, AllActions(d, host, live, children))
  {
    if children != [] {
      var n := |children| - 1;
      var before, last := AllActions(d, host, live, children[..n]), ActionsFor(d, host, live, children[n]);
      IdsDistinct(d, host, live, children[..n]);
      forall a | a in before ensures forall b | b in last :: a.id != b.id {
        ActionsOfChildren(d, host, live, children[..n], a);
        var c :| c in children[..n] && a in ActionsFor(d, host, live, c);
        assert c.thread != children[n].thread;
      }
      Joined(before, last);
    }
  }

  lemma Joined(a: seq<Action>, b: seq<Action>)
    requires DistinctBy((x: Action) => x.id, a) && DistinctBy((x: Action) => x.id, b)
    requires forall x, y | x in a && y in b :: x.id != y.id
    ensures DistinctBy((x: Action) => x.id, a + b)
  {
    var all := a + b;
    forall i, j | 0 <= i < j < |all| ensures all[i].id != all[j].id {
      if i < |a| <= j {
        assert all[i] in a && all[j] in b;
      } else if j < |a| {
        assert all[i] == a[i] && all[j] == a[j];
      } else {
        assert all[i] == b[i - |a|] && all[j] == b[j - |a|];
      }
    }
  }

  ghost predicate OneToOne(children: seq<Child>) {
    forall i, j | 0 <= i < j < |children| ::
      children[i].thread != children[j].thread && children[i].path != children[j].path
  }

  lemma PlannedDescendants(parent: Parent, live: map<string, Status>, children: seq<Child>)
    requires OneToOne(children) && forall c | c in children :: Under(c.path, parent.path)
    ensures DescendantsOk(parent, Descendants(live, children))
  {
    hide Under;
  }

  lemma PlannedAction(d: Digests, b: Body, live: map<string, Status>, children: seq<Child>, a: Action, c: Child)
    requires b.descendants == Descendants(live, children) && c in children && a in ActionsFor(d, b.parent.host, live, c)
    ensures ActionOk(d, b, a)
  {
    var i :| 0 <= i < |children| && children[i] == c;
    assert b.descendants[i].thread == a.thread && b.descendants[i].path == a.path;
  }

  lemma PlannedActions(d: Digests, r: Request, live: map<string, Status>, children: seq<Child>)
    requires Injective(d) && OneToOne(children)
    ensures ActionsOk(d, PlanBody(d, r, live, children))
  {
    hide Sorted, AllActions, ActionsFor, ActionOk, Descendants;
    var b := PlanBody(d, r, live, children);
    var all := AllActions(d, r.parent.host, live, children);
    SameElements(ActionOrder, all);
    forall i | 0 <= i < |b.actions| ensures ActionOk(d, b, b.actions[i]) {
      assert b.actions[i] in b.actions;
      assert b.actions[i] in all;
      ActionsOfChildren(d, r.parent.host, live, children, b.actions[i]);
      var c :| c in children && b.actions[i] in ActionsFor(d, r.parent.host, live, c);
      PlannedAction(d, b, live, children, b.actions[i], c);
    }
    IdsDistinct(d, r.parent.host, live, children);
    SortedDistinct(ActionOrder, (a: Action) => a.id, all);
  }

  lemma PlannedCovers(d: Digests, r: Request, live: map<string, Status>, children: seq<Child>)
    requires OneToOne(children)
    ensures Covers(PlanBody(d, r, live, children))
  {
    hide Sorted, AllActions;
    var b := PlanBody(d, r, live, children);
    var all := AllActions(d, r.parent.host, live, children);
    SameElements(ActionOrder, all);
    forall i | 0 <= i < |b.descendants|
      ensures Does(b.actions, b.descendants[i].thread, Archive)
      ensures Does(b.actions, b.descendants[i].thread, Interrupt) <==> Active(b.descendants[i].status)
    {
      var c := children[i];
      var archive, interrupt := NewAction(d, r.parent.host, Archive, c), NewAction(d, r.parent.host, Interrupt, c);
      ActionsOfChildren(d, r.parent.host, live, children, archive);
      ActionsOfChildren(d, r.parent.host, live, children, interrupt);
      assert archive in ActionsFor(d, r.parent.host, live, c);
      DoesIn(b.actions, archive);
      if Active(b.descendants[i].status) {
        assert interrupt in ActionsFor(d, r.parent.host, live, c);
        DoesIn(b.actions, interrupt);
      }
      if Does(b.actions, c.thread, Interrupt) {
        var k :| 0 <= k < |b.actions| && b.actions[k].thread == c.thread && b.actions[k].kind == Interrupt;
        assert b.actions[k] in b.actions;
        ActionsOfChildren(d, r.parent.host, live, children, b.actions[k]);
        var e :| e in children && b.actions[k] in ActionsFor(d, r.parent.host, live, e);
        assert e.thread == c.thread;
        assert e == c;
      }
    }
  }

  lemma DoesIn(actions: seq<Action>, a: Action)
    requires a in actions
    ensures Does(actions, a.thread, a.kind)
  {}

  lemma DescribedShape(parent: Parent, events: seq<Event>, children: seq<Child>)
    requires Describes(parent, events, children)
    ensures OneToOne(children) && forall c | c in children :: Under(c.path, parent.path)
  {
    hide Names, NewestKind, Under;
  }

  /**
   Closeout and terminal gate agree: every plan the closeout compiler writes is accepted for its own goal and task.
   */
  lemma CompiledPlansAccepted(d: Digests, r: Request, plan: Plan)
    requires Injective(d) && Compiled(d, r, plan)
    ensures Acceptable(d, plan, r.goalId, r.taskId)
  {
    hide AllEvents, Chained, Consistent, LiveTable, InventoryKnown, Describes, Covers, ActionsOk, DescendantsOk, Sorted;
    var children, live :| IsHistory(r.parent, AllEvents(r.pages), children) && From(d, r, children, plan, live);
    DescribedShape(r.parent, AllEvents(r.pages), children);
    PlannedDescendants(r.parent, live, children);
    PlannedActions(d, r, live, children);
    PlannedCovers(d, r, live, children);
  }

  /** The two programs end to end: compile, then check. */
  method CompileThenCheck(d: Digests, r: Request) returns (plan: Result<Plan, Error>, verdict: Result<(), Mismatch>)
    requires Injective(d)
    ensures plan.Ok? ==> verdict.Ok?
  {
    hide Acceptable, Compiled, Compilable;
    plan := CompilePlan(d, r);
    verdict := Ok(());
    if plan.Ok? {
      CompiledPlansAccepted(d, r, plan.value);
      verdict := Check(d, plan.value, r.goalId, r.taskId);
    }
  }
}
