/** The last board transition: one task, the terminal one, goes from active to done, and nothing else moves. */
module TerminalTransition {
  import opened Common

  datatype TaskStatus = Queued | Active | Blocked | Done

  datatype Task = Task(id: string, kind: string, status: TaskStatus)

  datatype BoardStatus = Open | Stuck | Closed

  datatype Board = Board(goalId: string, status: BoardStatus, activeTask: Option<string>, tasks: seq<Task>)

  datatype Error = SchemaInvalid | Premature | StateMismatch | NonterminalTasks

  ghost predicate DistinctTasks(tasks: seq<Task>) {
    forall i, j | 0 <= i < j < |tasks| :: tasks[i].id != tasks[j].id
  }

  predicate HasTask(tasks: seq<Task>, id: string) {
    exists i | 0 <= i < |tasks| :: tasks[i].id == id
  }

  function ById(tasks: seq<Task>): (table: map<string, Task>)
    requires DistinctTasks(tasks)
    ensures forall i | 0 <= i < |tasks| :: tasks[i].id in table && table[tasks[i].id] == tasks[i]
    ensures forall id :: id in table <==> HasTask(tasks, id)
    ensures forall id | id in table :: table[id] in tasks && table[id].id == id
  {
    map i | 0 <= i < |tasks| :: tasks[i].id := tasks[i]
  }

  /** `_validate_board`: no task twice. */
  method ValidateBoard(b: Board) returns (res: Result<(), Error>)
    ensures res.Ok? <==> DistinctTasks(b.tasks)
  {
    var seen: set<string> := {};
    for n := 0 to |b.tasks|
      invariant forall i, j | 0 <= i < j < n :: b.tasks[i].id != b.tasks[j].id
      invariant forall x :: x in seen <==> exists i | 0 <= i < n :: b.tasks[i].id == x
    {
      if b.tasks[n].id in seen {
        return Err(SchemaInvalid);
      }
      seen := seen + {b.tasks[n].id};
    }
    return Ok(());
  }

  /** What `plan` asks of the board: open, on the terminal task, with no other task queued or active. */
  ghost predicate ReadyToClose(b: Board, terminal: string) {
    && b.status == Open && b.activeTask == Some(terminal)
    && HasTask(b.tasks, terminal)
    && (forall t | t in b.tasks && t.id == terminal :: t.status == Active)
    && (forall t | t in b.tasks && t.id != terminal :: t.status == Done || t.status == Blocked)
  }

  method CheckBoard(b: Board, terminal: string) returns (res: Result<(), Error>)
    ensures res.Ok? <==> DistinctTasks(b.tasks) && ReadyToClose(b, terminal)
  {
    res := ValidateBoard(b);
    if res.Err? {
      return;
    }
    if b.status != Open {
      return Err(Premature);
    }
    var tasks := ById(b.tasks);
    if terminal !in tasks || b.activeTask != Some(terminal) || tasks[terminal].status != Active {
      return Err(StateMismatch);
    }
    if exists id | id in tasks :: id != terminal && (tasks[id].status == Queued || tasks[id].status == Active) {
      return Err(NonterminalTasks);
    }
    forall t | t in b.tasks ensures t.id in tasks && tasks[t.id] == t {
      var i :| 0 <= i < |b.tasks| && b.tasks[i] == t;
    }
    return Ok(());
  }

  /** How one task may look after the transition. */
  predicate Moves(pre: Task, post: Task, active: string) {
    && post.kind == pre.kind
    && if pre.id == active then pre.status == Active && post.status == Done
       else (pre.status == Done || pre.status == Blocked) && post.status == pre.status
  }

  ghost predicate TransitionOk(pre: Board, post: Board) {
    && pre.goalId == post.goalId && pre.status == Open && post.status == Closed
    && pre.activeTask.Some? && post.activeTask.None?
    && (forall id :: HasTask(pre.tasks, id) <==> HasTask(post.tasks, id))
    && (forall s, t | s in pre.tasks && t in post.tasks && s.id == t.id :: Moves(s, t, pre.activeTask.value))
  }

  lemma InTable(tasks: seq<Task>, t: Task)
    requires DistinctTasks(tasks) && t in tasks
    ensures t.id in ById(tasks) && ById(tasks)[t.id] == t
  {
    var i :| 0 <= i < |tasks| && tasks[i] == t;
  }

  /** Comparing the two dictionaries is comparing the boards. */
  lemma MovesByTable(pre: seq<Task>, post: seq<Task>, active: string)
    requires DistinctTasks(pre) && DistinctTasks(post) && ById(pre).Keys == ById(post).Keys
    ensures (forall id | id in ById(pre) :: Moves(ById(pre)[id], ById(post)[id], active))
      <==> (forall s, t | s in pre && t in post && s.id == t.id :: Moves(s, t, active))
  {
    hide Moves, ById;
    var before, after := ById(pre), ById(post);
    if forall id | id in before :: Moves(before[id], after[id], active) {
      forall s, t | s in pre && t in post && s.id == t.id ensures Moves(s, t, active) {
        InTable(pre, s);
        InTable(post, t);
      }
    }
  }

  /** `_validate_terminal_transition`. */
  method CheckTransition(pre: Board, post: Board) returns (res: Result<(), Error>)
    requires DistinctTasks(pre.tasks) && DistinctTasks(post.tasks)
    ensures res.Ok? <==> TransitionOk(pre, post)
  {
    hide Moves, ById, HasTask;
    if pre.goalId != post.goalId || pre.status != Open || post.status != Closed || pre.activeTask.None?
      || post.activeTask.Some?
    {
      return Err(StateMismatch);
    }
    var before, after := ById(pre.tasks), ById(post.tasks);
    assert forall id :: id in before.Keys <==> HasTask(pre.tasks, id);
    assert forall id :: id in after.Keys <==> HasTask(post.tasks, id);
    if before.Keys != after.Keys {
      return Err(StateMismatch);
    }
    MovesByTable(pre.tasks, post.tasks, pre.activeTask.value);
    if exists id | id in before :: !Moves(before[id], after[id], pre.activeTask.value) {
      return Err(StateMismatch);
    }
    return Ok(());
  }

  /** The board with its terminal task done and itself closed. */
  function Close(pre: Board, terminal: string): Board {
    pre.(status := Closed, activeTask := None,
         tasks := seq(|pre.tasks|, i requires 0 <= i < |pre.tasks| =>
           if pre.tasks[i].id == terminal then pre.tasks[i].(status := Done) else pre.tasks[i]))
  }

  /** Closing a checked board is a transition that is accepted, and the only one up to the order of the tasks. */
  lemma ClosingAccepted(pre: Board, post: Board, terminal: string)
    requires DistinctTasks(pre.tasks) && ReadyToClose(pre, terminal)
    ensures TransitionOk(pre, Close(pre, terminal))
    ensures TransitionOk(pre, post) ==> forall t :: t in post.tasks <==> t in Close(pre, terminal).tasks
  {
    var closed := Close(pre, terminal);
    forall id ensures HasTask(pre.tasks, id) <==> HasTask(closed.tasks, id) {
      if i :| 0 <= i < |pre.tasks| && pre.tasks[i].id == id {
        assert closed.tasks[i].id == id;
      }
      if i :| 0 <= i < |closed.tasks| && closed.tasks[i].id == id {
        assert pre.tasks[i].id == id;
      }
    }
    forall s, t | s in pre.tasks && t in closed.tasks && s.id == t.id ensures Moves(s, t, terminal) {
      ClosedTask(pre, terminal, s, t);
    }
    if TransitionOk(pre, post) {
      forall t ensures t in post.tasks <==> t in closed.tasks {
        if t in post.tasks {
          OnlyClosing(pre, post, terminal, t);
        }
        if t in closed.tasks {
          ClosedInPost(pre, post, terminal, t);
        }
      }
    }
  }

  lemma ClosedTask(pre: Board, terminal: string, s: Task, t: Task)
    requires DistinctTasks(pre.tasks) && ReadyToClose(pre, terminal)
    requires s in pre.tasks && t in Close(pre, terminal).tasks && s.id == t.id
    ensures Moves(s, t, terminal)
  {
    var closed := Close(pre, terminal);
    var i :| 0 <= i < |pre.tasks| && pre.tasks[i] == s;
    var j :| 0 <= j < |closed.tasks| && closed.tasks[j] == t;
    assert pre.tasks[j].id == t.id;
    assert i == j;
  }

  lemma OnlyClosing(pre: Board, post: Board, terminal: string, t: Task)
    requires ReadyToClose(pre, terminal) && TransitionOk(pre, post) && t in post.tasks
    ensures t in Close(pre, terminal).tasks
  {
    var j :| 0 <= j < |post.tasks| && post.tasks[j] == t;
    assert HasTask(post.tasks, t.id);
    var i :| 0 <= i < |pre.tasks| && pre.tasks[i].id == t.id;
    assert Moves(pre.tasks[i], t, terminal);
    assert Close(pre, terminal).tasks[i] == t;
  }

  lemma ClosedInPost(pre: Board, post: Board, terminal: string, t: Task)
    requires ReadyToClose(pre, terminal) && TransitionOk(pre, post) && t in Close(pre, terminal).tasks
    ensures t in post.tasks
  {
    var i :| 0 <= i < |pre.tasks| && Close(pre, terminal).tasks[i] == t;
    assert HasTask(pre.tasks, t.id) by { assert pre.tasks[i].id == t.id; }
    assert HasTask(post.tasks, t.id);
    var j :| 0 <= j < |post.tasks| && post.tasks[j].id == t.id;
    assert Moves(pre.tasks[i], post.tasks[j], terminal);
    assert post.tasks[j] == t;
  }

  /** A checked board that makes the transition is finished: every task done or blocked, only the terminal one moved. */
  lemma TransitionFinishes(pre: Board, post: Board, terminal: string)
    requires ReadyToClose(pre, terminal) && TransitionOk(pre, post)
    ensures forall t | t in post.tasks :: t.status == Done || t.status == Blocked
    ensures forall t | t in post.tasks && t.id == terminal :: t.status == Done
    ensures forall t | t in post.tasks && t.id != terminal :: t in pre.tasks
  {
    forall t | t in post.tasks
      ensures t.status == Done || t.status == Blocked
      ensures t.id == terminal ==> t.status == Done
      ensures t.id != terminal ==> t in pre.tasks
    {
      var j :| 0 <= j < |post.tasks| && post.tasks[j] == t;
      assert HasTask(post.tasks, t.id);
      var i :| 0 <= i < |pre.tasks| && pre.tasks[i].id == t.id;
      assert Moves(pre.tasks[i], t, terminal);
    }
  }
}
