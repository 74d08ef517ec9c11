/**
 Closing the children of a Parent: their history is read page by page, newest first; every child is archived, and
 interrupted first when it is still active; the plan is confirmed against receipts and a fresh inventory.
 */
module ChildCloseout {
  import opened Common
  import opened JsonText
  import opened Sorting

  type Digest = string

  datatype Kind = Started | Interacted | Completed | Interrupted | Failed

  datatype Status =
    | Running | PendingInit | Waiting | Blocked | Idle
    | Done | Stopped | Broken | Cancelled | NotLoaded

  predicate Active(s: Status) {
    s.Running? || s.PendingInit? || s.Waiting? || s.Blocked? || s.Idle?
  }

  datatype Parent = Parent(thread: string, host: string, path: string)

  datatype Event = Event(thread: string, path: string, kind: Kind)

  datatype Page = Page(requestCursor: Option<string>, hasMore: bool, nextCursor: Option<string>, events: seq<Event>)

  datatype Child = Child(thread: string, path: string, lastKind: Kind)

  datatype AgentRow = AgentRow(path: string, status: Status)

  datatype Error =
    | HistoryIncomplete | ParentMutation | OwnershipUnproven | IdentityConflict
    | InventoryDuplicate | ParentMissing | InventoryIncomplete | PersistenceForbidden
    | PlanMissing | PlanMismatch | ActionDuplicate | ActionFailed | ReceiptsIncomplete | ChildRemains

  // ---------------------------------------------------------------- history

  function Rstrip(path: string): string {
    if path != "" && path[|path| - 1] == '/' then Rstrip(path[..|path| - 1]) else path
  }

  predicate Under(path: string, parent: string) {
    Rstrip(parent) + "/" <= path
  }

  /** The children seen so far, by thread in order of first sight, and the thread each path belongs to. */
  datatype Seen = Seen(children: seq<Child>, paths: map<string, string>)

  function PathOf(children: seq<Child>, thread: string): Option<string> {
    if children == [] then None
    else if children[0].thread == thread then Some(children[0].path)
    else PathOf(children[1..], thread)
  }

  function See(parent: Parent, seen: Seen, e: Event): Result<Seen, Error> {
    var known := PathOf(seen.children, e.thread);
    if e.thread == parent.thread || e.path == parent.path then Err(ParentMutation)
    else if !Under(e.path, parent.path) then Err(OwnershipUnproven)
    else if known.Some? && known.value != e.path then Err(IdentityConflict)
    else if e.path in seen.paths && seen.paths[e.path] != e.thread then Err(IdentityConflict)
    else
      Ok(Seen(if known.None? then seen.children + [Child(e.thread, e.path, e.kind)] else seen.children,
              seen.paths[e.path := e.thread]))
  }

  /** Reading a list of events, newest first. */
  function SeeAll(parent: Parent, events: seq<Event>): Result<Seen, Error> {
    if events == [] then Ok(Seen([], map[])) else
    var n := |events| - 1;
    match SeeAll(parent, events[..n])
    case Err(e) => Err(e)
    case Ok(seen) => See(parent, seen, events[n])
  }

  function AllEvents(pages: seq<Page>): seq<Event> {
    if pages == [] then [] else AllEvents(pages[..|pages| - 1]) + pages[|pages| - 1].events
  }

  /** Each page asks for where the one before ended, and only the last one ends the history. */
  ghost predicate Chained(pages: seq<Page>) {
    && pages != []
    && (forall i | 0 <= i < |pages| :: pages[i].requestCursor == CursorBefore(pages, i))
    && (forall i | 0 <= i < |pages| :: pages[i].hasMore == (i < |pages| - 1))
    && (forall i | 0 <= i < |pages| :: pages[i].nextCursor.Some? <==> pages[i].hasMore)
  }

  function CursorBefore(pages: seq<Page>, i: nat): Option<string>
    requires i <= |pages|
  {
    if i == 0 then None else pages[i - 1].nextCursor
  }

  function ChildOrder(a: Child, b: Child): bool {
    StrLess(a.path, b.path) || (a.path == b.path && StrLess(a.thread, b.thread))
  }

  predicate Names(events: seq<Event>, thread: string, path: string) {
    exists i | 0 <= i < |events| :: events[i].thread == thread && events[i].path == path
  }

  /** The newest event of a thread is the first one listed. */
  ghost predicate NewestKind(events: seq<Event>, thread: string, kind: Kind) {
    exists i | 0 <= i < |events| ::
      && events[i].thread == thread && events[i].kind == kind
      && forall j | 0 <= j < i :: events[j].thread != thread
  }

  predicate Listed(children: seq<Child>, thread: string, path: string) {
    exists c | c in children :: c.thread == thread && c.path == path
  }

  /**
   The children are exactly those the events name, each with its newest event, and threads and paths are one to one.
   */
  ghost predicate Describes(parent: Parent, events: seq<Event>, children: seq<Child>) {
    && (forall c | c in children :: Names(events, c.thread, c.path) && NewestKind(events, c.thread, c.lastKind))
    && (forall e | e in events :: Listed(children, e.thread, e.path))
    && (forall i, j | 0 <= i < j < |children| ::
      children[i].thread != children[j].thread && children[i].path != children[j].path)
    && (forall c | c in children :: c.thread != parent.thread && c.path != parent.path && Under(c.path, parent.path))
  }

  /** Neither the Parent itself nor anything outside it. */
  predicate Owned(parent: Parent, e: Event) {
    e.thread != parent.thread && e.path != parent.path && Under(e.path, parent.path)
  }

  predicate Agree(e: Event, f: Event) {
    e.thread == f.thread <==> e.path == f.path
  }

  /**
   A history that can be trusted: every event is about a thread under the Parent, and threads and paths go together.
   */
  ghost predicate Consistent(parent: Parent, events: seq<Event>) {
    && (forall i | 0 <= i < |events| :: Owned(parent, events[i]))
    && (forall i, j | 0 <= i < |events| && 0 <= j < |events| :: Agree(events[i], events[j]))
  }

  /** The children of a history, in order. */
  ghost predicate IsHistory(parent: Parent, events: seq<Event>, children: seq<Child>) {
    Describes(parent, events, children) && Ordered(ChildOrder, children)
  }

  ghost predicate PathsMatch(seen: Seen) {
    && (forall c | c in seen.children :: c.path in seen.paths && seen.paths[c.path] == c.thread)
    && (forall path | path in seen.paths :: exists c | c in seen.children :: c.path == path)
  }

  lemma {:induction false} PathOfMeaning(children: seq<Child>, thread: string)
    ensures PathOf(children, thread).Some? <==> exists c | c in children :: c.thread == thread
    ensures PathOf(children, thread).Some? ==>
      exists c | c in children :: c.thread == thread && c.path == PathOf(children, thread).value
  {
    if children != [] {
      PathOfMeaning(children[1..], thread);
      assert children == [children[0]] + children[1..];
    }
  }

  lemma NamesGrow(events: seq<Event>, e: Event)
    ensures forall thread, path ::
      Names(events + [e], thread, path) <==> Names(events, thread, path) || (e.thread == thread && e.path == path)
  {
    var all := events + [e];
    assert all[|events|] == e;
    forall thread, path ensures Names(all, thread, path) <==>
      Names(events, thread, path) || (e.thread == thread && e.path == path)
    {
      if Names(events, thread, path) {
        var i :| 0 <= i < |events| && events[i].thread == thread && events[i].path == path;
        assert all[i] == events[i];
      }
    }
  }

  lemma NewestStays(events: seq<Event>, e: Event, thread: string, kind: Kind)
    requires NewestKind(events, thread, kind)
    ensures NewestKind(events + [e], thread, kind)
  {
    var i :| 0 <= i < |events| && events[i].thread == thread && events[i].kind == kind && forall j | 0 <= j < i ::
      events[j].thread != thread;
    assert (events + [e])[i] == events[i];
  }

  lemma NothingMeant(parent: Parent)
    ensures SeeAll(parent, []) == Ok(Seen([], map[])) && Describes(parent, [], []) && PathsMatch(Seen([], map[]))
  {}

  lemma SeeAllStep(parent: Parent, events: seq<Event>)
    requires events != [] && SeeAll(parent, events).Ok?
    ensures var n := |events| - 1;
      && SeeAll(parent, events[..n]).Ok?
      && SeeAll(parent, events) == See(parent, SeeAll(parent, events[..n]).value, events[n])
  {
    hide See;
  }

  /** What the fold over the events means. */
  lemma {:induction false} SeeAllMeaning(parent: Parent, events: seq<Event>)
    requires SeeAll(parent, events).Ok?
    ensures Describes(parent, events, SeeAll(parent, events).value.children)
    ensures PathsMatch(SeeAll(parent, events).value)
  {
    hide Describes, PathsMatch, See, SeeAll;
    if events == [] {
      NothingMeant(parent);
    } else {
      var n := |events| - 1;
      SeeAllStep(parent, events);
      SeeAllMeaning(parent, events[..n]);
      assert events == events[..n] + [events[n]];
      SeeMeaning(parent, events[..n], SeeAll(parent, events[..n]).value, events[n]);
    }
  }

  /** The fold goes on exactly when the next event is the Parent's and agrees with those before. */
  lemma SeeAccepts(parent: Parent, events: seq<Event>, seen: Seen, e: Event)
    requires Describes(parent, events, seen.children) && PathsMatch(seen)
    ensures See(parent, seen, e).Ok? <==> Owned(parent, e) && forall i | 0 <= i < |events| :: Agree(events[i], e)
  {
    hide Under, NewestKind, PathOf;
    PathOfMeaning(seen.children, e.thread);
    var known := PathOf(seen.children, e.thread);
    if See(parent, seen, e).Ok? {
      forall i | 0 <= i < |events| ensures Agree(events[i], e) {
        assert events[i] in events;
        var c :| c in seen.children && c.thread == events[i].thread && c.path == events[i].path;
        if c.thread == e.thread {
          var d :| d in seen.children && d.thread == e.thread && d.path == known.value;
          assert c == d;
        }
      }
    }
    if Owned(parent, e) && forall i | 0 <= i < |events| :: Agree(events[i], e) {
      if known.Some? {
        var c :| c in seen.children && c.thread == e.thread && c.path == known.value;
        var i :| 0 <= i < |events| && events[i].thread == c.thread && events[i].path == c.path;
        assert Agree(events[i], e);
      }
      if e.path in seen.paths {
        var c :| c in seen.children && c.path == e.path;
        var i :| 0 <= i < |events| && events[i].thread == c.thread && events[i].path == c.path;
        assert Agree(events[i], e);
      }
    }
  }

  /** The fold succeeds exactly on consistent histories. */
  lemma {:induction false} SeeAllIff(parent: Parent, events: seq<Event>)
    ensures SeeAll(parent, events).Ok? <==> Consistent(parent, events)
  {
    hide Owned, Agree, See, Describes, PathsMatch;
    if events != [] {
      var n := |events| - 1;
      var front, e := events[..n], events[n];
      SeeAllIff(parent, front);
      ConsistentNext(parent, front, e);
      assert events == front + [e];
      if SeeAll(parent, front).Ok? {
        SeeAllMeaning(parent, front);
        SeeAccepts(parent, front, SeeAll(parent, front).value, e);
      }
    }
  }

  lemma ConsistentNext(parent: Parent, events: seq<Event>, e: Event)
    ensures Consistent(parent, events + [e]) <==>
      Consistent(parent, events) && Owned(parent, e) && forall i | 0 <= i < |events| :: Agree(events[i], e)
  {
    hide Owned;
    var all := events + [e];
    assert all[|events|] == e;
    assert forall i | 0 <= i < |events| :: all[i] == events[i];
    assert Agree(e, e);
    if Consistent(parent, all) {
      forall i | 0 <= i < |events| ensures Owned(parent, events[i]) && Agree(events[i], e) {
        assert Owned(parent, all[i]) && Agree(all[i], all[|events|]);
      }
      forall i, j | 0 <= i < |events| && 0 <= j < |events| ensures Agree(events[i], events[j]) {
        assert Agree(all[i], all[j]);
      }
      assert Owned(parent, all[|events|]);
    }
    if Consistent(parent, events) && Owned(parent, e) && forall i | 0 <= i < |events| :: Agree(events[i], e) {
      forall i, j | 0 <= i < |all| && 0 <= j < |all| ensures Agree(all[i], all[j]) {
        if i < |events| && j < |events| {
          assert Agree(events[i], events[j]);
        }
      }
    }
  }

  lemma SeeMeaning(parent: Parent, events: seq<Event>, seen: Seen, e: Event)
    requires Describes(parent, events, seen.children) && PathsMatch(seen) && See(parent, seen, e).Ok?
    ensures Describes(parent, events + [e], See(parent, seen, e).value.children)
    ensures PathsMatch(See(parent, seen, e).value)
  {
    hide Under, Describes, PathsMatch, PathOf;
    PathOfMeaning(seen.children, e.thread);
    if PathOf(seen.children, e.thread).None? {
      SeeNew(parent, events, seen, e);
    } else {
      assert Listed(seen.children, e.thread, e.path);
      SeeKnown(parent, events, seen, e);
    }
  }

  /** Older events of a child already seen change nothing about it. */
  lemma SeeKnown(parent: Parent, events: seq<Event>, seen: Seen, e: Event)
    requires Describes(parent, events, seen.children) && PathsMatch(seen)
    requires Listed(seen.children, e.thread, e.path)
    requires e.path in seen.paths ==> seen.paths[e.path] == e.thread
    ensures Describes(parent, events + [e], seen.children)
    ensures PathsMatch(Seen(seen.children, seen.paths[e.path := e.thread]))
  {
    hide Under, Names, NewestKind;
    NamesGrow(events, e);
    forall c | c in seen.children ensures NewestKind(events + [e], c.thread, c.lastKind) {
      NewestStays(events, e, c.thread, c.lastKind);
    }
    var known :| known in seen.children && known.thread == e.thread && known.path == e.path;
    assert seen.paths[e.path] == e.thread;
    assert seen.paths[e.path := e.thread] == seen.paths;
  }

  lemma SeeNew(parent: Parent, events: seq<Event>, seen: Seen, e: Event)
    requires Describes(parent, events, seen.children) && PathsMatch(seen)
    requires forall c | c in seen.children :: c.thread != e.thread
    requires e.thread != parent.thread && e.path != parent.path && Under(e.path, parent.path)
    requires e.path in seen.paths ==> seen.paths[e.path] == e.thread
    ensures Describes(parent, events + [e], seen.children + [Child(e.thread, e.path, e.kind)])
    ensures PathsMatch(Seen(seen.children + [Child(e.thread, e.path, e.kind)], seen.paths[e.path := e.thread]))
  {
    hide Under, Names, NewestKind;
    NamesGrow(events, e);
    forall d | d in seen.children ensures NewestKind(events + [e], d.thread, d.lastKind) {
      NewestStays(events, e, d.thread, d.lastKind);
    }
    var c := Child(e.thread, e.path, e.kind);
    var children := seen.children + [c];
    FirstSight(events, e, seen.children);
    assert forall d :: d in children <==> d in seen.children || d == c;
    forall f | f in events + [e] ensures Listed(children, f.thread, f.path) {
      if f == e {
        assert c in children;
      } else {
        assert Listed(seen.children, f.thread, f.path);
      }
    }
    PathsNew(seen, c);
  }

  lemma PathsNew(seen: Seen, c: Child)
    requires PathsMatch(seen) && (c.path in seen.paths ==> seen.paths[c.path] == c.thread)
    ensures PathsMatch(Seen(seen.children + [c], seen.paths[c.path := c.thread]))
  {
    var children := seen.children + [c];
    forall path | path in seen.paths ensures exists d | d in children :: d.path == path {
      var d :| d in seen.children && d.path == path;
      assert d in children;
    }
    assert c in children;
  }

  lemma FirstSight(events: seq<Event>, e: Event, children: seq<Child>)
    requires forall f | f in events :: Listed(children, f.thread, f.path)
    requires forall c | c in children :: c.thread != e.thread
    ensures NewestKind(events + [e], e.thread, e.kind)
  {
    var all := events + [e];
    forall j | 0 <= j < |events| ensures all[j].thread != e.thread {
      assert events[j] in events;
    }
    assert all[|events|] == e;
  }

  // ---------------------------------------------------------------- reading the pages

  lemma PagesPrefix(pages: seq<Page>, n: nat)
    requires n < |pages|
    ensures AllEvents(pages[..n + 1]) == AllEvents(pages[..n]) + pages[n].events
  {
    assert pages[..n + 1][..n] == pages[..n];
  }

  lemma {:induction false} ErrorStays(parent: Parent, events: seq<Event>, more: seq<Event>)
    requires SeeAll(parent, events).Err?
    ensures SeeAll(parent, events + more).Err?
  {
    if more == [] {
      assert events + more == events;
    } else {
      ErrorStays(parent, events, more[..|more| - 1]);
      assert (events + more)[..|events + more| - 1] == events + more[..|more| - 1];
    }
  }

  lemma {:induction false} EventsSplit(pages: seq<Page>, n: nat)
    requires n <= |pages|
    ensures exists more :: AllEvents(pages) == AllEvents(pages[..n]) + more
    decreases |pages| - n
  {
    if n == |pages| {
      assert pages[..n] == pages;
      assert AllEvents(pages) == AllEvents(pages[..n]) + [];
    } else {
      EventsSplit(pages, n + 1);
      var more :| AllEvents(pages) == AllEvents(pages[..n + 1]) + more;
      PagesPrefix(pages, n);
      Assoc(AllEvents(pages[..n]), pages[n].events, more);
    }
  }

  lemma SeeNext(parent: Parent, before: seq<Event>, events: seq<Event>, n: nat)
    requires n < |events|
    ensures SeeAll(parent, before + events[..n + 1]) ==
      if SeeAll(parent, before + events[..n]).Err? then SeeAll(parent, before + events[..n])
      else See(parent, SeeAll(parent, before + events[..n]).value, events[n])
  {
    var all := before + events[..n + 1];
    assert all[..|all| - 1] == before + events[..n] && all[|all| - 1] == events[n];
  }

  /** One page: its events folded onto what was seen before. */
  method ReadPage(parent: Parent, before: seq<Event>, seen: Seen, page: Page) returns (res: Result<Seen, Error>)
    requires SeeAll(parent, before) == Ok(seen)
    ensures res.Ok? ==> res == SeeAll(parent, before + page.events)
    ensures res.Err? ==> SeeAll(parent, before + page.events).Err?
  {
    hide SeeAll, See;
    var current := seen;
    assert before + page.events[..0] == before;
    for n := 0 to |page.events|
      invariant SeeAll(parent, before + page.events[..n]) == Ok(current)
    {
      SeeNext(parent, before, page.events, n);
      var next := See(parent, current, page.events[n]);
      if next.Err? {
        ErrorStays(parent, before + page.events[..n + 1], page.events[n + 1..]);
        assert before + page.events[..n + 1] + page.events[n + 1..] == before + page.events;
        return Err(next.error);
      }
      current := next.value;
    }
    assert page.events[..|page.events|] == page.events;
    return Ok(current);
  }

  lemma NothingSeen(parent: Parent, pages: seq<Page>)
    ensures SeeAll(parent, AllEvents(pages[..0])) == Ok(Seen([], map[]))
  {}

  lemma EarlierPageFails(parent: Parent, pages: seq<Page>, n: nat)
    requires n <= |pages| && SeeAll(parent, AllEvents(pages[..n])).Err?
    ensures SeeAll(parent, AllEvents(pages)).Err?
  {
    hide SeeAll, AllEvents;
    EventsSplit(pages, n);
    var more :| AllEvents(pages) == AllEvents(pages[..n]) + more;
    ErrorStays(parent, AllEvents(pages[..n]), more);
  }

  /** One page continues the one before and promises a next one exactly when it is not the last. */
  predicate Continues(page: Page, expected: Option<string>, last: bool) {
    page.requestCursor == expected && page.hasMore == !last && (page.nextCursor.Some? <==> page.hasMore)
  }

  lemma ChainedPages(pages: seq<Page>)
    requires pages != []
    ensures Chained(pages) <==>
      forall i | 0 <= i < |pages| :: Continues(pages[i], CursorBefore(pages, i), i == |pages| - 1)
  {}

  /** `_history`: well-chained pages, and a consistent list of events however it was cut. */
  method History(pages: seq<Page>, parent: Parent) returns (res: Result<seq<Child>, Error>)
    ensures Answers(pages, parent, res)
  {
    SeeAllIff(parent, AllEvents(pages));
    hide SeeAll, See, Sorted, AllEvents, Chained;
    if pages == [] {
      assert !Chained(pages) by { NoPages(); }
      return Err(HistoryIncomplete);
    }
    ChainedPages(pages);
    NothingSeen(parent, pages);
    var expected: Option<string> := None;
    var seen := Seen([], map[]);
    for index := 0 to |pages|
      invariant expected == CursorBefore(pages, index)
      invariant SeeAll(parent, AllEvents(pages[..index])) == Ok(seen)
      invariant forall i | 0 <= i < index :: Continues(pages[i], CursorBefore(pages, i), i == |pages| - 1)
    {
      var page := pages[index];
      if !Continues(page, expected, index == |pages| - 1) {
        return Err(HistoryIncomplete);
      }
      expected := page.nextCursor;
      var read := ReadPage(parent, AllEvents(pages[..index]), seen, page);
      PagesPrefix(pages, index);
      if read.Err? {
        EarlierPageFails(parent, pages, index + 1);
        return Err(read.error);
      }
      seen := read.value;
    }
    assert pages[..|pages|] == pages;
    SeenIsHistory(parent, AllEvents(pages));
    return Ok(Sorted(ChildOrder, seen.children));
  }

  lemma ChildOrderStrict()
    ensures StrictOrder(ChildOrder)
  {
    hide StrLess;
    forall a: Child, b: Child, c: Child | ChildOrder(a, b) && ChildOrder(b, c) ensures ChildOrder(a, c) {
      if StrLess(a.path, b.path) && StrLess(b.path, c.path) {
        StrLessTransitive(a.path, b.path, c.path);
      }
      if StrLess(a.thread, b.thread) && StrLess(b.thread, c.thread) {
        StrLessTransitive(a.thread, b.thread, c.thread);
      }
    }
    forall a: Child ensures !ChildOrder(a, a) {
      StrLessStrict(a.path, a.path);
      StrLessStrict(a.thread, a.thread);
    }
  }

  lemma SeenIsHistory(parent: Parent, events: seq<Event>)
    requires SeeAll(parent, events).Ok?
    ensures IsHistory(parent, events, Sorted(ChildOrder, SeeAll(parent, events).value.children))
  {
    hide SeeAll, Names, NewestKind, Under, StrictOrder;
    SeeAllMeaning(parent, events);
    var children := SeeAll(parent, events).value.children;
    DescribesSorted(parent, events, children);
    ChildOrderStrict();
    forall i, j | 0 <= i < j < |children|
      ensures ChildOrder(children[i], children[j]) || ChildOrder(children[j], children[i])
    {
      StrLessStrict(children[i].path, children[j].path);
    }
    SortedOrdered(ChildOrder, children);
  }

  /** A history has one list of children. */
  lemma OneHistory(parent: Parent, events: seq<Event>, a: seq<Child>, b: seq<Child>)
    requires IsHistory(parent, events, a) && IsHistory(parent, events, b)
    ensures a == b
  {
    hide Describes, StrictOrder;
    ChildOrderStrict();
    forall c ensures c in a <==> c in b {
      if c in a {
        SameChild(parent, events, a, b, c);
      }
      if c in b {
        SameChild(parent, events, b, a, c);
      }
    }
    OneOrder(ChildOrder, a, b);
  }

  lemma NoPages()
    ensures !Chained([])
  {}

  /** What reading these pages may answer. */
  ghost predicate Answers(pages: seq<Page>, parent: Parent, res: Result<seq<Child>, Error>) {
    && (res.Ok? <==> Chained(pages) && Consistent(parent, AllEvents(pages)))
    && (res.Ok? ==> IsHistory(parent, AllEvents(pages), res.value))
  }

  /**
   The history is the concatenated events: two ways of cutting them into chained pages are read as the same list of
   children.
   */
  lemma PagesIrrelevant(a: seq<Page>, b: seq<Page>, parent: Parent, x: Result<seq<Child>, Error>,
    y: Result<seq<Child>, Error>)
    requires Answers(a, parent, x) && Answers(b, parent, y)
    requires Chained(a) && Chained(b) && AllEvents(a) == AllEvents(b)
    ensures x.Ok? <==> y.Ok?
    ensures x.Ok? ==> x.value == y.value
  {
    hide Chained, AllEvents, Consistent, IsHistory;
    if x.Ok? {
      OneHistory(parent, AllEvents(a), x.value, y.value);
    }
  }

  lemma DescribesSorted(parent: Parent, events: seq<Event>, children: seq<Child>)
    requires Describes(parent, events, children)
    ensures Describes(parent, events, Sorted(ChildOrder, children))
  {
    hide Names, NewestKind, Under;
    SameElements(ChildOrder, children);
    SortedDistinct(ChildOrder, (c: Child) => c.thread, children);
    SortedDistinct(ChildOrder, (c: Child) => c.path, children);
    var sorted := Sorted(ChildOrder, children);
    forall e | e in events ensures Listed(sorted, e.thread, e.path) {
      var c :| c in children && c.thread == e.thread && c.path == e.path;
      assert c in sorted;
    }
  }

  /** The events determine every child: its path, and its newest event. */
  lemma SameChild(parent: Parent, events: seq<Event>, a: seq<Child>, b: seq<Child>, c: Child)
    requires Describes(parent, events, a) && Describes(parent, events, b) && c in a
    ensures c in b
  {
    var i :| 0 <= i < |events| && events[i].thread == c.thread && events[i].kind == c.lastKind
      && forall j | 0 <= j < i :: events[j].thread != c.thread;
    var k :| 0 <= k < |events| && events[k].thread == c.thread && events[k].path == c.path;
    assert events[k] in events;
    assert Listed(b, c.thread, c.path);
    var d :| d in b && d.thread == c.thread && d.path == c.path;
    var j :| 0 <= j < |events| && events[j].thread == d.thread && events[j].kind == d.lastKind
      && forall l | 0 <= l < j :: events[l].thread != d.thread;
    assert i == j;
  }

  // ---------------------------------------------------------------- the plan

  datatype ActionKind = Interrupt | Archive | OtherAction(name: string)

  datatype Action = Action(
    id: string, sequence: Option<int>, kind: ActionKind, thread: string, host: string, path: string)

  datatype Descendant = Descendant(
    thread: string, path: string, lastKind: Kind, status: Status, authority: Option<Digest>)

  datatype Body = Body(
    goalId: string, taskId: string, parent: Parent, descendants: seq<Descendant>, actions: seq<Action>,
    retained: seq<string>, boardMutation: bool)

  datatype Plan = Plan(body: Body, sha: Digest)

  /** The digests a plan is built from. */
  datatype Digests = Digests(actionId: (ActionKind, string, string) -> string, plan: Body -> Digest)

  /** Different actions have different identities. */
  ghost predicate Injective(d: Digests) {
    forall k1, t1, p1, k2, t2, p2 ::
      d.actionId(k1, t1, p1) == d.actionId(k2, t2, p2) ==> k1 == k2 && t1 == t2 && p1 == p2
  }

  datatype Request = Request(
    goalId: string, taskId: string, parent: Parent, pages: seq<Page>, live: seq<AgentRow>, authorities: seq<Digest>)

  ghost predicate LiveTable(rows: seq<AgentRow>, table: map<string, Status>) {
    && (forall i, j | 0 <= i < j < |rows| :: rows[i].path != rows[j].path)
    && (forall i | 0 <= i < |rows| :: rows[i].path in table && table[rows[i].path] == rows[i].status)
    && (forall path | path in table :: exists i | 0 <= i < |rows| :: rows[i].path == path)
  }

  /** `_agent_rows` as the dictionary its callers make of it. */
  method AgentRows(rows: seq<AgentRow>) returns (res: Result<map<string, Status>, Error>)
    ensures res.Ok? ==> LiveTable(rows, res.value)
    ensures res.Ok? <==> forall i, j | 0 <= i < j < |rows| :: rows[i].path != rows[j].path
  {
    var table: map<string, Status> := map[];
    for n := 0 to |rows|
      invariant LiveTable(rows[..n], table)
    {
      assert rows[..n + 1] == rows[..n] + [rows[n]];
      if rows[n].path in table {
        var i :| 0 <= i < n && rows[..n][i].path == rows[n].path;
        assert rows[i].path == rows[n].path;
        return Err(InventoryDuplicate);
      }
      LiveGrows(rows[..n], table, rows[n]);
      table := table[rows[n].path := rows[n].status];
    }
    assert rows[..|rows|] == rows;
    return Ok(table);
  }

  lemma LiveGrows(rows: seq<AgentRow>, table: map<string, Status>, row: AgentRow)
    requires LiveTable(rows, table) && row.path !in table
    ensures LiveTable(rows + [row], table[row.path := row.status])
  {
    var all := rows + [row];
    assert all[|rows|] == row;
    forall path | path in table ensures exists i | 0 <= i < |all| :: all[i].path == path {
      var i :| 0 <= i < |rows| && rows[i].path == path;
      assert all[i].path == path;
    }
  }

  function StatusOf(live: map<string, Status>, path: string): Status {
    if path in live then live[path] else NotLoaded
  }

  function Describe(live: map<string, Status>, c: Child): Descendant {
    Descendant(c.thread, c.path, c.lastKind, StatusOf(live, c.path), None)
  }

  function NewAction(d: Digests, host: string, kind: ActionKind, c: Child): Action {
    Action(d.actionId(kind, c.thread, c.path), Some(if kind == Interrupt then 1 else 2), kind, c.thread, host, c.path)
  }

  function ActionsFor(d: Digests, host: string, live: map<string, Status>, c: Child): seq<Action> {
    (if Active(StatusOf(live, c.path)) then [NewAction(d, host, Interrupt, c)]
      else []) + [NewAction(d, host, Archive, c)]
  }

  function AllActions(d: Digests, host: string, live: map<string, Status>, children: seq<Child>): seq<Action> {
    if children == [] then []
    else AllActions(d, host, live, children[..|children| - 1]) + ActionsFor(d, host, live, children[|children| - 1])
  }

  function Descendants(live: map<string, Status>, children: seq<Child>): seq<Descendant> {
    seq(|children|, i requires 0 <= i < |children| => Describe(live, children[i]))
  }

  function ActionOrder(a: Action, b: Action): bool {
    var x, y := a.sequence.Some? && a.sequence.value == 1, b.sequence.Some? && b.sequence.value == 1;
    if x != y then x else StrLess(a.path, b.path) || (a.path == b.path && StrLess(a.thread, b.thread))
  }

  function PlanBody(d: Digests, r: Request, live: map<string, Status>, children: seq<Child>): Body {
    Body(r.goalId, r.taskId, r.parent, Descendants(live, children),
         Sorted(ActionOrder, AllActions(d, r.parent.host, live, children)), [], false)
  }

  /** The Parent is active, every other active agent is a known child, and nothing is to be kept. */
  predicate InventoryKnown(r: Request, live: map<string, Status>, children: seq<Child>) {
    && Active(StatusOf(live, r.parent.path))
    && (forall path | path in live ::
      path == r.parent.path || !Active(live[path]) || exists c | c in children :: c.path == path)
    && r.authorities == []
  }

  /** The planning loop: one descendant and one or two actions a child. */
  method PlanRows(d: Digests, host: string, live: map<string, Status>, children: seq<Child>)
    returns (descendants: seq<Descendant>, actions: seq<Action>)
    ensures descendants == Descendants(live, children) && actions == AllActions(d, host, live, children)
  {
    descendants, actions := [], [];
    for n := 0 to |children|
      invariant descendants == Descendants(live, children[..n])
      invariant actions == AllActions(d, host, live, children[..n])
    {
      var child := children[n];
      assert children[..n + 1][..n] == children[..n];
      descendants := descendants + [Describe(live, child)];
      if Active(StatusOf(live, child.path)) {
        actions := actions + [NewAction(d, host, Interrupt, child)];
      }
      actions := actions + [NewAction(d, host, Archive, child)];
    }
    assert children[..|children|] == children;
  }

  ghost predicate From(d: Digests, r: Request, children: seq<Child>, plan: Plan, live: map<string, Status>) {
    && LiveTable(r.live, live) && InventoryKnown(r, live, children)
    && plan == Plan(PlanBody(d, r, live, children), d.plan(PlanBody(d, r, live, children)))
  }

  /** The plan of a consistent history over well-chained pages and a complete inventory of live agents. */
  ghost predicate Compiled(d: Digests, r: Request, plan: Plan) {
    && Chained(r.pages) && Consistent(r.parent, AllEvents(r.pages))
    && exists children, live :: IsHistory(r.parent, AllEvents(r.pages), children) && From(d, r, children, plan, live)
  }

  /** The inventory that makes a request compile, read as a dictionary. */
  ghost predicate Complete(r: Request, children: seq<Child>, live: map<string, Status>) {
    LiveTable(r.live, live) && InventoryKnown(r, live, children)
  }

  /** Consistent history, every active agent known, nothing to keep. */
  ghost predicate Compilable(r: Request) {
    && Chained(r.pages) && Consistent(r.parent, AllEvents(r.pages))
    && exists children, live :: IsHistory(r.parent, AllEvents(r.pages), children) && Complete(r, children, live)
  }

  lemma OneLiveTable(rows: seq<AgentRow>, a: map<string, Status>, b: map<string, Status>)
    requires LiveTable(rows, a) && LiveTable(rows, b)
    ensures a == b
  {
    forall path ensures path in a <==> path in b {
      if path in a {
        var i :| 0 <= i < |rows| && rows[i].path == path;
      }
      if path in b {
        var i :| 0 <= i < |rows| && rows[i].path == path;
      }
    }
    forall path | path in a ensures a[path] == b[path] {
      var i :| 0 <= i < |rows| && rows[i].path == path;
    }
  }

  lemma NoLiveTable(rows: seq<AgentRow>)
    requires exists i, j | 0 <= i < j < |rows| :: rows[i].path == rows[j].path
    ensures forall table :: !LiveTable(rows, table)
  {}

  lemma OnlyThisInventory(r: Request, children: seq<Child>, live: map<string, Status>)
    requires LiveTable(r.live, live) && !InventoryKnown(r, live, children)
    ensures forall other :: !Complete(r, children, other)
  {
    hide LiveTable, InventoryKnown;
    forall other ensures !Complete(r, children, other) {
      if LiveTable(r.live, other) {
        OneLiveTable(r.live, live, other);
      }
    }
  }

  /** `compile_plan`. */
  method CompilePlan(d: Digests, r: Request) returns (res: Result<Plan, Error>)
    ensures res.Ok? <==> Compilable(r)
    ensures res.Ok? ==> Compiled(d, r, res.value)
  {
    hide Sorted, AllEvents, Chained, Under, LiveTable, Consistent, IsHistory;
    var history := History(r.pages, r.parent);
    if history.Err? {
      return Err(history.error);
    }
    var children := history.value;
    forall other | IsHistory(r.parent, AllEvents(r.pages), other) ensures other == children {
      OneHistory(r.parent, AllEvents(r.pages), other, children);
    }
    var listed := AgentRows(r.live);
    if listed.Err? {
      NoLiveTable(r.live);
      return Err(listed.error);
    }
    var live := listed.value;
    if !InventoryKnown(r, live, children) {
      OnlyThisInventory(r, children, live);
    }
    if !Active(StatusOf(live, r.parent.path)) {
      return Err(ParentMissing);
    }
    if exists path | path in live ::
      path != r.parent.path && Active(live[path]) && !exists c | c in children :: c.path == path
    {
      return Err(InventoryIncomplete);
    }
    if r.authorities != [] {
      return Err(PersistenceForbidden);
    }
    assert Complete(r, children, live);
    var descendants, actions := PlanRows(d, r.parent.host, live, children);
    var body := Body(r.goalId, r.taskId, r.parent, descendants, Sorted(ActionOrder, actions), [], false);
    assert From(d, r, children, Plan(body, d.plan(body)), live);
    return Ok(Plan(body, d.plan(body)));
  }

  // ---------------------------------------------------------------- confirmation

  datatype ActionResult = ActionResult(actionId: string, success: bool, evidence: Digest)

  /** Exactly the planned actions were reported, each once and each a success. */
  ghost predicate Reported(actions: seq<Action>, results: seq<ActionResult>) {
    && (forall i | 0 <= i < |results| :: results[i].success)
    && (forall i, j | 0 <= i < j < |results| :: results[i].actionId != results[j].actionId)
    && (forall x :: Planned(actions, x) <==> Mentioned(results, x))
  }

  predicate Planned(actions: seq<Action>, id: string) {
    exists i | 0 <= i < |actions| :: actions[i].id == id
  }

  predicate Mentioned(results: seq<ActionResult>, id: string) {
    exists i | 0 <= i < |results| :: results[i].actionId == id
  }

  /** The Parent still runs, and nobody else does. */
  ghost predicate OnlyParentActive(parent: Parent, post: seq<AgentRow>) {
    && (exists i | 0 <= i < |post| :: post[i].path == parent.path && Active(post[i].status))
    && (forall i | 0 <= i < |post| :: Active(post[i].status) ==> post[i].path == parent.path)
  }

  method CheckResults(actions: seq<Action>, results: seq<ActionResult>) returns (res: Result<(), Error>)
    ensures res.Ok? <==> Reported(actions, results)
  {
    var ids: set<string> := {};
    for n := 0 to |results|
      invariant forall i | 0 <= i < n :: results[i].success
      invariant forall i, j | 0 <= i < j < n :: results[i].actionId != results[j].actionId
      invariant forall x :: x in ids <==> exists i | 0 <= i < n :: results[i].actionId == x
    {
      if results[n].actionId in ids {
        return Err(ActionDuplicate);
      }
      if !results[n].success {
        return Err(ActionFailed);
      }
      ids := ids + {results[n].actionId};
    }
    var expected := set i | 0 <= i < |actions| :: actions[i].id;
    assert forall x :: x in expected <==> Planned(actions, x);
    assert forall x :: x in ids <==> Mentioned(results, x);
    if ids != expected {
      return Err(ReceiptsIncomplete);
    }
    return Ok(());
  }

  method CheckPost(parent: Parent, post: seq<AgentRow>) returns (res: Result<(), Error>)
    ensures res.Ok? <==>
      OnlyParentActive(parent, post) && forall i, j | 0 <= i < j < |post| :: post[i].path != post[j].path
  {
    var listed := AgentRows(post);
    if listed.Err? {
      return Err(listed.error);
    }
    var table := listed.value;
    if !Active(StatusOf(table, parent.path)) {
      return Err(ParentMissing);
    }
    if exists path | path in table :: path != parent.path && Active(table[path]) {
      return Err(ChildRemains);
    }
    return Ok(());
  }

  /** A request has one plan. */
  lemma OnePlan(d: Digests, r: Request, a: Plan, b: Plan)
    requires Compiled(d, r, a) && Compiled(d, r, b)
    ensures a == b
  {
    hide AllEvents, Chained, LiveTable, InventoryKnown, PlanBody, Consistent, IsHistory;
    var first, x :| IsHistory(r.parent, AllEvents(r.pages), first) && From(d, r, first, a, x);
    var second, y :| IsHistory(r.parent, AllEvents(r.pages), second) && From(d, r, second, b, y);
    OneHistory(r.parent, AllEvents(r.pages), first, second);
    OneLiveTable(r.live, x, y);
  }

  lemma CompiledIsCompilable(d: Digests, r: Request, plan: Plan)
    requires Compiled(d, r, plan)
    ensures Compilable(r)
  {
    hide AllEvents, Chained, LiveTable, InventoryKnown, PlanBody, Consistent, IsHistory;
    var children, live :| IsHistory(r.parent, AllEvents(r.pages), children) && From(d, r, children, plan, live);
    assert Complete(r, children, live);
  }

  /** `confirm`: the plan recompiles, every action is reported done, and only the Parent is left running. */
  method Confirm(d: Digests, r: Request, plan: Plan, results: seq<ActionResult>, post: seq<AgentRow>)
    returns (res: Result<(), Error>)
    ensures res.Ok? <==>
      && Compiled(d, r, plan) && Reported(plan.body.actions, results) && OnlyParentActive(plan.body.parent, post)
      && forall i, j | 0 <= i < j < |post| :: post[i].path != post[j].path
  {
    hide Compiled, Compilable, Reported, OnlyParentActive;
    var expected := CompilePlan(d, r);
    if Compiled(d, r, plan) {
      CompiledIsCompilable(d, r, plan);
      OnePlan(d, r, plan, expected.value);
    }
    if expected.Err? {
      return Err(expected.error);
    }
    if plan != expected.value {
      return Err(PlanMismatch);
    }
    res := CheckResults(plan.body.actions, results);
    if res.Err? {
      return;
    }
    res := CheckPost(plan.body.parent, post);
  }
}
