/**
 Publishing a branch and opening its pull request at most once. Runs follow one another on one state file; each push and
 each creation is preceded by its durable intent, and a state that may hide a creation blocks every further one until
 the search shows the pull request.

 A script fixes, for one run, every answer of the world, every write outcome and the moment of death.
 */
module PullRequest {
  import opened Common

  type Sha = string

  datatype Status = PushStarted | CreateStarted | Unknown | Bound

  /** The state file; `binding` stands for everything it repeats of its request. */
  datatype Durable = NoFile | Unreadable | Stored(binding: string, status: Status, headSha: Sha)

  datatype Mode = Publish | Repair | Observe

  datatype Request = Request(mode: Mode, binding: string, expectedHead: Option<Sha>)

  datatype Pull = Pull(headSha: Sha)

  datatype Reply<T> = Got(value: T) | Raised | Died

  /** How a write ends: done, raised or died, with or without effect, or cut short while the file was new. */
  datatype Writing = Done | RaisedAfter | RaisedBefore | DiedAfter | DiedBefore | CutShort

  datatype Script = Script(
    ready: Reply<()>, search: Reply<Option<Pull>>, observe: Reply<()>, local: Reply<()>, remoteMatches: Reply<bool>,
    commit: Reply<Sha>, intent: Writing, push: Reply<()>, searchAgain: Reply<Option<Pull>>,
    createIntent: Writing, create: Reply<Pull>, bind: Writing, giveUp: Writing)

  datatype Receipt = Observed(mutated: bool) | UnknownReceipt | ErrorReceipt

  datatype Act = Searched(found: Option<Pull>) | Wrote(state: Durable) | Pushed | Posted | Answered(pull: Pull)

  // ---------------------------------------------------------------- histories

  function After(t: seq<Act>): Durable {
    if t == [] then NoFile else
    if t[|t| - 1].Wrote? then t[|t| - 1].state else After(t[..|t| - 1])
  }

  predicate Shown(t: seq<Act>) {
    t != [] && ((t[|t| - 1].Searched? && t[|t| - 1].found.Some?) || Shown(t[..|t| - 1]))
  }

  predicate Sent(t: seq<Act>) {
    t != [] && (t[|t| - 1].Posted? || Sent(t[..|t| - 1]))
  }

  /** The search never forgets a pull request it has shown. */
  predicate Faithful(t: seq<Act>) {
    t == [] || (Faithful(t[..|t| - 1]) && (t[|t| - 1] == Searched(None) ==> !Shown(t[..|t| - 1])))
  }

  /** The last thing learned is a pull request with this head. */
  predicate Learned(t: seq<Act>, headSha: Sha) {
    t != [] && (t[|t| - 1] == Searched(Some(Pull(headSha))) || t[|t| - 1] == Answered(Pull(headSha)))
  }

  /** A state is bound only to a head just seen on the pull request. */
  predicate BoundTruly(t: seq<Act>, a: Act) {
    a.Wrote? && a.state.Stored? && a.state.status == Bound ==> Learned(t, a.state.headSha)
  }

  /** Every push and every creation follows its durable intent, and every binding what it binds to. */
  predicate Intended(t: seq<Act>) {
    t == [] ||
    var before, a := t[..|t| - 1], t[|t| - 1];
    && Intended(before) && BoundTruly(before, a)
    && (a.Pushed? ==> After(before).Stored? && After(before).status == PushStarted)
    && (a.Posted? ==> After(before).Stored? && After(before).status == CreateStarted)
  }

  /** No creation follows another. */
  predicate Once(t: seq<Act>) {
    t == [] || (Once(t[..|t| - 1]) && (t[|t| - 1].Posted? ==> !Sent(t[..|t| - 1])))
  }

  /** The state file remembers a creation, unless the search has shown the pull request. */
  predicate Remembered(t: seq<Act>) {
    Sent(t) ==> After(t).Stored? && (After(t).status == PushStarted ==> Shown(t))
  }

  ghost predicate Safe(t: seq<Act>) {
    Intended(t) && (Faithful(t) ==> Once(t) && Remembered(t))
  }

  lemma Snoc(t: seq<Act>, a: Act)
    ensures After(t + [a]) == if a.Wrote? then a.state else After(t)
    ensures Shown(t + [a]) <==> (a.Searched? && a.found.Some?) || Shown(t)
    ensures Sent(t + [a]) <==> a.Posted? || Sent(t)
    ensures Faithful(t + [a]) <==> Faithful(t) && (a == Searched(None) ==> !Shown(t))
    ensures Intended(t + [a]) <==>
      && Intended(t) && BoundTruly(t, a)
      && (a.Pushed? ==> After(t).Stored? && After(t).status == PushStarted)
      && (a.Posted? ==> After(t).Stored? && After(t).status == CreateStarted)
    ensures Once(t + [a]) <==> Once(t) && (a.Posted? ==> !Sent(t))
  {
    assert (t + [a])[..|t|] == t;
  }

  lemma {:induction false} OncePrefix(t: seq<Act>, i: nat, j: nat)
    requires Once(t) && i < j < |t|
    ensures !(t[i].Posted? && t[j].Posted?)
    decreases |t|
  {
    var n := |t| - 1;
    if j < n {
      OncePrefix(t[..n], i, j);
    } else if t[i].Posted? {
      SentAt(t[..n], i);
    }
  }

  lemma {:induction false} SentAt(t: seq<Act>, i: nat)
    requires i < |t| && t[i].Posted?
    ensures Sent(t)
    decreases |t|
  {
    if i < |t| - 1 {
      SentAt(t[..|t| - 1], i);
    }
  }

  lemma {:induction false} IntendedAt(t: seq<Act>, i: nat)
    requires Intended(t) && i < |t|
    ensures t[i].Pushed? ==> After(t[..i]).Stored? && After(t[..i]).status == PushStarted
    ensures t[i].Posted? ==> After(t[..i]).Stored? && After(t[..i]).status == CreateStarted
    ensures BoundTruly(t[..i], t[i])
    decreases |t|
  {
    var n := |t| - 1;
    if i < n {
      IntendedAt(t[..n], i);
      assert t[..n][..i] == t[..i];
    }
  }

  /**
   At most one creation is sent against a search that never forgets, and every push and creation had its intent on disk.
   */
  lemma AtMostOneCreation(t: seq<Act>)
    requires Safe(t)
    ensures Faithful(t) ==> forall i, j | 0 <= i < j < |t| :: !(t[i].Posted? && t[j].Posted?)
    ensures forall i | 0 <= i < |t| && t[i].Pushed? :: After(t[..i]).Stored? && After(t[..i]).status == PushStarted
    ensures forall i | 0 <= i < |t| && t[i].Posted? :: After(t[..i]).Stored? && After(t[..i]).status == CreateStarted
    ensures forall i | 0 <= i < |t| :: BoundTruly(t[..i], t[i])
  {
    if Faithful(t) {
      forall i, j | 0 <= i < j < |t| ensures !(t[i].Posted? && t[j].Posted?) {
        OncePrefix(t, i, j);
      }
    }
    forall i | 0 <= i < |t|
      ensures t[i].Pushed? ==> After(t[..i]).Stored? && After(t[..i]).status == PushStarted
      ensures t[i].Posted? ==> After(t[..i]).Stored? && After(t[..i]).status == CreateStarted
      ensures BoundTruly(t[..i], t[i])
    {
      IntendedAt(t, i);
    }
  }

  /** What a run did: whether it pushed or created anything. */
  predicate Mutated(t: seq<Act>, base: nat) {
    exists i | base <= i < |t| :: t[i].Pushed? || t[i].Posted?
  }

  predicate HeadMatches(pull: Pull, expected: Option<Sha>) {
    expected == Some(pull.headSha)
  }

  class Publication {
    var durable: Durable
    ghost var trace: seq<Act>

    constructor ()
      ensures Valid() && trace == []
    {
      durable, trace := NoFile, [];
    }

    ghost predicate Valid()
      reads this
    {
      Safe(trace) && durable == After(trace)
    }

    // -------------------------------------------------------------- the world

    method Search(answer: Reply<Option<Pull>>) returns (reply: Reply<Option<Pull>>)
      requires Valid()
      modifies `trace
      ensures Valid() && reply == answer
      ensures trace == old(trace) + if reply.Got? then [Searched(reply.value)] else []
    {
      reply := answer;
      if reply.Got? {
        Snoc(trace, Searched(reply.value));
        trace := trace + [Searched(reply.value)];
      }
    }

    method WriteState(next: Durable, initial: bool, how: Writing) returns (reply: Reply<()>)
      requires Valid() && next.Stored?
      requires BoundTruly(trace, Wrote(next))
      requires next.status == PushStarted && Sent(trace) && Faithful(trace) ==> Shown(trace)
      modifies this
      ensures Valid()
      ensures trace == old(trace) || trace == old(trace) + [Wrote(next)]
        || (initial && trace == old(trace) + [Wrote(Unreadable)])
      ensures reply.Got? ==> trace == old(trace) + [Wrote(next)]
      ensures reply.Got? <==> how == Done && (initial <==> old(durable).NoFile?)
      ensures reply.Got? ==> durable == next
      ensures durable == old(durable) || durable == next || (initial && durable == Unreadable)
    {
      if initial != durable.NoFile? {
        return Raised;
      }
      var written := if how == CutShort && initial then Unreadable else next;
      if how == Done || how == RaisedAfter || how == DiedAfter || (how == CutShort && initial) {
        Snoc(trace, Wrote(written));
        durable, trace := written, trace + [Wrote(written)];
      }
      reply := if how == Done then Got(()) else if how == DiedAfter || how == DiedBefore then Died else Raised;
    }

    method Push(answer: Reply<()>) returns (reply: Reply<()>)
      requires Valid() && durable.Stored? && durable.status == PushStarted
      modifies `trace
      ensures Valid() && reply == answer && trace == old(trace) + [Pushed]
    {
      Snoc(trace, Pushed);
      trace := trace + [Pushed];
      reply := answer;
    }

    method Create(answer: Reply<Pull>) returns (reply: Reply<Pull>)
      requires Valid() && durable.Stored? && durable.status == CreateStarted
      requires Faithful(trace) ==> !Sent(trace)
      modifies `trace
      ensures Valid() && reply == answer
      ensures trace == old(trace) + [Posted] + if reply.Got? then [Answered(reply.value)] else []
    {
      Snoc(trace, Posted);
      trace := trace + [Posted];
      reply := answer;
      if reply.Got? {
        Snoc(trace, Answered(reply.value));
        trace := trace + [Answered(reply.value)];
      }
    }

    // -------------------------------------------------------------- a run

    /** `_create_after_reconciled_push` and the same steps of a fresh push: intent, creation, binding, or giving up. */
    method CreateAndBind(r: Request, headSha: Sha, s: Script) returns (reply: Reply<Option<Pull>>)
      requires Valid() && durable == Stored(r.binding, PushStarted, headSha)
      requires Faithful(trace) ==> !Sent(trace)
      modifies this
      ensures Valid()
      ensures old(trace) <= trace && forall i | |old(trace)| <= i < |trace| ::
        trace[i].Wrote? || trace[i].Posted? || trace[i].Answered?
      ensures reply.Raised? ==> forall i | |old(trace)| <= i < |trace| :: !trace[i].Posted?
      ensures Creates(headSha, s) <==> reply.Got? && reply.value.Some?
      ensures Creates(headSha, s) ==> exists i | |old(trace)| <= i < |trace| :: trace[i].Posted?
      ensures Creates(headSha, s) ==> durable == Stored(r.binding, Bound, headSha)
      ensures reply == Got(None) && s.giveUp == Done ==> durable == Stored(r.binding, Unknown, headSha)
      ensures durable.Stored? && durable.binding == r.binding && durable.headSha == headSha
    {
      hide Intended, Once, After, Shown, Faithful, Sent, Remembered;
      ghost var n := |trace|;
      var intent := Stored(r.binding, CreateStarted, headSha);
      Snoc(trace, Wrote(intent));
      var wrote := WriteState(intent, false, s.createIntent);
      if !wrote.Got? {
        return Pass(wrote);
      }
      Snoc(trace, Posted);
      var created := Create(s.create);
      assert trace[n + 1] == Posted;
      if created.Died? {
        return Died;
      }
      if created.Got? && created.value.headSha == headSha {
        Snoc(trace, Wrote(Stored(r.binding, Bound, headSha)));
        wrote := WriteState(Stored(r.binding, Bound, headSha), false, s.bind);
        assert trace[n + 1] == Posted;
        if wrote.Got? {
          return Got(Some(created.value));
        }
        if wrote.Died? {
          return Died;
        }
      }
      wrote := WriteState(Stored(r.binding, Unknown, headSha), false, s.giveUp);
      assert trace[n + 1] == Posted;
      if wrote.Died? {
        return Died;
      }
      return Got(None);
    }

    /**
     Commit, push and create: the run's own changes. Once the push intent is written, every failure is reported unknown.
     */
    method PublishLocal(r: Request, s: Script) returns (receipt: Option<Receipt>)
      requires Valid() && (durable.NoFile? || durable.Stored?)
      requires Faithful(trace) && Sent(trace) ==> Shown(trace)
      modifies this
      ensures Valid() && old(trace) <= trace
      ensures receipt == Some(ErrorReceipt) ==> !Mutated(trace, |old(trace)|)
      ensures receipt.Some? && receipt.value.Observed? ==> receipt.value.mutated && Mutated(trace, |old(trace)|)
      ensures s.commit.Got? && s.intent == Done && s.push.Died? ==>
        durable == Stored(r.binding, PushStarted, s.commit.value)
      ensures receipt == Some(Observed(true)) <==> PublishesNow(s)
      ensures PublishesNow(s) ==> durable == Stored(r.binding, Bound, s.commit.value)
      ensures receipt == Some(UnknownReceipt) ==>
        durable.Stored? && durable.binding == r.binding && s.commit == Got(durable.headSha)
    {
      hide Intended, Once, After, Shown, Faithful, Sent;
      ghost var n := |trace|;
      if !s.commit.Got? {
        return if s.commit.Died? then None else Some(ErrorReceipt);
      }
      var headSha := s.commit.value;
      var intent := Stored(r.binding, PushStarted, headSha);
      Snoc(trace, Wrote(intent));
      var wrote := WriteState(intent, durable.NoFile?, s.intent);
      if !wrote.Got? {
        return if wrote.Died? then None else Some(ErrorReceipt);
      }
      Snoc(trace, Pushed);
      var pushed := Push(s.push);
      assert trace[n + 1] == Pushed;
      if !pushed.Got? {
        return if pushed.Died? then None else Some(UnknownReceipt);
      }
      if s.searchAgain.Got? {
        Snoc(trace, Searched(s.searchAgain.value));
      }
      var again := Search(s.searchAgain);
      assert trace[n + 1] == Pushed;
      if !again.Got? {
        return if again.Died? then None else Some(UnknownReceipt);
      }
      if again.value.None? {
        var created := CreateAndBind(r, headSha, s);
        assert trace[n + 1] == Pushed;
        if !created.Got? {
          return if created.Died? then None else Some(UnknownReceipt);
        }
        if created.value.None? {
          return Some(UnknownReceipt);
        }
      } else {
        if again.value.value.headSha != headSha {
          return Some(UnknownReceipt);
        }
        wrote := WriteState(Stored(r.binding, Bound, headSha), false, s.bind);
        assert trace[n + 1] == Pushed;
        if !wrote.Got? {
          return if wrote.Died? then None else Some(UnknownReceipt);
        }
      }
      if !s.observe.Got? {
        return if s.observe.Died? then None else Some(UnknownReceipt);
      }
      return Some(Observed(true));
    }

    /**
     `execute`. An error receipt means that nothing was pushed or created, except in one case: a reconciled push whose
     pull request was created and recorded, and then could not be observed.
     */
    method Execute(r: Request, s: Script) returns (receipt: Option<Receipt>)
      requires Valid()
      modifies this
      ensures Valid() && old(trace) <= trace
      ensures receipt == Some(ErrorReceipt) && Mutated(trace, |old(trace)|) <==> BlindError(old(durable), r, s)
      ensures receipt.Some? && receipt.value.Observed? ==> (receipt.value.mutated <==> Mutated(trace, |old(trace)|))
      ensures r.mode == Observe ==> durable == old(durable) && !Mutated(trace, |old(trace)|)
      ensures DiesPushing(old(durable), r, s) ==> durable == Stored(r.binding, PushStarted, s.commit.value)
      ensures receipt == Some(Observed(false)) <==> Looks(old(durable), r, s) || Adopts(old(durable), r, s)
      ensures receipt == Some(Observed(true)) <==> Finishes(old(durable), r, s) || Publishes(old(durable), r, s)
      ensures Adopts(old(durable), r, s) ==> durable == Stored(r.binding, Bound, s.search.value.value.headSha)
      ensures Finishes(old(durable), r, s) ==> durable == Stored(r.binding, Bound, old(durable).headSha)
      ensures Publishes(old(durable), r, s) ==> durable == Stored(r.binding, Bound, s.commit.value)
    {
      hide Intended, Once, After, Shown, Faithful, Sent;
      ghost var n := |trace|;
      if !s.ready.Got? {
        return if s.ready.Died? then None else Some(ErrorReceipt);
      }
      if durable.Unreadable? || (durable.Stored? && durable.binding != r.binding) {
        return Some(ErrorReceipt);
      }
      var prior := if durable.Stored? then Some(durable) else None;
      if s.search.Got? {
        Snoc(trace, Searched(s.search.value));
      }
      var found := Search(s.search);
      if !found.Got? {
        return if found.Died? then None else Some(ErrorReceipt);
      }
      var pull := found.value;
      if r.mode == Observe {
        if pull.None? || !HeadMatches(pull.value, r.expectedHead) || s.observe.Raised? {
          return Some(ErrorReceipt);
        }
        return if s.observe.Died? then None else Some(Observed(false));
      }
      var knownHead := if prior.Some? then Some(prior.value.headSha) else r.expectedHead;
      if pull.Some? && !HeadMatches(pull.value, knownHead) {
        return Some(ErrorReceipt);
      }
      if pull.Some? && (r.mode == Publish || (prior.Some? && prior.value.status == PushStarted)) {
        var wrote := WriteState(Stored(r.binding, Bound, knownHead.value), prior.None?, s.bind);
        if !wrote.Got? || s.observe.Raised? {
          return if wrote.Died? then None else Some(ErrorReceipt);
        }
        return if s.observe.Died? then None else Some(Observed(false));
      }
      if prior.Some? && pull.None? && prior.value.status != PushStarted {
        return Some(UnknownReceipt);
      }
      if !s.local.Got? {
        return if s.local.Died? then None else Some(ErrorReceipt);
      }
      if prior.Some? && prior.value.status == PushStarted {
        if !s.remoteMatches.Got? {
          return if s.remoteMatches.Died? then None else Some(ErrorReceipt);
        }
        if !s.remoteMatches.value {
          return Some(UnknownReceipt);
        }
        var created := CreateAndBind(r, prior.value.headSha, s);
        if !created.Got? {
          return if created.Died? then None else Some(ErrorReceipt);
        }
        if created.value.None? {
          return Some(UnknownReceipt);
        }
        if !s.observe.Got? {
          return if s.observe.Died? then None else Some(ErrorReceipt);
        }
        return Some(Observed(true));
      }
      receipt := PublishLocal(r, s);
    }
  }

  /** The run gets to see whether there is a pull request, on a state file that is its own or absent. */
  predicate Starts(durable: Durable, r: Request, s: Script) {
    && s.ready.Got? && (durable.NoFile? || (durable.Stored? && durable.binding == r.binding)) && s.search.Got?
  }

  /** The pull request found is the one expected: that of the state file if there is one, else that of the request. */
  predicate FoundExpected(durable: Durable, r: Request, s: Script) {
    && s.search.Got? && s.search.value.Some?
    && Some(s.search.value.value.headSha) == if durable.Stored? then Some(durable.headSha) else r.expectedHead
  }

  /** Observe mode, and the pull request is there. */
  predicate Looks(durable: Durable, r: Request, s: Script) {
    && Starts(durable, r, s) && r.mode == Observe && s.observe.Got?
    && s.search.value.Some? && r.expectedHead == Some(s.search.value.value.headSha)
  }

  predicate PushBegun(durable: Durable) {
    durable.Stored? && durable.status == PushStarted
  }

  /** The pull request is already there and is bound. */
  predicate Adopts(durable: Durable, r: Request, s: Script) {
    && Starts(durable, r, s) && r.mode != Observe && FoundExpected(durable, r, s)
    && (r.mode == Publish || PushBegun(durable)) && s.bind == Done && s.observe.Got?
  }

  /** An earlier push arrived, and its pull request is created now. */
  predicate Finishes(durable: Durable, r: Request, s: Script) {
    && Starts(durable, r, s) && r.mode != Observe && s.search.value.None? && PushBegun(durable)
    && s.local.Got? && s.remoteMatches == Got(true) && Creates(durable.headSha, s) && s.observe.Got?
  }

  /** Commit, intent, push, then creation or the pull request found for the new head, bound and observed. */
  predicate PublishesNow(s: Script) {
    && s.commit.Got? && s.intent == Done && s.push.Got?
    && (|| (s.searchAgain == Got(None) && Creates(s.commit.value, s))
        || (s.searchAgain == Got(Some(Pull(s.commit.value))) && s.bind == Done))
    && s.observe.Got?
  }

  /** A first publication, or a repair of the pull request found. */
  predicate Publishes(durable: Durable, r: Request, s: Script) {
    && Starts(durable, r, s) && r.mode != Observe && s.local.Got? && PublishesNow(s)
    && (|| (s.search.value.None? && durable.NoFile?)
        || (FoundExpected(durable, r, s) && r.mode == Repair && !PushBegun(durable)))
  }

  /** The one way to report an error after creating the pull request. */
  predicate BlindError(durable: Durable, r: Request, s: Script) {
    && r.mode != Observe && durable.Stored? && durable.binding == r.binding && durable.status == PushStarted
    && s.ready.Got? && s.search == Got(None) && s.local.Got? && s.remoteMatches == Got(true)
    && Creates(durable.headSha, s) && s.observe.Raised?
  }

  /** A first run that dies in its push, with the intent on disk. */
  predicate DiesPushing(durable: Durable, r: Request, s: Script) {
    && r.mode == Publish && durable.NoFile?
    && s.ready.Got? && s.search == Got(None) && s.local.Got? && s.commit.Got? && s.intent == Done && s.push.Died?
  }

  /** It happens: one run dies in its push, the next one creates the pull request and reports an error. */
  method CreatesBlindly() returns (publication: Publication, receipt: Option<Receipt>)
    ensures fresh(publication) && publication.Valid()
    ensures receipt == Some(ErrorReceipt) && Mutated(publication.trace, 0)
  {
    var r := Request(Publish, "request", None);
    var first := Script(Got(()), Got(None), Raised, Got(()), Raised, Got("head"), Done, Died, Raised, Done, Raised,
      Done, Done);
    var second := Script(Got(()), Got(None), Raised, Got(()), Got(true), Raised, Done, Raised, Raised, Done,
      Got(Pull("head")), Done, Done);
    publication := new Publication();
    var _ := publication.Execute(r, first);
    ghost var before := publication.trace;
    receipt := publication.Execute(r, second);
    assert Mutated(publication.trace, |before|);
  }

  /** The creation succeeds and is recorded. */
  predicate Creates(headSha: Sha, s: Script) {
    s.createIntent == Done && s.create == Got(Pull(headSha)) && s.bind == Done
  }

  function Pass<T, U>(reply: Reply<T>): Reply<U>
    requires !reply.Got?
  {
    if reply.Died? then Died else Raised
  }
}
