/**
 The gates of a guarded merge: what a pull request, its checks, its reviews and its diff must say, all read afresh,
 before the merge may be attempted.
 */
module MergeGates {
  import opened Common

  datatype Target = Target(host: string, repository: string)

  datatype Request = Request(
    target: Target, expectedUser: string, number: int, base: string, baseSha: string, headSha: string, marker: string,
    totalCount: int, filenamesSha: string)

  datatype Pull = Pull(
    number: int, baseRef: string, baseSha: string, headSha: string, markers: seq<string>,
    merged: bool, open: bool, draft: bool, mergeable: Option<bool>, mergeableState: string, mergeSha: Option<string>)

  datatype Required = Required(context: string, appId: Option<int>)

  datatype Requirements = Requirements(
    codeOwnerReview: bool, conversationResolution: bool, lastPushApproval: bool,
    requiredChecks: seq<Required>, requiredApprovals: int)

  datatype CheckRow = CheckRow(name: string, appId: Option<int>, status: string, conclusion: string)

  datatype Review = Review(reviewer: string, state: string, commitSha: string, submittedAt: int)

  /** One listing of a pull request: the commits it was taken at, and whether it may be cut short. */
  datatype Listing<T> = Listing(baseSha: string, headSha: string, possiblyMore: bool, items: seq<T>)

  datatype Diff = Diff(baseSha: string, headSha: string, totalCount: int, filenamesSha: string)

  type Code = string

  // ---------------------------------------------------------------- the pull request

  function ExactPull(r: Request, pull: Pull): Result<(), Code> {
    if pull.number != r.number then Err("pull_request_identity_mismatch")
    else if pull.baseRef != r.base || pull.baseSha != r.baseSha then Err("base_sha_mismatch")
    else if pull.headSha != r.headSha then Err("head_sha_mismatch")
    else if pull.markers != [r.marker] then Err("board_marker_mismatch")
    else Ok(())
  }

  predicate Clean(pull: Pull) {
    !pull.draft && pull.mergeable == Some(true) && pull.mergeableState == "clean"
  }

  function PullGate(r: Request, pull: Pull): Result<(), Code> {
    if ExactPull(r, pull).Err? then ExactPull(r, pull)
    else if pull.merged then Err("pull_request_already_merged")
    else if !pull.open || pull.draft then Err("pull_request_not_open_and_ready")
    else if pull.mergeable != Some(true) || pull.mergeableState != "clean" then Err("pull_request_conflict_or_unready")
    else Ok(())
  }

  // ---------------------------------------------------------------- checks

  predicate Green(row: CheckRow) {
    row.status == "completed" && (row.conclusion == "success" || row.conclusion == "neutral"
      || row.conclusion == "skipped")
  }

  function Identity(row: CheckRow): (string, Option<int>) {
    (row.name, row.appId)
  }

  /** A required check without an application is met by a check of that name from any application. */
  predicate Meets(row: CheckRow, required: Required) {
    row.name == required.context && (required.appId.None? || row.appId == required.appId)
  }

  ghost predicate ChecksPass(rows: seq<CheckRow>, required: seq<Required>) {
    && RowsPass(rows)
    && (forall k | 0 <= k < |required| :: Satisfied(rows, required[k]))
  }

  predicate Satisfied(rows: seq<CheckRow>, required: Required) {
    exists i | 0 <= i < |rows| :: Meets(rows[i], required)
  }

  ghost predicate Identities(seen: set<(string, Option<int>)>, rows: seq<CheckRow>) {
    forall x :: x in seen <==> exists i | 0 <= i < |rows| :: Identity(rows[i]) == x
  }

  ghost predicate RowsPass(rows: seq<CheckRow>) {
    && (forall i | 0 <= i < |rows| :: Green(rows[i]))
    && (forall i, j | 0 <= i < j < |rows| :: Identity(rows[i]) != Identity(rows[j]))
  }

  lemma RowsGrow(rows: seq<CheckRow>, row: CheckRow, seen: set<(string, Option<int>)>)
    requires RowsPass(rows) && Identities(seen, rows)
    ensures RowsPass(rows + [row]) <==> Identity(row) !in seen && Green(row)
    ensures Identities(seen + {Identity(row)}, rows + [row])
  {
    var all, n := rows + [row], |rows|;
    assert all[n] == row && forall i | 0 <= i < n :: all[i] == rows[i];
    if Identity(row) in seen {
      var i :| 0 <= i < n && Identity(rows[i]) == Identity(row);
      assert Identity(all[i]) == Identity(all[n]);
    }
  }

  lemma RowsShrink(rows: seq<CheckRow>, n: nat)
    requires n <= |rows| && RowsPass(rows)
    ensures RowsPass(rows[..n])
  {}

  /** One dictionary of check identities: every check green, no identity twice. */
  method CheckRows(rows: seq<CheckRow>) returns (res: Result<set<(string, Option<int>)>, Code>)
    ensures res.Ok? <==> RowsPass(rows)
    ensures res.Ok? ==> Identities(res.value, rows)
  {
    var seen: set<(string, Option<int>)> := {};
    for n := 0 to |rows|
      invariant RowsPass(rows[..n]) && Identities(seen, rows[..n])
    {
      var row := rows[n];
      assert rows[..n + 1] == rows[..n] + [row];
      RowsGrow(rows[..n], row, seen);
      if RowsPass(rows) {
        RowsShrink(rows, n + 1);
      }
      if Identity(row) in seen {
        return Err("check_identity_ambiguous");
      }
      seen := seen + {Identity(row)};
      if !Green(row) {
        return Err("checks_not_green");
      }
    }
    assert rows[..|rows|] == rows;
    return Ok(seen);
  }

  predicate Covered(seen: set<(string, Option<int>)>, wanted: Required) {
    if wanted.appId.None? then exists x | x in seen :: x.0 == wanted.context else (wanted.context, wanted.appId) in seen
  }

  lemma CoveredMeans(rows: seq<CheckRow>, seen: set<(string, Option<int>)>, wanted: Required)
    requires Identities(seen, rows)
    ensures Covered(seen, wanted) <==> Satisfied(rows, wanted)
  {
    if Covered(seen, wanted) {
      var x :| x in seen && x.0 == wanted.context && (wanted.appId.Some? ==> x.1 == wanted.appId);
      var i :| 0 <= i < |rows| && Identity(rows[i]) == x;
      assert Meets(rows[i], wanted);
    }
    if i :| 0 <= i < |rows| && Meets(rows[i], wanted) {
      assert Identity(rows[i]) in seen;
    }
  }

  /** The two check loops: the checks themselves, then every requirement looked up among them. */
  method CheckGate(rows: seq<CheckRow>, required: seq<Required>) returns (res: Result<(), Code>)
    ensures res.Ok? <==> ChecksPass(rows, required)
  {
    var seen := CheckRows(rows);
    if seen.Err? {
      return Err(seen.error);
    }
    for k := 0 to |required|
      invariant forall m | 0 <= m < k :: Satisfied(rows, required[m])
    {
      CoveredMeans(rows, seen.value, required[k]);
      if !Covered(seen.value, required[k]) {
        assert !Satisfied(rows, required[k]);
        return Err("required_check_missing");
      }
    }
    return Ok(());
  }

  // ---------------------------------------------------------------- reviews

  /** Item `i` is its reviewer's newest review, and no other of that reviewer is as new. */
  ghost predicate Newest(items: seq<Review>, i: nat) {
    && i < |items|
    && forall j | 0 <= j < |items| && j != i && items[j].reviewer == items[i].reviewer ::
      items[j].submittedAt < items[i].submittedAt
  }

  ghost predicate LatestTable(items: seq<Review>, latest: map<string, Review>) {
    && (forall j | 0 <= j < |items| :: items[j].reviewer in latest)
    && (forall r | r in latest :: exists i: nat :: Newest(items, i) && items[i] == latest[r] && items[i].reviewer == r)
  }

  /** Item `j` is as new as the newest earlier review of the same reviewer. */
  ghost predicate Clash(items: seq<Review>, j: nat) {
    && j < |items|
    && (exists i | 0 <= i < j :: items[i].reviewer == items[j].reviewer && items[i].submittedAt == items[j].submittedAt)
    && (forall i | 0 <= i < j && items[i].reviewer == items[j].reviewer :: items[i].submittedAt <= items[j].submittedAt)
  }

  lemma NewestStays(before: seq<Review>, item: Review, i: nat)
    requires Newest(before, i) && (item.reviewer != before[i].reviewer || item.submittedAt < before[i].submittedAt)
    ensures Newest(before + [item], i) && (before + [item])[i] == before[i]
  {}

  lemma LatestReplaced(before: seq<Review>, latest: map<string, Review>, item: Review)
    requires LatestTable(before, latest)
    requires item.reviewer !in latest || item.submittedAt > latest[item.reviewer].submittedAt
    ensures LatestTable(before + [item], latest[item.reviewer := item])
  {
    var items, n, next := before + [item], |before|, latest[item.reviewer := item];
    assert Newest(items, n) by {
      forall j | 0 <= j < n && items[j].reviewer == item.reviewer ensures items[j].submittedAt < item.submittedAt {
        assert before[j].reviewer in latest;
        var i: nat :| Newest(before, i) && before[i] == latest[item.reviewer];
      }
    }
    forall r | r in next ensures exists i: nat :: Newest(items, i) && items[i] == next[r] && items[i].reviewer == r {
      if r == item.reviewer {
        assert items[n] == next[r];
      } else {
        var i: nat :| Newest(before, i) && before[i] == latest[r] && before[i].reviewer == r;
        NewestStays(before, item, i);
      }
    }
  }

  lemma LatestKept(before: seq<Review>, latest: map<string, Review>, item: Review)
    requires LatestTable(before, latest)
    requires item.reviewer in latest && item.submittedAt < latest[item.reviewer].submittedAt
    ensures LatestTable(before + [item], latest)
  {
    forall r | r in latest
      ensures exists i: nat ::
        Newest(before + [item], i) && (before + [item])[i] == latest[r] && (before + [item])[i].reviewer == r
    {
      var i: nat :| Newest(before, i) && before[i] == latest[r] && before[i].reviewer == r;
      NewestStays(before, item, i);
    }
  }

  lemma ClashIsTie(before: seq<Review>, latest: map<string, Review>, item: Review)
    requires LatestTable(before, latest)
    ensures Clash(before + [item], |before|) <==>
      item.reviewer in latest && item.submittedAt == latest[item.reviewer].submittedAt
  {
    var items, n := before + [item], |before|;
    assert items[n] == item && forall j | 0 <= j < n :: items[j] == before[j];
    if item.reviewer in latest {
      var i: nat :| Newest(before, i) && before[i] == latest[item.reviewer] && before[i].reviewer == item.reviewer;
      assert items[i] == before[i];
    }
  }

  lemma ClashInPrefix(items: seq<Review>, n: nat, j: nat)
    requires j < n <= |items|
    ensures Clash(items[..n], j) <==> Clash(items, j)
  {
    assert forall i | 0 <= i <= j :: items[..n][i] == items[i];
  }

  lemma ClashInside(items: seq<Review>)
    ensures forall j: nat :: Clash(items, j) ==> j < |items|
  {}

  lemma NoReviews()
    ensures LatestTable([], map[])
  {}

  /** The newest review per reviewer; ambiguous when a review ties with the newest one seen before it. */
  method LatestReviews(items: seq<Review>) returns (res: Result<map<string, Review>, Code>)
    ensures res.Ok? ==> LatestTable(items, res.value)
    ensures res.Err? <==> exists j: nat :: Clash(items, j)
  {
    hide Clash, LatestTable;
    NoReviews();
    var latest: map<string, Review> := map[];
    for n := 0 to |items|
      invariant LatestTable(items[..n], latest)
      invariant forall j: nat | j < n :: !Clash(items, j)
    {
      var item := items[n];
      assert items[..n + 1] == items[..n] + [item];
      ClashIsTie(items[..n], latest, item);
      ClashInPrefix(items, n + 1, n);
      if item.reviewer in latest && item.submittedAt == latest[item.reviewer].submittedAt {
        assert Clash(items, n);
        return Err("review_timestamp_ambiguous");
      }
      if item.reviewer !in latest || item.submittedAt > latest[item.reviewer].submittedAt {
        LatestReplaced(items[..n], latest, item);
        latest := latest[item.reviewer := item];
      } else {
        LatestKept(items[..n], latest, item);
      }
    }
    assert items[..|items|] == items;
    ClashInside(items);
    return Ok(latest);
  }

  /** Whatever order the reviews come in, a table that is found is the same. */
  lemma OrderIrrelevant(a: seq<Review>, b: seq<Review>, latestA: map<string, Review>, latestB: map<string, Review>)
    requires multiset(a) == multiset(b) && LatestTable(a, latestA) && LatestTable(b, latestB)
    ensures latestA == latestB
  {
    forall r | r in latestA ensures r in latestB && latestA[r] == latestB[r] {
      SameNewest(a, b, latestA, latestB, r);
    }
    forall r | r in latestB ensures r in latestA {
      SameNewest(b, a, latestB, latestA, r);
    }
  }

  lemma Listed(items: seq<Review>, latest: map<string, Review>, r: string)
    requires LatestTable(items, latest) && r in latest
    ensures latest[r] in items && latest[r].reviewer == r
  {
    var i: nat :| Newest(items, i) && items[i] == latest[r] && items[i].reviewer == r;
  }

  lemma NoneNewer(items: seq<Review>, latest: map<string, Review>, review: Review)
    requires LatestTable(items, latest) && review in items
    ensures review.reviewer in latest
    ensures review == latest[review.reviewer] || review.submittedAt < latest[review.reviewer].submittedAt
  {
    var j :| 0 <= j < |items| && items[j] == review;
    assert items[j].reviewer in latest;
    var i: nat :| Newest(items, i) && items[i] == latest[review.reviewer] && items[i].reviewer == review.reviewer;
  }

  lemma SameNewest(a: seq<Review>, b: seq<Review>, latestA: map<string, Review>, latestB: map<string, Review>,
    r: string)
    requires multiset(a) == multiset(b) && LatestTable(a, latestA) && LatestTable(b, latestB) && r in latestA
    ensures r in latestB && latestA[r] == latestB[r]
  {
    hide LatestTable, Newest;
    Listed(a, latestA, r);
    assert latestA[r] in multiset(b);
    NoneNewer(b, latestB, latestA[r]);
    Listed(b, latestB, r);
    assert latestB[r] in multiset(a);
    NoneNewer(a, latestA, latestB[r]);
  }

  predicate Approves(r: Request, review: Review) {
    review.reviewer != r.expectedUser && review.state == "APPROVED" && review.commitSha == r.headSha
  }

  function Approvers(r: Request, latest: map<string, Review>): set<string> {
    set who | who in latest && Approves(r, latest[who])
  }

  /**
   The reviews allow the merge: nobody's newest review asks for changes, and enough others approved this very head.
   */
  ghost predicate ReviewsPass(r: Request, items: seq<Review>, needed: int) {
    exists latest: map<string, Review> :: TablePasses(r, items, needed, latest)
  }

  ghost predicate TablePasses(r: Request, items: seq<Review>, needed: int, latest: map<string, Review>) {
    && LatestTable(items, latest)
    && (forall who | who in latest :: latest[who].state != "CHANGES_REQUESTED")
    && |Approvers(r, latest)| >= needed
  }

  method ReviewGate(r: Request, items: seq<Review>, needed: int) returns (res: Result<(), Code>)
    ensures res.Ok? <==> ReviewsPass(r, items, needed) && forall j: nat :: !Clash(items, j)
  {
    var found := LatestReviews(items);
    if found.Err? {
      return Err(found.error);
    }
    var latest := found.value;
    forall other | LatestTable(items, other) ensures other == latest {
      OrderIrrelevant(items, items, latest, other);
    }
    assert ReviewsPass(r, items, needed) <==> TablePasses(r, items, needed, latest);
    if exists who | who in latest :: latest[who].state == "CHANGES_REQUESTED" {
      return Err("review_changes_requested");
    }
    if |Approvers(r, latest)| < needed {
      return Err("required_review_policy_unmet");
    }
    return Ok(());
  }

  /** Two orders of the same reviews, one ambiguous and one not. */
  lemma AmbiguityDependsOnOrder()
    ensures var old1, old2, new1 := Review("ann", "APPROVED", "h", 3), Review("ann", "COMMENTED", "h", 3),
      Review("ann", "APPROVED", "h", 5);
      && Clash([old1, old2, new1], 1)
      && forall j: nat :: !Clash([old1, new1, old2], j)
  {
    var old1, old2, new1 := Review("ann", "APPROVED", "h", 3), Review("ann", "COMMENTED", "h", 3),
      Review("ann", "APPROVED", "h", 5);
    assert [old1, old2, new1][0].submittedAt == 3;
    var other := [old1, new1, old2];
    assert other[0].submittedAt == 3 && other[1].submittedAt == 5 && other[2].submittedAt == 3;
  }

  // ---------------------------------------------------------------- all gates

  /** Everything the gates read. */
  datatype Observations = Observations(
    pull: Pull, requirements: Requirements, checks: Listing<CheckRow>, reviews: Listing<Review>, diff: Diff)

  predicate Supported(q: Requirements) {
    !q.codeOwnerReview && !q.conversationResolution && !q.lastPushApproval
  }

  predicate TakenAt<T>(r: Request, listing: Listing<T>) {
    listing.baseSha == r.baseSha && listing.headSha == r.headSha
  }

  predicate InScope(r: Request, diff: Diff) {
    && diff.baseSha == r.baseSha && diff.headSha == r.headSha
    && diff.totalCount == r.totalCount && diff.filenamesSha == r.filenamesSha
  }

  /**
   The pull request is the expected one, open and clean; checks and reviews are complete and pass; the diff is in scope.
   */
  ghost predicate GatesHold(r: Request, seen: Observations) {
    && ExactPull(r, seen.pull).Ok? && !seen.pull.merged && seen.pull.open && Clean(seen.pull)
    && Supported(seen.requirements)
    && TakenAt(r, seen.checks) && !seen.checks.possiblyMore
      && ChecksPass(seen.checks.items, seen.requirements.requiredChecks)
    && TakenAt(r, seen.reviews) && !seen.reviews.possiblyMore
    && ReviewsPass(r, seen.reviews.items, seen.requirements.requiredApprovals)
    && InScope(r, seen.diff)
  }
}
