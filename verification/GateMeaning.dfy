/** The merge gates in the fields of what they read, without the predicates the program is checked by. */
module GateMeaning {
  import opened Common
  import opened MergeGates

  /** The one expected pull request, open, not merged, no draft, and mergeable without conflict. */
  predicate PullReady(r: Request, pull: Pull) {
    && pull.number == r.number && pull.baseRef == r.base && pull.baseSha == r.baseSha && pull.headSha == r.headSha
    && pull.markers == [r.marker]
    && !pull.merged && pull.open && !pull.draft && pull.mergeable == Some(true) && pull.mergeableState == "clean"
  }

  predicate Passed(row: CheckRow) {
    row.status == "completed" && row.conclusion in {"success", "neutral", "skipped"}
  }

  /** Every check completed without failing, and is listed once. */
  ghost predicate RowsReady(rows: seq<CheckRow>) {
    && (forall i | 0 <= i < |rows| :: Passed(rows[i]))
    && (forall i, j | 0 <= i < j < |rows| :: rows[i].name != rows[j].name || rows[i].appId != rows[j].appId)
  }

  predicate Served(rows: seq<CheckRow>, wanted: Required) {
    exists i | 0 <= i < |rows| :: Serves(rows[i], wanted)
  }

  /** Every requirement is among the checks. */
  ghost predicate ChecksReady(rows: seq<CheckRow>, required: seq<Required>) {
    RowsReady(rows) && forall k | 0 <= k < |required| :: Served(rows, required[k])
  }

  predicate Serves(row: CheckRow, wanted: Required) {
    row.name == wanted.context && (wanted.appId == None || wanted.appId == row.appId)
  }

  /** Later than every other review of the same reviewer. */
  ghost predicate Last(items: seq<Review>, i: nat) {
    && i < |items|
    && forall j | 0 <= j < |items| && j != i && items[j].reviewer == items[i].reviewer ::
         items[j].submittedAt < items[i].submittedAt
  }

  ghost predicate HasLast(items: seq<Review>, who: string) {
    exists i: nat :: Last(items, i) && items[i].reviewer == who
  }

  /** Whoever this is, their last review approves the expected head, and they are not the merging user. */
  ghost predicate Approved(r: Request, items: seq<Review>, who: string) {
    && who != r.expectedUser
    && exists i: nat | Last(items, i) ::
         items[i].reviewer == who && items[i].state == "APPROVED" && items[i].commitSha == r.headSha
  }

  /** Everybody's last review is one review, none asks for changes, and enough approve. */
  ghost predicate ReviewsReady(r: Request, items: seq<Review>, needed: int) {
    && (forall j | 0 <= j < |items| :: HasLast(items, items[j].reviewer))
    && (forall i: nat | Last(items, i) :: items[i].state != "CHANGES_REQUESTED")
    && exists approvers: set<string> :: |approvers| >= needed && AllApprove(r, items, approvers)
  }

  ghost predicate AllApprove(r: Request, items: seq<Review>, approvers: set<string>) {
    forall who | who in approvers :: Approved(r, items, who)
  }

  /** Read at these two commits, and complete. */
  predicate Whole<T>(r: Request, listing: Listing<T>) {
    listing.baseSha == r.baseSha && listing.headSha == r.headSha && !listing.possiblyMore
  }

  ghost predicate Ready(r: Request, seen: Observations) {
    && PullReady(r, seen.pull)
    && !seen.requirements.codeOwnerReview && !seen.requirements.conversationResolution
    && !seen.requirements.lastPushApproval
    && Whole(r, seen.checks) && ChecksReady(seen.checks.items, seen.requirements.requiredChecks)
    && Whole(r, seen.reviews) && ReviewsReady(r, seen.reviews.items, seen.requirements.requiredApprovals)
    && seen.diff.baseSha == r.baseSha && seen.diff.headSha == r.headSha
    && seen.diff.totalCount == r.totalCount && seen.diff.filenamesSha == r.filenamesSha
  }

  lemma RowsExactly(rows: seq<CheckRow>)
    ensures RowsPass(rows) <==> RowsReady(rows)
  {
    forall i, j | 0 <= i < j < |rows|
      ensures Identity(rows[i]) != Identity(rows[j]) <==>
        rows[i].name != rows[j].name || rows[i].appId != rows[j].appId
    {}
    forall i | 0 <= i < |rows| ensures Green(rows[i]) <==> Passed(rows[i]) {}
  }

  lemma ServedExactly(rows: seq<CheckRow>, wanted: Required)
    ensures Satisfied(rows, wanted) <==> Served(rows, wanted)
  {
    forall i | 0 <= i < |rows| ensures Meets(rows[i], wanted) <==> Serves(rows[i], wanted) {}
  }

  lemma ChecksExactly(rows: seq<CheckRow>, required: seq<Required>)
    ensures ChecksPass(rows, required) <==> ChecksReady(rows, required)
  {
    hide RowsPass, RowsReady, Satisfied, Served;
    RowsExactly(rows);
    forall k | 0 <= k < |required| ensures Satisfied(rows, required[k]) <==> Served(rows, required[k]) {
      ServedExactly(rows, required[k]);
    }
  }

  lemma LastIsNewest(items: seq<Review>, i: nat)
    ensures Last(items, i) <==> Newest(items, i)
  {}

  /** The last review of a reviewer is what the table holds. */
  lemma TableLast(items: seq<Review>, latest: map<string, Review>, i: nat)
    requires LatestTable(items, latest) && Last(items, i)
    ensures items[i].reviewer in latest && latest[items[i].reviewer] == items[i]
  {
    assert items[i] in items;
    NoneNewer(items, latest, items[i]);
    Listed(items, latest, items[i].reviewer);
    var k :| 0 <= k < |items| && items[k] == latest[items[i].reviewer];
  }

  lemma ApprovedIs(r: Request, items: seq<Review>, latest: map<string, Review>, who: string)
    requires LatestTable(items, latest)
    ensures Approved(r, items, who) <==> who in latest && Approves(r, latest[who])
  {
    if Approved(r, items, who) {
      var i: nat :| Last(items, i)
        && items[i].reviewer == who && items[i].state == "APPROVED" && items[i].commitSha == r.headSha;
      TableLast(items, latest, i);
    }
    if who in latest && Approves(r, latest[who]) {
      var i: nat :| Newest(items, i) && items[i] == latest[who] && items[i].reviewer == who;
      assert Last(items, i);
    }
  }

  lemma SubsetSmaller<T>(a: set<T>, b: set<T>)
    requires a <= b
    ensures |a| <= |b|
  {
    assert b == a + (b - a);
  }

  lemma PassIsReady(r: Request, items: seq<Review>, needed: int)
    requires ReviewsPass(r, items, needed)
    ensures ReviewsReady(r, items, needed)
  {
    hide LatestTable, Newest, Approved, HasLast, TablePasses;
    var latest: map<string, Review> :| TablePasses(r, items, needed, latest);
    PassParts(r, items, needed, latest);
    forall j | 0 <= j < |items| ensures HasLast(items, items[j].reviewer) {
      LastExists(items, latest, j);
    }
    forall i: nat | Last(items, i) ensures items[i].state != "CHANGES_REQUESTED" {
      TableLast(items, latest, i);
    }
    forall who | who in Approvers(r, latest) ensures Approved(r, items, who) {
      ApprovedIs(r, items, latest, who);
    }
    assert AllApprove(r, items, Approvers(r, latest));
  }

  lemma PassParts(r: Request, items: seq<Review>, needed: int, latest: map<string, Review>)
    requires TablePasses(r, items, needed, latest)
    ensures LatestTable(items, latest) && |Approvers(r, latest)| >= needed
    ensures forall who | who in latest :: latest[who].state != "CHANGES_REQUESTED"
  {
    hide LatestTable;
  }

  lemma LastExists(items: seq<Review>, latest: map<string, Review>, j: nat)
    requires LatestTable(items, latest) && j < |items|
    ensures HasLast(items, items[j].reviewer)
  {
    var i: nat :| Newest(items, i) && items[i] == latest[items[j].reviewer] && items[i].reviewer == items[j].reviewer;
    assert Last(items, i);
  }

  ghost predicate Holds(items: seq<Review>, latest: map<string, Review>) {
    forall who | who in latest ::
      exists i: nat :: Newest(items, i) && items[i] == latest[who] && items[i].reviewer == who
  }

  /** Everybody's last review among the first `n` items. */
  lemma {:induction false} TableUpTo(items: seq<Review>, n: nat) returns (latest: map<string, Review>)
    requires n <= |items| && forall j | 0 <= j < |items| :: HasLast(items, items[j].reviewer)
    ensures Holds(items, latest) && forall j | 0 <= j < n :: items[j].reviewer in latest
  {
    hide Newest, Last;
    latest := map[];
    if n > 0 {
      var before := TableUpTo(items, n - 1);
      latest := OneMoreLast(items, before, items[n - 1].reviewer);
    }
  }

  lemma OneMoreLast(items: seq<Review>, before: map<string, Review>, who: string) returns (latest: map<string, Review>)
    requires Holds(items, before) && HasLast(items, who)
    ensures Holds(items, latest) && latest.Keys == before.Keys + {who}
  {
    var i: nat :| Last(items, i) && items[i].reviewer == who;
    latest := before[who := items[i]];
    assert Newest(items, i);
    forall other | other in latest
      ensures exists k: nat :: Newest(items, k) && items[k] == latest[other] && items[k].reviewer == other
    {
      if other != who {
        var k: nat :| Newest(items, k) && items[k] == before[other] && items[k].reviewer == other;
        assert items[k] == latest[other];
      }
    }
  }

  lemma ReadyPasses(r: Request, items: seq<Review>, needed: int)
    requires ReviewsReady(r, items, needed)
    ensures ReviewsPass(r, items, needed)
  {
    hide Newest, Approves, Approved, HasLast;
    var latest := TableUpTo(items, |items|);
    assert LatestTable(items, latest);
    forall who | who in latest ensures latest[who].state != "CHANGES_REQUESTED" {
      var i := ListedLast(items, latest, who);
    }
    var approvers: set<string> :| |approvers| >= needed && AllApprove(r, items, approvers);
    forall who | who in approvers ensures who in Approvers(r, latest) {
      ApprovedIs(r, items, latest, who);
    }
    SubsetSmaller(approvers, Approvers(r, latest));
    assert TablePasses(r, items, needed, latest);
  }

  lemma ListedLast(items: seq<Review>, latest: map<string, Review>, who: string) returns (i: nat)
    requires LatestTable(items, latest) && who in latest
    ensures Last(items, i) && items[i] == latest[who]
  {
    i :| Newest(items, i) && items[i] == latest[who] && items[i].reviewer == who;
  }

  /** The gates hold exactly if everything read is ready. */
  lemma GatesExactly(r: Request, seen: Observations)
    ensures GatesHold(r, seen) <==> Ready(r, seen)
  {
    hide ChecksPass, ChecksReady, ReviewsPass, ReviewsReady;
    ChecksExactly(seen.checks.items, seen.requirements.requiredChecks);
    if ReviewsPass(r, seen.reviews.items, seen.requirements.requiredApprovals) {
      PassIsReady(r, seen.reviews.items, seen.requirements.requiredApprovals);
    }
    if ReviewsReady(r, seen.reviews.items, seen.requirements.requiredApprovals) {
      ReadyPasses(r, seen.reviews.items, seen.requirements.requiredApprovals);
    }
  }
}
