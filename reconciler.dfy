/** The set reconciler: terminal states (merged, abandoned) dominate the
    transitional ones (under review, in progress), and under review dominates
    in progress. Three passes, in this order. */
module Reconciler {
  import opened Buckets

  /** The invariant that holds once reconciliation is done. Reviewed and issues
      are not constrained. */
  ghost predicate Settled(r: Report)
  {
    r.merged !! r.underReview && r.merged !! r.inProgress
    && r.abandoned !! r.underReview && r.abandoned !! r.inProgress
    && r.underReview !! r.inProgress
  }

  /** One terminal pass: every key of `done` leaves under review and in progress. */
  function Without(r: Report, done: set<string>): Report
  {
    r.(underReview := r.underReview - done, inProgress := r.inProgress - done)
  }

  /** cleanUp: the merged pass, then the abandoned pass, then the pass that
      removes whatever is still under review from in progress. */
  function Reconciled(r: Report): (c: Report)
    ensures Settled(c)
    ensures c.merged == r.merged && c.abandoned == r.abandoned
    ensures c.reviewed == r.reviewed && c.issues == r.issues
    ensures c.underReview <= r.underReview && c.inProgress <= r.inProgress
  {
    var afterMerged := Without(r, r.merged);
    var afterAbandoned := Without(afterMerged, r.abandoned);
    afterAbandoned.(inProgress := afterAbandoned.inProgress - afterAbandoned.underReview)
  }

  /** Exactly which keys survive: under review keeps what is neither merged nor
      abandoned; in progress keeps what is neither of those nor under review. */
  lemma ReconciledMembership(r: Report, k: string)
    ensures k in Reconciled(r).underReview
            <==> k in r.underReview && k !in r.merged && k !in r.abandoned
    ensures k in Reconciled(r).inProgress
            <==> k in r.inProgress && k !in r.merged && k !in r.abandoned && k !in r.underReview
  {
  }

  /** Reconciling leaves a report alone exactly when it is already settled. */
  lemma ReconciledFixpoint(r: Report)
    ensures Reconciled(r) == r <==> Settled(r)
  {
    if Settled(r) {
      var c := Reconciled(r);
      assert c.underReview == r.underReview;
      assert c.inProgress == r.inProgress;
    }
  }

  /** Running the reconciler a second time changes nothing. */
  lemma ReconciledIdempotent(r: Report)
    ensures Reconciled(Reconciled(r)) == Reconciled(r)
  {
    ReconciledFixpoint(Reconciled(r));
  }

  /** The reconciler removes no more than the invariant forces: any settled
      report with the same terminal sets that only shrinks under review keeps
      no more under review than the reconciler does. */
  lemma ReconciledKeepsMostUnderReview(r: Report, c: Report)
    requires Settled(c)
    requires c.merged == r.merged && c.abandoned == r.abandoned
    requires c.underReview <= r.underReview
    ensures c.underReview <= Reconciled(r).underReview
  {
  }
}
