/** The event classifier: each event puts the key of its issue or pull request
    into at most one of the six buckets, and a sequence of events is the union
    of what its events put in. */
module Classifier {
  import opened Events
  import opened Buckets

  /** `sub` occurs in `s` starting at index `i`. */
  ghost predicate OccursAt(s: string, sub: string, i: int)
  {
    0 <= i && i + |sub| <= |s| && s[i..i + |sub|] == sub
  }

  /** strings.Contains: `sub` occurs in `s` as a contiguous piece, at some index. */
  predicate Contains(s: string, sub: string)
    ensures Contains(s, sub) <==> exists i :: OccursAt(s, sub, i)
  {
    if |s| < |sub| then false
    else if s[..|sub|] == sub then assert OccursAt(s, sub, 0); true
    else OccursShift(s, sub); Contains(s[1..], sub)
  }

  /** Past the first character, occurrences in `s` are those in `s[1..]`, shifted by one. */
  lemma OccursShift(s: string, sub: string)
    requires |s| >= |sub| && s[..|sub|] != sub
    ensures (exists i :: OccursAt(s, sub, i)) <==> (exists j :: OccursAt(s[1..], sub, j))
  {
    if exists i :: OccursAt(s, sub, i) {
      var i :| OccursAt(s, sub, i);
      assert i != 0;
      assert s[1..][i - 1..i - 1 + |sub|] == s[i..i + |sub|];
      assert OccursAt(s[1..], sub, i - 1);
    }
    if exists j :: OccursAt(s[1..], sub, j) {
      var j :| OccursAt(s[1..], sub, j);
      assert s[1..][j..j + |sub|] == s[j + 1..j + 1 + |sub|];
      assert OccursAt(s, sub, j + 1);
    }
  }

  /** Where one event goes: nowhere, or one key into one bucket. */
  datatype Placement = Ignored | Place(bucket: Bucket, key: string)

  /** The pull-request actions the classifier recognises. */
  const PullRequestActions: set<string> := {"opened", "edited", "closed", "reopened"}

  /** The key of the issue or pull request an event is about, if its kind has one. */
  function SubjectKey(p: Payload): Option<string>
  {
    match p
    case IssueCommentEvent(issue) => Some(IssueKey(issue))
    case IssuesEvent(_, issue) => Some(IssueKey(issue))
    case PullRequestEvent(_, pr) => Some(PrKey(pr))
    case PullRequestReviewCommentEvent(pr) => Some(PrKey(pr))
    case _ => None
  }

  /** The decision table of the classifier, for one decoded event and the tracked user.
      Whatever it does with an event, it files the key of the event's own subject,
      and it ignores exactly the kinds without a subject and the pull-request
      actions it does not recognise. */
  function Classify(p: Payload, user: string): (r: Placement)
    ensures r.Place? ==> SubjectKey(p) == Some(r.key)
    ensures r.Ignored? <==> SubjectKey(p).None? || (p.PullRequestEvent? && p.action !in PullRequestActions)
  {
    match p
    case IssueCommentEvent(issue) =>
      if issue.isPullRequest then
        if issue.author == user then Place(UnderReview, IssueKey(issue)) else Place(Reviewed, IssueKey(issue))
      else Place(Issues, IssueKey(issue))
    case IssuesEvent(_, issue) =>
      // The action (opened, edited, deleted, closed, assigned, ...) plays no part.
      if issue.isPullRequest then Place(Reviewed, IssueKey(issue)) else Place(Issues, IssueKey(issue))
    case PullRequestEvent(action, pr) =>
      if action == "opened" then
        if Contains(pr.title, "WIP") then Place(InProgress, PrKey(pr)) else Place(UnderReview, PrKey(pr))
      else if action == "edited" then Place(InProgress, PrKey(pr))
      else if action == "closed" then
        if pr.merged then Place(Merged, PrKey(pr)) else Place(Abandoned, PrKey(pr))
      else if action == "reopened" then Place(InProgress, PrKey(pr))
      else Ignored
    case PullRequestReviewCommentEvent(pr) =>
      if pr.author == user then Place(UnderReview, PrKey(pr)) else Place(Reviewed, PrKey(pr))
    case _ =>
      // Commit comments, branch or tag creation, pushes, unknown kinds.
      Ignored
  }

  /** The keys one event puts into bucket `b`: none, or the key of its subject. */
  function Placed(p: Payload, user: string, b: Bucket): (ks: set<string>)
    ensures forall k :: k in ks <==> Classify(p, user) == Place(b, k)
  {
    match Classify(p, user)
    case Place(b', k) => if b' == b then {k} else {}
    case Ignored => {}
  }

  /** The report after one more event: each bucket gains what the event puts there. */
  function Apply(r: Report, p: Payload, user: string): (r': Report)
    ensures forall b :: r'.Get(b) == r.Get(b) + Placed(p, user, b)
  {
    match Classify(p, user)
    case Ignored => r
    case Place(b, k) => r.Add(b, k)
  }

  /** The keys of the issues and pull requests a sequence of events is about. */
  function SubjectKeys(es: seq<Event>): set<string>
  {
    if es == [] then {}
    else SubjectKeys(es[..|es| - 1]) + match SubjectKey(es[|es| - 1].payload) case Some(k) => {k} case None => {}
  }

  /** The report a sequence of events builds, starting from six empty sets.
      Every set holds only keys of the events' own subjects. */
  function Collect(es: seq<Event>, user: string): (r: Report)
    ensures r.merged + r.abandoned + r.underReview + r.inProgress + r.reviewed + r.issues <= SubjectKeys(es)
  {
    if es == [] then Empty else Apply(Collect(es[..|es| - 1], user), es[|es| - 1].payload, user)
  }

  // ---- The decision table read by bucket ----

  /** Only a closed pull request is merged or abandoned, according to its merged flag. */
  lemma TerminalRoutes(p: Payload, user: string, k: string)
    ensures Classify(p, user) == Place(Merged, k)
            <==> p.PullRequestEvent? && p.action == "closed" && p.pr.merged && k == PrKey(p.pr)
    ensures Classify(p, user) == Place(Abandoned, k)
            <==> p.PullRequestEvent? && p.action == "closed" && !p.pr.merged && k == PrKey(p.pr)
  {
  }

  /** Under review: an opened pull request without "WIP" in its title, or a
      comment on a pull request authored by the tracked user. */
  lemma UnderReviewRoutes(p: Payload, user: string, k: string)
    ensures Classify(p, user) == Place(UnderReview, k)
            <==> ((p.PullRequestEvent? && p.action == "opened" && !Contains(p.pr.title, "WIP") && k == PrKey(p.pr))
                  || (p.IssueCommentEvent? && p.issue.isPullRequest && p.issue.author == user && k == IssueKey(p.issue))
                  || (p.PullRequestReviewCommentEvent? && p.pr.author == user && k == PrKey(p.pr)))
  {
  }

  /** In progress: a pull request opened with "WIP" in its title, edited or reopened. */
  lemma InProgressRoutes(p: Payload, user: string, k: string)
    ensures Classify(p, user) == Place(InProgress, k)
            <==> (p.PullRequestEvent? && k == PrKey(p.pr)
                  && ((p.action == "opened" && Contains(p.pr.title, "WIP")) || p.action == "edited" || p.action == "reopened"))
  {
  }

  /** Reviewed: any issues event on a pull request, and comments on someone else's pull request. */
  lemma ReviewedRoutes(p: Payload, user: string, k: string)
    ensures Classify(p, user) == Place(Reviewed, k)
            <==> ((p.IssuesEvent? && p.issue.isPullRequest && k == IssueKey(p.issue))
                  || (p.IssueCommentEvent? && p.issue.isPullRequest && p.issue.author != user && k == IssueKey(p.issue))
                  || (p.PullRequestReviewCommentEvent? && p.pr.author != user && k == PrKey(p.pr)))
  {
  }

  /** Issues: a comment on, or an issues event of, a plain issue, whoever the author. */
  lemma IssuesRoutes(p: Payload, user: string, k: string)
    ensures Classify(p, user) == Place(Issues, k)
            <==> (p.IssueCommentEvent? || p.IssuesEvent?) && !p.issue.isPullRequest && k == IssueKey(p.issue)
  {
  }

  /** The tracked user matters only for comments on pull requests, and there it
      decides between under review and reviewed. */
  lemma TrackedUserRoutes(p: Payload, u1: string, u2: string)
    requires Classify(p, u1) != Classify(p, u2)
    ensures (p.IssueCommentEvent? && p.issue.isPullRequest) || p.PullRequestReviewCommentEvent?
    ensures Classify(p, u1).Place? && Classify(p, u2).Place?
    ensures {Classify(p, u1).bucket, Classify(p, u2).bucket} == {UnderReview, Reviewed}
  {
  }

  // ---- Folding the classifier over events ----

  /** A key is in a bucket of the collected report iff some event places it there. */
  lemma {:induction false} CollectMembership(es: seq<Event>, user: string, b: Bucket, k: string)
    ensures k in Collect(es, user).Get(b) <==> exists i :: 0 <= i < |es| && k in Placed(es[i].payload, user, b)
  {
    if es == [] {
      assert Collect(es, user) == Empty;
    } else {
      var init, last := es[..|es| - 1], es[|es| - 1];
      CollectMembership(init, user, b, k);
      CollectLast(es, user, b);
      if k in Collect(init, user).Get(b) {
        var i :| 0 <= i < |init| && k in Placed(init[i].payload, user, b);
        assert es[i] == init[i];
      } else if k in Placed(last.payload, user, b) {
        assert es[|es| - 1] == last;
      } else {
        forall i | 0 <= i < |es|
          ensures k !in Placed(es[i].payload, user, b)
        {
          if i < |init| {
            assert init[i] == es[i];
          }
        }
      }
    }
  }

  /** The last event adds to each set exactly what it places there. */
  lemma CollectLast(es: seq<Event>, user: string, b: Bucket)
    requires es != []
    ensures Collect(es, user).Get(b) == Collect(es[..|es| - 1], user).Get(b) + Placed(es[|es| - 1].payload, user, b)
  {
  }

  /** The collected report depends only on which events occur: neither their
      order nor how often they repeat changes it. */
  lemma SameEventsSameReport(es1: seq<Event>, es2: seq<Event>, user: string)
    requires forall e :: e in es1 <==> e in es2
    ensures Collect(es1, user) == Collect(es2, user)
  {
    forall b
      ensures Collect(es1, user).Get(b) == Collect(es2, user).Get(b)
    {
      forall k | k in Collect(es1, user).Get(b)
        ensures k in Collect(es2, user).Get(b)
      {
        CollectMembership(es1, user, b, k);
        var i :| 0 <= i < |es1| && k in Placed(es1[i].payload, user, b);
        assert es1[i] in es2;
        var j :| 0 <= j < |es2| && es2[j] == es1[i];
        CollectMembership(es2, user, b, k);
      }
      forall k | k in Collect(es2, user).Get(b)
        ensures k in Collect(es1, user).Get(b)
      {
        CollectMembership(es2, user, b, k);
        var i :| 0 <= i < |es2| && k in Placed(es2[i].payload, user, b);
        assert es2[i] in es1;
        var j :| 0 <= j < |es1| && es1[j] == es2[i];
        CollectMembership(es1, user, b, k);
      }
    }
    ReportExtensionality(Collect(es1, user), Collect(es2, user));
  }

  /** Processing an event a second time right away changes nothing. */
  lemma ProcessedTwice(es: seq<Event>, e: Event, user: string)
    ensures Collect(es + [e, e], user) == Collect(es + [e], user)
  {
    var once, twice := es + [e], es + [e, e];
    assert twice[..|twice| - 1] == once;
    var r1 := Collect(once, user);
    ReportExtensionality(Apply(r1, e.payload, user), r1);
  }

  /** Two events about the same issue or pull request that land in the same
      bucket leave a single entry there. */
  lemma SameSubjectSingleEntry(e1: Event, e2: Event, user: string, b: Bucket)
    requires Classify(e1.payload, user).Place? && Classify(e1.payload, user).bucket == b
    requires Classify(e2.payload, user).Place? && Classify(e2.payload, user).bucket == b
    requires SubjectKey(e1.payload) == SubjectKey(e2.payload)
    ensures |Collect([e1, e2], user).Get(b)| == 1
  {
    var k := Classify(e1.payload, user).key;
    var es := [e1, e2];
    assert es[..1] == [e1];
    assert [e1][..0] == [];
    assert Placed(e1.payload, user, b) == {k};
    assert Placed(e2.payload, user, b) == {k};
    assert Collect([e1], user).Get(b) == {k};
    assert Collect(es, user).Get(b) == {k};
  }
}
