/** The six sets as a mutable object (eventSets), the pass that fills them
    (organizeEvents), the reconciliation pass (cleanUp) and the rendering of
    the report (markdown). */
module Organizer {
  import opened Events
  import opened Buckets
  import opened Classifier
  import opened Reconciler
  import opened Formatter

  class EventSets {
    var merged: set<string>
    var abandoned: set<string>
    var underReview: set<string>
    var inProgress: set<string>
    var reviewed: set<string>
    var issues: set<string>

    /** The six sets as a value. */
    function Value(): Report
      reads this
    {
      Report(merged, abandoned, underReview, inProgress, reviewed, issues)
    }

    constructor ()
      ensures Value() == Empty
    {
      merged, abandoned, underReview := {}, {}, {};
      inProgress, reviewed, issues := {}, {}, {};
    }

    /** One step of the classification loop: insert the event's key into the
        set its kind and sub-action select, or change nothing. */
    method Record(p: Payload, user: string)
      modifies this
      ensures Value() == Apply(old(Value()), p, user)
    {
      match p {
        case CommitCommentEvent =>
        case CreateEvent(_) =>
        case IssueCommentEvent(issue) =>
          if issue.isPullRequest {
            if issue.author == user {
              underReview := underReview + {IssueKey(issue)};
            } else {
              reviewed := reviewed + {IssueKey(issue)};
            }
          } else {
            issues := issues + {IssueKey(issue)};
          }
        case IssuesEvent(_, issue) =>
          if issue.isPullRequest {
            reviewed := reviewed + {IssueKey(issue)};
          } else {
            issues := issues + {IssueKey(issue)};
          }
        case PullRequestEvent(action, pr) =>
          if action == "opened" {
            if Contains(pr.title, "WIP") {
              inProgress := inProgress + {PrKey(pr)};
            } else {
              underReview := underReview + {PrKey(pr)};
            }
          } else if action == "edited" {
            inProgress := inProgress + {PrKey(pr)};
          } else if action == "closed" {
            if pr.merged {
              merged := merged + {PrKey(pr)};
            } else {
              abandoned := abandoned + {PrKey(pr)};
            }
          } else if action == "reopened" {
            inProgress := inProgress + {PrKey(pr)};
          }
        case PullRequestReviewCommentEvent(pr) =>
          if pr.author == user {
            underReview := underReview + {PrKey(pr)};
          } else {
            reviewed := reviewed + {PrKey(pr)};
          }
        case PushEvent =>
        case OtherEvent(_) =>
        case Malformed =>
      }
    }

    /** cleanUp: three passes over the sets, deleting from under review and in
        progress, one key at a time, in whatever order the sets yield them. */
    method CleanUp()
      modifies this
      ensures Value() == Reconciled(old(Value()))
    {
      var todo := merged;
      while todo != {}
        invariant todo <= merged
        invariant merged == old(merged) && abandoned == old(abandoned)
        invariant reviewed == old(reviewed) && issues == old(issues)
        invariant underReview == old(underReview) - (merged - todo)
        invariant inProgress == old(inProgress) - (merged - todo)
        decreases todo
      {
        var pr :| pr in todo;
        underReview := underReview - {pr};
        inProgress := inProgress - {pr};
        todo := todo - {pr};
      }
      todo := abandoned;
      while todo != {}
        invariant todo <= abandoned
        invariant merged == old(merged) && abandoned == old(abandoned)
        invariant reviewed == old(reviewed) && issues == old(issues)
        invariant underReview == old(underReview) - merged - (abandoned - todo)
        invariant inProgress == old(inProgress) - merged - (abandoned - todo)
        decreases todo
      {
        var pr :| pr in todo;
        underReview := underReview - {pr};
        inProgress := inProgress - {pr};
        todo := todo - {pr};
      }
      todo := underReview;
      while todo != {}
        invariant todo <= underReview
        invariant merged == old(merged) && abandoned == old(abandoned)
        invariant reviewed == old(reviewed) && issues == old(issues)
        invariant underReview == old(underReview) - merged - abandoned
        invariant inProgress == old(inProgress) - merged - abandoned - (underReview - todo)
        decreases todo
      {
        var pr :| pr in todo;
        inProgress := inProgress - {pr};
        todo := todo - {pr};
      }
    }

    /** markdown: the top line and the six sections in fixed order, joined by
        newlines, tabs expanded. `orders` records the order in which each set
        yielded its keys. */
    method Markdown() returns (text: string, ghost orders: seq<seq<string>>)
      ensures Enumerations(Value(), orders)
      ensures text == Render(Outline(Value(), orders))
      ensures '\t' !in text
      ensures |text| >= |TopLine| && text[..|TopLine|] == TopLine
      ensures Value() == Empty ==> text == TopLine
    {
      var md := [TopLine];
      var m, om := PrintSection(merged, "Merged");
      var a, oa := PrintSection(abandoned, "Abandoned");
      var u, ou := PrintSection(underReview, "Under Review");
      var p, op := PrintSection(inProgress, "In Progress");
      var v, ov := PrintSection(reviewed, "Reviewed");
      var i, oi := PrintSection(issues, "Issues");
      md := md + m + a + u + p + v + i;
      orders := [om, oa, ou, op, ov, oi];
      assert Enumerations(Value(), orders) by {
        assert forall k :: 0 <= k < 6 ==> Value().Get(SectionOrder[k]) == [merged, abandoned, underReview, inProgress, reviewed, issues][k];
      }
      OutlineInOrder(Value(), orders, m, a, u, p, v, i);
      text := Join(md, "\n");
      text := ExpandTabs(text);
      RenderedOutlineStart(Value(), orders);
    }
  }

  /** What organizeEvents ends in: a fatal stop at the first event whose payload
      does not decode, or the reconciled sets. */
  datatype Outcome = Fatal(index: nat) | Organized(sets: EventSets)

  /** organizeEvents: decode every payload first (stopping the run at the first
      failure), then classify the events one by one into fresh sets, then
      reconcile them. */
  method OrganizeEvents(events: seq<Event>, user: string) returns (r: Outcome)
    ensures r.Fatal? ==> r.index < |events| && events[r.index].payload.Malformed?
                         && forall j :: 0 <= j < r.index ==> !events[j].payload.Malformed?
    ensures r.Organized? ==> (forall j :: 0 <= j < |events| ==> !events[j].payload.Malformed?)
                             && fresh(r.sets) && r.sets.Value() == Reconciled(Collect(events, user))
  {
    for i := 0 to |events|
      invariant forall j :: 0 <= j < i ==> !events[j].payload.Malformed?
    {
      if events[i].payload.Malformed? {
        return Fatal(i);
      }
    }
    var sets := new EventSets();
    for i := 0 to |events|
      invariant fresh(sets)
      invariant sets.Value() == Collect(events[..i], user)
    {
      assert events[..i + 1][..i] == events[..i];
      sets.Record(events[i].payload, user);
    }
    assert events[..|events|] == events;
    sets.CleanUp();
    r := Organized(sets);
  }

  /** The report that classifying and reconciling a sequence of events yields. */
  function FinalReport(events: seq<Event>, user: string): Report
  {
    Reconciled(Collect(events, user))
  }

  /** The final report is settled, and a key is merged (or abandoned, issue, reviewed)
      in it iff some event put it there. */
  lemma FinalReportTerminalMembership(events: seq<Event>, user: string, b: Bucket, k: string)
    requires b in {Merged, Abandoned, Reviewed, Issues}
    ensures Settled(FinalReport(events, user))
    ensures k in FinalReport(events, user).Get(b)
            <==> exists i :: 0 <= i < |events| && Classify(events[i].payload, user) == Place(b, k)
  {
    CollectMembership(events, user, b, k);
    if exists i :: 0 <= i < |events| && Classify(events[i].payload, user) == Place(b, k) {
      var i :| 0 <= i < |events| && Classify(events[i].payload, user) == Place(b, k);
      assert k in Placed(events[i].payload, user, b);
    }
  }

  /** Once a pull request is closed by some event, its key ends up merged or
      abandoned (merged if that close merged it) and is neither under review
      nor in progress, whatever other events say about it. */
  lemma ClosedPullRequestIsTerminal(events: seq<Event>, user: string, i: nat)
    requires i < |events|
    requires events[i].payload.PullRequestEvent? && events[i].payload.action == "closed"
    ensures var k := PrKey(events[i].payload.pr);
      var f := FinalReport(events, user);
      (events[i].payload.pr.merged ==> k in f.merged)
      && (!events[i].payload.pr.merged ==> k in f.abandoned)
      && k !in f.underReview && k !in f.inProgress
  {
    var p := events[i].payload;
    var k := PrKey(p.pr);
    var b := if p.pr.merged then Merged else Abandoned;
    assert k in Placed(p, user, b);
    CollectMembership(events, user, b, k);
    ReconciledMembership(Collect(events, user), k);
  }

  /** A key the tracked user's own work puts under review, and no event closes,
      stays under review and leaves in progress. */
  lemma OpenWorkIsUnderReview(events: seq<Event>, user: string, i: nat)
    requires i < |events| && Classify(events[i].payload, user).Place?
    requires Classify(events[i].payload, user).bucket == UnderReview
    requires var k := Classify(events[i].payload, user).key;
      forall j :: 0 <= j < |events| ==> Classify(events[j].payload, user) != Place(Merged, k)
                                         && Classify(events[j].payload, user) != Place(Abandoned, k)
    ensures var k := Classify(events[i].payload, user).key;
      k in FinalReport(events, user).underReview && k !in FinalReport(events, user).inProgress
  {
    var k := Classify(events[i].payload, user).key;
    assert k in Placed(events[i].payload, user, UnderReview);
    CollectMembership(events, user, UnderReview, k);
    CollectMembership(events, user, Merged, k);
    CollectMembership(events, user, Abandoned, k);
    ReconciledMembership(Collect(events, user), k);
  }
}
