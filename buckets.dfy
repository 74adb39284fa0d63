/** The six named sets of keys the report is made of, as a value. */
module Buckets {

  datatype Bucket = Merged | Abandoned | UnderReview | InProgress | Reviewed | Issues

  /** The order in which the report lists its sections. */
  const SectionOrder: seq<Bucket> := [Merged, Abandoned, UnderReview, InProgress, Reviewed, Issues]

  /** The heading of a bucket's section. */
  function Name(b: Bucket): string
  {
    match b
    case Merged => "Merged"
    case Abandoned => "Abandoned"
    case UnderReview => "Under Review"
    case InProgress => "In Progress"
    case Reviewed => "Reviewed"
    case Issues => "Issues"
  }

  /** Every bucket has its own section, and distinct sections have distinct headings. */
  lemma SectionOrderCoversBuckets()
    ensures |SectionOrder| == 6
    ensures forall b: Bucket :: b in SectionOrder
    ensures forall i, j :: 0 <= i < j < 6 ==> Name(SectionOrder[i]) != Name(SectionOrder[j])
  {
    forall b: Bucket
      ensures b in SectionOrder
    {
      match b
      case Merged => assert SectionOrder[0] == b;
      case Abandoned => assert SectionOrder[1] == b;
      case UnderReview => assert SectionOrder[2] == b;
      case InProgress => assert SectionOrder[3] == b;
      case Reviewed => assert SectionOrder[4] == b;
      case Issues => assert SectionOrder[5] == b;
    }
  }

  datatype Report = Report(
    merged: set<string>,
    abandoned: set<string>,
    underReview: set<string>,
    inProgress: set<string>,
    reviewed: set<string>,
    issues: set<string>)
  {
    function Get(b: Bucket): set<string>
    {
      match b
      case Merged => merged
      case Abandoned => abandoned
      case UnderReview => underReview
      case InProgress => inProgress
      case Reviewed => reviewed
      case Issues => issues
    }

    /** Insert a key into one bucket; the other five stay as they are. */
    function Add(b: Bucket, key: string): (r: Report)
      ensures r.Get(b) == Get(b) + {key}
      ensures forall c :: c != b ==> r.Get(c) == Get(c)
    {
      match b
      case Merged => this.(merged := merged + {key})
      case Abandoned => this.(abandoned := abandoned + {key})
      case UnderReview => this.(underReview := underReview + {key})
      case InProgress => this.(inProgress := inProgress + {key})
      case Reviewed => this.(reviewed := reviewed + {key})
      case Issues => this.(issues := issues + {key})
    }
  }

  const Empty: Report := Report({}, {}, {}, {}, {}, {})

  /** Two reports with the same buckets are the same report. */
  lemma ReportExtensionality(r: Report, s: Report)
    requires forall b :: r.Get(b) == s.Get(b)
    ensures r == s
  {
    assert r.Get(Merged) == s.Get(Merged) && r.Get(Abandoned) == s.Get(Abandoned);
    assert r.Get(UnderReview) == s.Get(UnderReview) && r.Get(InProgress) == s.Get(InProgress);
    assert r.Get(Reviewed) == s.Get(Reviewed) && r.Get(Issues) == s.Get(Issues);
  }
}
