/** Activity events as the report receives them: already fetched from the
    platform and decoded into one of a closed set of payload kinds. */
module Events {

  datatype Option<+T> = None | Some(value: T)

  /** An instant on one clock (nanoseconds); only the order of instants matters. */
  type Instant = int

  /** The fields of an issue the report reads. A missing author login reads as "".
      `isPullRequest` stands for "the issue carries pull-request links". */
  datatype Issue = Issue(title: string, htmlUrl: string, author: string, isPullRequest: bool)

  /** The fields of a pull request the report reads. */
  datatype PullRequest = PullRequest(title: string, htmlUrl: string, author: string, merged: bool)

  /** The decoded payload of an event, one variant per kind the report tells apart.
      `Malformed` stands for a payload that fails to decode. */
  datatype Payload =
    | CommitCommentEvent
    | CreateEvent(refType: string)
    | IssueCommentEvent(issue: Issue)
    | IssuesEvent(action: string, issue: Issue)
    | PullRequestEvent(action: string, pr: PullRequest)
    | PullRequestReviewCommentEvent(pr: PullRequest)
    | PushEvent
    | OtherEvent(kind: string)
    | Malformed

  datatype Event = Event(createdAt: Instant, payload: Payload)

  /** The display and deduplication key of an issue or pull request, `[text](url)`:
      the text in brackets, then the url in parentheses. */
  function Key(text: string, url: string): (k: string)
    ensures |k| == |text| + |url| + 4
  {
    "[" + text + "](" + url + ")"
  }

  /** The text and the url can be read back from a key once the length of the
      text is known. */
  lemma KeyLayout(text: string, url: string)
    ensures |Key(text, url)| == |text| + |url| + 4
    ensures var k := Key(text, url);
      k[0] == '[' && k[|text| + 1] == ']' && k[|text| + 2] == '(' && k[|k| - 1] == ')'
      && k[1..|text| + 1] == text && k[|text| + 3..|k| - 1] == url
  {
    var k := Key(text, url);
    assert k == "[" + text + "](" + url + ")";
  }

  /** prTitle: the key of a pull request. Its title and url read back once the title's
      length is known (`KeyLayout`), or whenever the url holds no `]` (`KeyInjective`). */
  function PrKey(pr: PullRequest): (k: string)
    ensures |k| == |pr.title| + |pr.htmlUrl| + 4
  {
    Key(pr.title, pr.htmlUrl)
  }

  /** issueTitle: the key of an issue. Its title and url read back once the title's
      length is known (`KeyLayout`), or whenever the url holds no `]` (`KeyInjective`). */
  function IssueKey(issue: Issue): (k: string)
    ensures |k| == |issue.title| + |issue.htmlUrl| + 4
  {
    Key(issue.title, issue.htmlUrl)
  }

  /** A pull request and the issue that stands for it (same title, same url)
      get the same key, so comments on it and its own events land on one entry. */
  lemma SameSubjectSameKey(issue: Issue, pr: PullRequest)
    requires issue.title == pr.title && issue.htmlUrl == pr.htmlUrl
    ensures IssueKey(issue) == PrKey(pr)
  {
  }

  /** Two keys are equal only for equal texts and urls, provided the urls hold no ']'. */
  lemma KeyInjective(t1: string, u1: string, t2: string, u2: string)
    requires ']' !in u1 && ']' !in u2
    requires Key(t1, u1) == Key(t2, u2)
    ensures t1 == t2 && u1 == u2
  {
    var k := Key(t1, u1);
    KeyLayout(t1, u1);
    KeyLayout(t2, u2);
    if |t1| < |t2| {
      CloseBracketAfterText(t1, u1, |t2| + 1);
    } else if |t2| < |t1| {
      CloseBracketAfterText(t2, u2, |t1| + 1);
    }
    assert |t1| == |t2|;
    assert t1 == k[1..|t1| + 1] == t2;
    assert u1 == k[|t1| + 3..|k| - 1] == u2;
  }

  /** Past the text, a key holds ']' only right after the text, when the url has none. */
  lemma CloseBracketAfterText(t: string, u: string, i: int)
    requires ']' !in u
    requires |t| + 1 < i < |Key(t, u)|
    ensures Key(t, u)[i] != ']'
  {
    var k := Key(t, u);
    KeyLayout(t, u);
    if |t| + 3 <= i < |k| - 1 {
      assert k[i] == k[|t| + 3..|k| - 1][i - (|t| + 3)];
    }
  }

  /** Without the restriction on urls, distinct texts and urls can share a key. */
  lemma KeyCollision()
    ensures Key("a](b", "c") == Key("a", "b](c")
  {
  }
}
