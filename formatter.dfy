/** The report formatter: a top line, then one section per non-empty bucket in
    a fixed order, each a header followed by one line per key. Keys within a
    section come in an unspecified order, so the outline is stated against an
    arbitrary enumeration of each bucket. Tabs become four spaces at the end. */
module Formatter {
  import opened Buckets

  const TopLine: string := "* GitHub"

  function SectionHeader(name: string): string
  {
    "\t* " + name
  }

  function MemberLine(key: string): string
  {
    "\t\t* " + key
  }

  predicate Distinct<T(==)>(s: seq<T>)
  {
    forall i, j :: 0 <= i < j < |s| ==> s[i] != s[j]
  }

  /** `order` lists every element of `s` exactly once. */
  ghost predicate Enumerates(order: seq<string>, s: set<string>)
  {
    Distinct(order) && forall x :: x in order <==> x in s
  }

  /** An enumeration of a set is as long as the set is large. */
  lemma {:induction false} EnumerationSize(order: seq<string>, s: set<string>)
    requires Enumerates(order, s)
    ensures |order| == |s|
  {
    if order != [] {
      var n := |order|;
      var last := order[n - 1];
      var init := order[..n - 1];
      assert last !in init;
      forall x
        ensures x in init <==> x in s - {last}
      {
        if x in s - {last} {
          assert x in order;
          var i :| 0 <= i < n && order[i] == x;
          assert init[i] == x;
        }
      }
      assert Enumerates(init, s - {last});
      EnumerationSize(init, s - {last});
    } else {
      assert forall x :: x !in s;
      assert s == {};
    }
  }

  function MemberLines(order: seq<string>): seq<string>
  {
    seq(|order|, i requires 0 <= i < |order| => MemberLine(order[i]))
  }

  /** printSection's result for a bucket listed in the order `order`. */
  function Section(name: string, s: set<string>, order: seq<string>): seq<string>
  {
    if s == {} then [] else [SectionHeader(name)] + MemberLines(order)
  }

  /** One enumeration per bucket, in section order. */
  ghost predicate Enumerations(r: Report, orders: seq<seq<string>>)
  {
    |orders| == 6 && forall i :: 0 <= i < 6 ==> Enumerates(orders[i], r.Get(SectionOrder[i]))
  }

  /** The first `n` sections. */
  function Sections(r: Report, orders: seq<seq<string>>, n: nat): seq<string>
    requires n <= 6 && |orders| == 6
  {
    if n == 0 then []
    else Sections(r, orders, n - 1) + Section(Name(SectionOrder[n - 1]), r.Get(SectionOrder[n - 1]), orders[n - 1])
  }

  /** The lines of the report, before they are joined: the top line, then the
      six sections in section order. */
  function Outline(r: Report, orders: seq<seq<string>>): (o: seq<string>)
    requires |orders| == 6
    ensures |o| >= 1 && o[0] == TopLine
  {
    [TopLine] + Sections(r, orders, 6)
  }

  /** The number of lines a bucket contributes. */
  function SectionSize(s: set<string>): nat
  {
    if s == {} then 0 else |s| + 1
  }

  // ---- Telling lines apart ----

  lemma HeaderInjective(a: string, b: string)
    requires SectionHeader(a) == SectionHeader(b)
    ensures a == b
  {
    assert a == SectionHeader(a)[3..];
  }

  lemma MemberLineInjective(a: string, b: string)
    requires MemberLine(a) == MemberLine(b)
    ensures a == b
  {
    assert a == MemberLine(a)[4..];
  }

  /** Header lines, member lines and the top line never coincide. */
  lemma LinesDiffer(name: string, key: string)
    ensures SectionHeader(name) != MemberLine(key)
    ensures SectionHeader(name) != TopLine && MemberLine(key) != TopLine
  {
    assert SectionHeader(name)[1] == '*' && MemberLine(key)[1] == '\t';
    assert SectionHeader(name)[0] == '\t' && MemberLine(key)[0] == '\t' && TopLine[0] == '*';
  }

  // ---- What the outline holds ----

  /** A section is its header followed by one member line for each key of its
      bucket, each key once, and nothing for an empty bucket. */
  lemma SectionShape(name: string, s: set<string>, order: seq<string>)
    requires Enumerates(order, s)
    ensures |Section(name, s, order)| == SectionSize(s)
    ensures s != {} ==> Section(name, s, order)[0] == SectionHeader(name)
    ensures forall key :: MemberLine(key) in Section(name, s, order) <==> key in s
    ensures Distinct(Section(name, s, order))
  {
    EnumerationSize(order, s);
    forall key
      ensures MemberLine(key) in Section(name, s, order) <==> key in s
    {
      SectionMember(name, s, order, key);
    }
    SectionDistinct(name, s, order);
  }

  lemma SectionMember(name: string, s: set<string>, order: seq<string>, key: string)
    requires Enumerates(order, s)
    ensures MemberLine(key) in Section(name, s, order) <==> key in s
  {
    var sec := Section(name, s, order);
    LinesDiffer(name, key);
    if MemberLine(key) in sec {
      var j :| 0 <= j < |sec| && sec[j] == MemberLine(key);
      MemberLineInjective(order[j - 1], key);
    }
    if key in s {
      var j :| 0 <= j < |order| && order[j] == key;
      assert sec[j + 1] == MemberLine(key);
    }
  }

  lemma SectionDistinct(name: string, s: set<string>, order: seq<string>)
    requires Distinct(order)
    ensures Distinct(Section(name, s, order))
  {
    var sec := Section(name, s, order);
    forall i, j | 0 <= i < j < |sec|
      ensures sec[i] != sec[j]
    {
      if i == 0 {
        LinesDiffer(name, order[j - 1]);
      } else if sec[i] == sec[j] {
        MemberLineInjective(order[i - 1], order[j - 1]);
      }
    }
  }

  /** The header of section `i` is among the first `n` sections iff `i < n`
      and its bucket is non-empty. */
  lemma {:induction false} SectionsHeaders(r: Report, orders: seq<seq<string>>, n: nat, i: nat)
    requires n <= 6 && |orders| == 6 && i < 6
    ensures SectionHeader(Name(SectionOrder[i])) in Sections(r, orders, n)
            <==> i < n && r.Get(SectionOrder[i]) != {}
  {
    if n > 0 {
      SectionOrderCoversBuckets();
      SectionsHeaders(r, orders, n - 1, i);
      var name := Name(SectionOrder[n - 1]);
      var sec := Section(name, r.Get(SectionOrder[n - 1]), orders[n - 1]);
      assert Sections(r, orders, n) == Sections(r, orders, n - 1) + sec;
      SectionHeaderIn(Name(SectionOrder[i]), name, r.Get(SectionOrder[n - 1]), orders[n - 1]);
    }
  }

  /** A section holds a given header iff it is its own and its bucket is non-empty. */
  lemma SectionHeaderIn(name: string, own: string, s: set<string>, order: seq<string>)
    ensures SectionHeader(name) in Section(own, s, order) <==> name == own && s != {}
  {
    var sec := Section(own, s, order);
    if SectionHeader(name) in sec {
      var j :| 0 <= j < |sec| && sec[j] == SectionHeader(name);
      if j == 0 {
        HeaderInjective(name, own);
      } else {
        LinesDiffer(name, order[j - 1]);
      }
    }
    if name == own && s != {} {
      assert sec[0] == SectionHeader(name);
    }
  }

  /** A key's line is among the first `n` sections iff the key is in one of their buckets. */
  lemma {:induction false} SectionsMembers(r: Report, orders: seq<seq<string>>, n: nat, key: string)
    requires n <= 6 && Enumerations(r, orders)
    ensures MemberLine(key) in Sections(r, orders, n)
            <==> exists i :: 0 <= i < n && key in r.Get(SectionOrder[i])
  {
    if n > 0 {
      SectionsMembers(r, orders, n - 1, key);
      SectionShape(Name(SectionOrder[n - 1]), r.Get(SectionOrder[n - 1]), orders[n - 1]);
    }
  }

  function SizesUpTo(r: Report, n: nat): nat
    requires n <= 6
  {
    if n == 0 then 0 else SizesUpTo(r, n - 1) + SectionSize(r.Get(SectionOrder[n - 1]))
  }

  lemma {:induction false} SectionsLength(r: Report, orders: seq<seq<string>>, n: nat)
    requires n <= 6 && Enumerations(r, orders)
    ensures |Sections(r, orders, n)| == SizesUpTo(r, n)
  {
    if n > 0 {
      SectionsLength(r, orders, n - 1);
      SectionShape(Name(SectionOrder[n - 1]), r.Get(SectionOrder[n - 1]), orders[n - 1]);
    }
  }

  /** The outline is the top line followed by the six sections in order. */
  lemma OutlineInOrder(r: Report, orders: seq<seq<string>>,
                       m: seq<string>, a: seq<string>, u: seq<string>,
                       p: seq<string>, v: seq<string>, i: seq<string>)
    requires |orders| == 6
    requires m == Section("Merged", r.merged, orders[0])
    requires a == Section("Abandoned", r.abandoned, orders[1])
    requires u == Section("Under Review", r.underReview, orders[2])
    requires p == Section("In Progress", r.inProgress, orders[3])
    requires v == Section("Reviewed", r.reviewed, orders[4])
    requires i == Section("Issues", r.issues, orders[5])
    ensures Outline(r, orders) == [TopLine] + m + a + u + p + v + i
  {
    SixSections(r, orders, m, a, u, p, v, i);
    PrependToSix([TopLine], m, a, u, p, v, i);
  }

  lemma PrependToSix<T>(t: seq<T>, m: seq<T>, a: seq<T>, u: seq<T>, p: seq<T>, v: seq<T>, i: seq<T>)
    ensures t + (m + a + u + p + v + i) == t + m + a + u + p + v + i
  {
    var x2 := m + a;
    var x3 := x2 + u;
    var x4 := x3 + p;
    var x5 := x4 + v;
    assert t + (x2 + u) == (t + x2) + u;
    assert t + (x3 + p) == (t + x3) + p;
    assert t + (x4 + v) == (t + x4) + v;
    assert t + (x5 + i) == (t + x5) + i;
  }

  lemma SixSections(r: Report, orders: seq<seq<string>>,
                    m: seq<string>, a: seq<string>, u: seq<string>,
                    p: seq<string>, v: seq<string>, i: seq<string>)
    requires |orders| == 6
    requires m == Section("Merged", r.merged, orders[0])
    requires a == Section("Abandoned", r.abandoned, orders[1])
    requires u == Section("Under Review", r.underReview, orders[2])
    requires p == Section("In Progress", r.inProgress, orders[3])
    requires v == Section("Reviewed", r.reviewed, orders[4])
    requires i == Section("Issues", r.issues, orders[5])
    ensures Sections(r, orders, 6) == m + a + u + p + v + i
  {
    assert Sections(r, orders, 1) == m by {
      assert Sections(r, orders, 1) == [] + m;
    }
    assert Sections(r, orders, 2) == m + a;
    assert Sections(r, orders, 3) == m + a + u;
    assert Sections(r, orders, 4) == m + a + u + p;
    assert Sections(r, orders, 5) == m + a + u + p + v;
  }

  /** The outline starts with the top line, and a section header appears in it
      iff its bucket is non-empty. */
  lemma OutlineHeaders(r: Report, orders: seq<seq<string>>, b: Bucket)
    requires |orders| == 6
    ensures Outline(r, orders)[0] == TopLine
    ensures SectionHeader(Name(b)) in Outline(r, orders) <==> r.Get(b) != {}
  {
    SectionOrderCoversBuckets();
    assert b in SectionOrder;
    var i :| 0 <= i < 6 && SectionOrder[i] == b;
    SectionsHeaders(r, orders, 6, i);
    LinesDiffer(Name(b), "");
  }

  /** A key's line appears in the outline iff the key is in some bucket. */
  lemma OutlineMembers(r: Report, orders: seq<seq<string>>, key: string)
    requires Enumerations(r, orders)
    ensures MemberLine(key) in Outline(r, orders) <==> exists b :: key in r.Get(b)
  {
    SectionsMembers(r, orders, 6, key);
    LinesDiffer("", key);
    if exists b :: key in r.Get(b) {
      var b :| key in r.Get(b);
      SectionOrderCoversBuckets();
      assert b in SectionOrder;
      var i :| 0 <= i < 6 && SectionOrder[i] == b;
      assert key in r.Get(SectionOrder[i]);
    }
  }

  /** The outline has the top line plus, for each non-empty bucket, its header
      and one line per key. */
  lemma OutlineLength(r: Report, orders: seq<seq<string>>)
    requires Enumerations(r, orders)
    ensures |Outline(r, orders)|
            == 1 + SectionSize(r.merged) + SectionSize(r.abandoned) + SectionSize(r.underReview)
               + SectionSize(r.inProgress) + SectionSize(r.reviewed) + SectionSize(r.issues)
  {
    SectionsLength(r, orders, 6);
    assert SizesUpTo(r, 1) == SectionSize(r.merged);
    assert SizesUpTo(r, 2) == SizesUpTo(r, 1) + SectionSize(r.abandoned);
    assert SizesUpTo(r, 3) == SizesUpTo(r, 2) + SectionSize(r.underReview);
    assert SizesUpTo(r, 4) == SizesUpTo(r, 3) + SectionSize(r.inProgress);
    assert SizesUpTo(r, 5) == SizesUpTo(r, 4) + SectionSize(r.reviewed);
    assert SizesUpTo(r, 6) == SizesUpTo(r, 5) + SectionSize(r.issues);
  }

  /** With every bucket empty, the outline is the top line alone. */
  lemma EmptyOutline(orders: seq<seq<string>>)
    requires Enumerations(Empty, orders)
    ensures Outline(Empty, orders) == [TopLine]
  {
    OutlineLength(Empty, orders);
  }

  // ---- Joining lines and expanding tabs ----

  /** The total length of some pieces. */
  function TotalLength(ls: seq<string>): nat
  {
    if ls == [] then 0 else TotalLength(ls[..|ls| - 1]) + |ls[|ls| - 1]|
  }

  /** strings.Join: the pieces with `sep` between neighbours, so one separator
      fewer than there are pieces. */
  function Join(ls: seq<string>, sep: string): (r: string)
    ensures ls != [] ==> |r| == TotalLength(ls) + (|ls| - 1) * |sep|
  {
    if ls == [] then ""
    else if |ls| == 1 then ls[0]
    else Join(ls[..|ls| - 1], sep) + sep + ls[|ls| - 1]
  }

  /** Every tab replaced by four spaces. The result holds no tab. */
  function ExpandTabs(s: string): (r: string)
    ensures '\t' !in r
  {
    if s == [] then []
    else (if s[0] == '\t' then "    " else [s[0]]) + ExpandTabs(s[1..])
  }

  lemma {:induction false} ExpandTabsAppend(a: string, b: string)
    ensures ExpandTabs(a + b) == ExpandTabs(a) + ExpandTabs(b)
  {
    if a != [] {
      assert (a + b)[1..] == a[1..] + b;
      ExpandTabsAppend(a[1..], b);
    } else {
      assert a + b == b;
    }
  }

  /** A string without tabs is left as it is. */
  lemma {:induction false} ExpandTabsNoTab(s: string)
    requires '\t' !in s
    ensures ExpandTabs(s) == s
  {
    if s != [] {
      ExpandTabsNoTab(s[1..]);
    }
  }

  function ExpandAll(ls: seq<string>): seq<string>
  {
    seq(|ls|, i requires 0 <= i < |ls| => ExpandTabs(ls[i]))
  }

  /** Expanding tabs in the joined text is the same as expanding them line by
      line: the newline separator holds no tab. */
  lemma {:induction false} ExpandTabsJoin(ls: seq<string>)
    ensures ExpandTabs(Join(ls, "\n")) == Join(ExpandAll(ls), "\n")
  {
    if |ls| > 1 {
      var init := ls[..|ls| - 1];
      ExpandTabsJoin(init);
      ExpandTabsAppend(Join(init, "\n") + "\n", ls[|ls| - 1]);
      ExpandTabsAppend(Join(init, "\n"), "\n");
      ExpandTabsNoTab("\n");
      assert ExpandAll(ls)[..|ls| - 1] == ExpandAll(init);
    }
  }

  /** The top line holds no tab and is printed as it is. */
  lemma ExpandedTopLine()
    ensures ExpandTabs(TopLine) == TopLine
  {
    ExpandTabsNoTab(TopLine);
  }

  /** After expansion a header is indented by four spaces and a member line by eight. */
  lemma ExpandedLines(name: string, key: string)
    ensures ExpandTabs(SectionHeader(name)) == "    * " + ExpandTabs(name)
    ensures ExpandTabs(MemberLine(key)) == "        * " + ExpandTabs(key)
  {
    ExpandedIndent();
    ExpandTabsAppend("\t* ", name);
    ExpandTabsAppend("\t\t* ", key);
  }

  lemma ExpandedIndent()
    ensures ExpandTabs("\t* ") == "    * "
    ensures ExpandTabs("\t\t* ") == "        * "
  {
    assert ExpandTabs("\t") == "    " by {
      assert "\t"[1..] == [];
    }
    assert ExpandTabs("* ") == "* " by {
      ExpandTabsNoTab("* ");
    }
    ExpandTabsAppend("\t", "* ");
    assert "\t" + "* " == "\t* ";
    ExpandTabsAppend("\t", "\t* ");
    assert "\t" + "\t* " == "\t\t* ";
  }

  /** The text of a report: the lines joined by newlines, tabs expanded. */
  function Render(lines: seq<string>): string
  {
    ExpandTabs(Join(lines, "\n"))
  }

  /** A join starts with its first piece. */
  lemma {:induction false} JoinStartsWithFirst(ls: seq<string>, sep: string)
    requires ls != []
    ensures |Join(ls, sep)| >= |ls[0]| && Join(ls, sep)[..|ls[0]|] == ls[0]
  {
    if |ls| > 1 {
      var init := ls[..|ls| - 1];
      JoinStartsWithFirst(init, sep);
      assert init[0] == ls[0];
      var j := Join(init, sep);
      assert Join(ls, sep) == j + (sep + ls[|ls| - 1]);
      assert (j + (sep + ls[|ls| - 1]))[..|ls[0]|] == j[..|ls[0]|];
    }
  }

  /** The rendered text of an outline starts with the top line, and is the top
      line alone when every bucket is empty. */
  lemma RenderedOutlineStart(r: Report, orders: seq<seq<string>>)
    requires Enumerations(r, orders)
    ensures |Render(Outline(r, orders))| >= |TopLine|
    ensures Render(Outline(r, orders))[..|TopLine|] == TopLine
    ensures r == Empty ==> Render(Outline(r, orders)) == TopLine
  {
    var lines := Outline(r, orders);
    var joined := Join(lines, "\n");
    JoinStartsWithFirst(lines, "\n");
    var rest := joined[|TopLine|..];
    assert joined == TopLine + rest;
    ExpandTabsAppend(TopLine, rest);
    ExpandedTopLine();
    if r == Empty {
      EmptyOutline(orders);
      assert joined == TopLine;
    }
  }

  /** printSection: nothing for an empty bucket; otherwise the header, then one
      line per key in whatever order the set yields them. */
  method PrintSection(section: set<string>, title: string) returns (md: seq<string>, ghost order: seq<string>)
    ensures Enumerates(order, section)
    ensures md == Section(title, section, order)
    ensures |md| == SectionSize(section)
  {
    if |section| > 0 {
      md := [SectionHeader(title)];
      order := [];
      var rest := section;
      while rest != {}
        invariant rest <= section
        invariant Distinct(order)
        invariant forall x :: x in order <==> x in section && x !in rest
        invariant md == [SectionHeader(title)] + MemberLines(order)
        decreases rest
      {
        var pr :| pr in rest;
        md := md + [MemberLine(pr)];
        order := order + [pr];
        rest := rest - {pr};
      }
      EnumerationSize(order, section);
    } else {
      md := [];
      order := [];
    }
  }
}
