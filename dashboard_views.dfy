/** The views the dashboard derives from one audit result (frontend/src/Dashboard.js):
    severity ranking, severity distribution, category grouping with each
    group's highest severity, the letter grade and the badge, the two chart
    projections, the disclosure toggles, the scan-step display and the input
    and plan checks. */
module DashboardViews {
  import opened Wrappers
  import opened Text
  import opened Tally
  import opened AuditModel

  // ---------------------------------------------------------------------
  // Severity ranking (SEVERITY_RANK)

  const SeverityRanks: map<string, nat> :=
    map["Critical" := 5, "High" := 4, "Medium" := 3, "Low" := 2, "Info" := 1]

  /** `SEVERITY_RANK[severity] || 0`: the rank of a label, 0 for a label the
      table does not list. */
  function SeverityRank(severity: string): (r: nat)
    ensures r <= 5
    ensures r == 0 <==> severity !in SeverityRanks
  {
    if severity in SeverityRanks then SeverityRanks[severity] else 0
  }

  /** The table is a strict total order on the five levels, above every
      unlisted label. */
  lemma SeverityRankOrder(unknown: string)
    requires unknown !in SeverityRanks
    ensures SeverityRank("Critical") > SeverityRank("High") > SeverityRank("Medium")
      > SeverityRank("Low") > SeverityRank("Info") > SeverityRank(unknown) == 0
  {
  }

  // ---------------------------------------------------------------------
  // Severity distribution (getSeverityDistribution) and its display order

  /** Counts the findings per severity label, keys in first-seen order. */
  method SeverityDistribution(vs: seq<Vuln>) returns (dist: seq<Entry>)
    ensures dist == Tallied(Severities(vs))
    ensures Total(dist) == |vs|
    ensures forall i :: 0 <= i < |dist| ==> dist[i].count > 0
    ensures forall sev :: (exists i :: 0 <= i < |dist| && dist[i].key == sev) <==> sev in Severities(vs)
  {
    dist := CountLabels(Severities(vs));
    TalliedTotal(Severities(vs));
    TalliedEntries(Severities(vs));
    forall sev ensures (exists i :: 0 <= i < |dist| && dist[i].key == sev) <==> sev in Severities(vs) {
      TalliedKeys(Severities(vs), sev);
    }
  }

  /** The rows of the severity summary: the distribution sorted by rank,
      highest first (`Object.entries(...).sort(...)`). */
  method SeverityRows(vs: seq<Vuln>) returns (rows: seq<Entry>)
    ensures SortedByRank(rows, SeverityRank)
    ensures multiset(rows) == multiset(Tallied(Severities(vs)))
    ensures Total(rows) == |vs|
  {
    var dist := SeverityDistribution(vs);
    rows := SortByRank(dist, SeverityRank);
    SortByRankTotal(dist, SeverityRank);
  }

  // ---------------------------------------------------------------------
  // Category grouping (groupVulnerabilities)

  /** `vuln.category || 'Other Security Issues'`. */
  function CategoryOf(v: Vuln): (c: string)
    ensures c != []
    ensures v.category.Some? && v.category.value != [] ==> c == v.category.value
    ensures (v.category.None? || v.category.value == []) ==> c == OtherCategory
  {
    if v.category.Some? && v.category.value != [] then v.category.value else OtherCategory
  }

  function Categories(vs: seq<Vuln>): seq<string>
  {
    seq(|vs|, i requires 0 <= i < |vs| => CategoryOf(vs[i]))
  }

  /** One group of the grouped view. */
  datatype Group = Group(category: string, vulns: seq<Vuln>)

  /** The findings of `vs` whose category is `c`, in their original order. */
  function Members(vs: seq<Vuln>, c: string): seq<Vuln>
    decreases |vs|
  {
    if vs == [] then []
    else Members(vs[..|vs| - 1], c) + (if CategoryOf(vs[|vs| - 1]) == c then [vs[|vs| - 1]] else [])
  }

  lemma MembersSnoc(vs: seq<Vuln>, v: Vuln, c: string)
    ensures Members(vs + [v], c) == Members(vs, c) + (if CategoryOf(v) == c then [v] else [])
  {
    assert (vs + [v])[..|vs|] == vs;
  }

  /** A group holds as many findings as there are findings of its category,
      and holds exactly the findings of that category. */
  lemma MembersOfCategory(vs: seq<Vuln>, c: string)
    ensures |Members(vs, c)| == Occurrences(Categories(vs), c)
    ensures forall v :: v in Members(vs, c) <==> v in vs && CategoryOf(v) == c
  {
    MembersCount(vs, c);
    MembersExact(vs, c);
  }

  lemma CategoriesSnoc(vs: seq<Vuln>)
    requires vs != []
    ensures Categories(vs) == Categories(vs[..|vs| - 1]) + [CategoryOf(vs[|vs| - 1])]
  {
  }

  lemma {:induction false} MembersCount(vs: seq<Vuln>, c: string)
    ensures |Members(vs, c)| == Occurrences(Categories(vs), c)
    decreases |vs|
  {
    if vs != [] {
      var n := |vs| - 1;
      MembersCount(vs[..n], c);
      CategoriesSnoc(vs);
      var cs := Categories(vs[..n]);
      OccurrencesSnoc(cs, CategoryOf(vs[n]), c);
    }
  }

  lemma {:induction false} MembersExact(vs: seq<Vuln>, c: string)
    ensures forall v :: v in Members(vs, c) <==> v in vs && CategoryOf(v) == c
    decreases |vs|
  {
    if vs != [] {
      var n := |vs| - 1;
      MembersExact(vs[..n], c);
      assert vs == vs[..n] + [vs[n]];
    }
  }

  /** The positions of the findings whose category is `c`, ascending. */
  function MemberIndices(vs: seq<Vuln>, c: string): seq<nat>
    decreases |vs|
  {
    if vs == [] then []
    else MemberIndices(vs[..|vs| - 1], c) + (if CategoryOf(vs[|vs| - 1]) == c then [|vs| - 1] else [])
  }

  lemma {:induction false} MemberIndicesExact(vs: seq<Vuln>, c: string)
    ensures forall i: nat :: i in MemberIndices(vs, c) <==> i < |vs| && CategoryOf(vs[i]) == c
    decreases |vs|
  {
    if vs != [] {
      MemberIndicesExact(vs[..|vs| - 1], c);
    }
  }

  /** A group's findings are the findings at the ascending positions of its
      category, so they keep their original order. */
  lemma {:induction false} MembersInOrder(vs: seq<Vuln>, c: string)
    ensures SubsequenceVia(Members(vs, c), vs, MemberIndices(vs, c))
    decreases |vs|
  {
    if vs != [] {
      var n := |vs| - 1;
      MembersInOrder(vs[..n], c);
      assert vs[..n + 1] == vs;
      SubsequenceExtend(Members(vs[..n], c), vs, MemberIndices(vs[..n], c), n, CategoryOf(vs[n]) == c);
    }
  }

  function GroupsFor(keys: seq<string>, vs: seq<Vuln>): seq<Group>
    decreases |keys|
  {
    if keys == [] then []
    else GroupsFor(keys[..|keys| - 1], vs) + [Group(keys[|keys| - 1], Members(vs, keys[|keys| - 1]))]
  }

  lemma {:induction false} GroupsForEntries(keys: seq<string>, vs: seq<Vuln>)
    ensures |GroupsFor(keys, vs)| == |keys|
    ensures forall i :: 0 <= i < |keys| ==> GroupsFor(keys, vs)[i] == Group(keys[i], Members(vs, keys[i]))
    decreases |keys|
  {
    if keys != [] {
      GroupsForEntries(keys[..|keys| - 1], vs);
    }
  }

  /** The grouped view: one group per category, in first-seen order, each
      holding that category's findings in their original order. */
  function Grouped(vs: seq<Vuln>): seq<Group>
  {
    GroupsFor(FirstSeen(Categories(vs)), vs)
  }

  /** A finding whose category already has a group is appended to it. */
  lemma GroupedSnocExisting(vs: seq<Vuln>, v: Vuln, j: nat)
    requires j < |Grouped(vs)| && Grouped(vs)[j].category == CategoryOf(v)
    ensures Grouped(vs + [v]) == Grouped(vs)[j := Group(CategoryOf(v), Grouped(vs)[j].vulns + [v])]
  {
    var keys, c := FirstSeen(Categories(vs)), CategoryOf(v);
    GroupsForEntries(keys, vs);
    GroupsForEntries(keys, vs + [v]);
    var cs' := Categories(vs + [v]);
    assert cs' == Categories(vs) + [c];
    assert cs'[..|cs'| - 1] == Categories(vs);
    assert c in keys by { assert keys[j] == c; }
    assert FirstSeen(cs') == keys;
    var g, g' := GroupsFor(keys, vs), GroupsFor(keys, vs + [v]);
    forall i | 0 <= i < |g| ensures g'[i] == g[j := Group(c, g[j].vulns + [v])][i] {
      MembersSnoc(vs, v, keys[i]);
    }
  }

  /** Findings whose category is not among `keys` leave those groups as they are. */
  lemma {:induction false} GroupsForOtherCategory(keys: seq<string>, vs: seq<Vuln>, v: Vuln)
    requires CategoryOf(v) !in keys
    ensures GroupsFor(keys, vs + [v]) == GroupsFor(keys, vs)
    decreases |keys|
  {
    if keys != [] {
      var n := |keys| - 1;
      assert keys == keys[..n] + [keys[n]];
      assert CategoryOf(v) !in keys[..n];
      GroupsForOtherCategory(keys[..n], vs, v);
      MembersSnoc(vs, v, keys[n]);
      assert Members(vs + [v], keys[n]) == Members(vs, keys[n]);
    }
  }

  lemma GroupsForSnocKey(keys: seq<string>, c: string, vs: seq<Vuln>)
    ensures GroupsFor(keys + [c], vs) == GroupsFor(keys, vs) + [Group(c, Members(vs, c))]
  {
    assert (keys + [c])[..|keys|] == keys;
  }

  /** A finding with a new category opens a new group at the end. */
  lemma GroupedSnocNew(vs: seq<Vuln>, v: Vuln)
    requires forall j :: 0 <= j < |Grouped(vs)| ==> Grouped(vs)[j].category != CategoryOf(v)
    ensures Grouped(vs + [v]) == Grouped(vs) + [Group(CategoryOf(v), [v])]
  {
    var keys, c := FirstSeen(Categories(vs)), CategoryOf(v);
    assert c !in keys by {
      GroupsForEntries(keys, vs);
      forall j | 0 <= j < |keys| ensures keys[j] != c {
        assert Grouped(vs)[j].category == keys[j];
      }
    }
    assert Members(vs + [v], c) == [v] by {
      MembersSnoc(vs, v, c);
      MembersOfCategory(vs, c);
      assert c !in Categories(vs);
    }
    assert Categories(vs + [v]) == Categories(vs) + [c];
    FirstSeenSnoc(Categories(vs), c);
    GroupsForOtherCategory(keys, vs, v);
    GroupsForSnocKey(keys, c, vs + [v]);
  }

  /** Index of the group for category `c`, or `|groups|` when there is none. */
  method FindGroup(groups: seq<Group>, c: string) returns (j: nat)
    ensures j <= |groups|
    ensures j < |groups| ==> groups[j].category == c
    ensures j == |groups| ==> forall k :: 0 <= k < |groups| ==> groups[k].category != c
  {
    j := 0;
    while j < |groups| && groups[j].category != c
      invariant j <= |groups|
      invariant forall k :: 0 <= k < j ==> groups[k].category != c
    {
      j := j + 1;
    }
  }

  /** Groups the findings by category, pushing each onto its group. */
  method GroupVulnerabilities(vs: seq<Vuln>) returns (groups: seq<Group>)
    ensures groups == Grouped(vs)
  {
    groups := [];
    for i := 0 to |vs|
      invariant groups == Grouped(vs[..i])
    {
      var v := vs[i];
      var c := CategoryOf(v);
      var j := FindGroup(groups, c);
      assert vs[..i + 1] == vs[..i] + [v];
      if j < |groups| {
        GroupedSnocExisting(vs[..i], v, j);
        groups := groups[j := Group(c, groups[j].vulns + [v])];
      } else {
        GroupedSnocNew(vs[..i], v);
        groups := groups + [Group(c, [v])];
      }
    }
    assert vs[..|vs|] == vs;
  }

  /** Number of findings over all groups. */
  function GroupSizes(g: seq<Group>): nat
    decreases |g|
  {
    if g == [] then 0 else GroupSizes(g[..|g| - 1]) + |g[|g| - 1].vulns|
  }

  lemma {:induction false} GroupSizesFor(keys: seq<string>, vs: seq<Vuln>)
    ensures GroupSizes(GroupsFor(keys, vs)) == Total(Counted(keys, Categories(vs)))
    decreases |keys|
  {
    if keys != [] {
      var n := |keys| - 1;
      GroupSizesFor(keys[..n], vs);
      var g := GroupsFor(keys, vs);
      assert g[..|g| - 1] == GroupsFor(keys[..n], vs);
      MembersOfCategory(vs, keys[n]);
      var t := Counted(keys, Categories(vs));
      assert t[..|t| - 1] == Counted(keys[..n], Categories(vs));
    }
  }

  /** The grouping partitions the findings: the groups have distinct
      categories, a group holds exactly the findings of its category in
      their original order, every finding has a group, and the group sizes
      add up to the number of findings. */
  lemma GroupedPartitions(vs: seq<Vuln>)
    ensures var g := Grouped(vs);
      && (forall i, j :: 0 <= i < j < |g| ==> g[i].category != g[j].category)
      && (forall i, v :: 0 <= i < |g| ==> (v in g[i].vulns <==> v in vs && CategoryOf(v) == g[i].category))
      && (forall i :: 0 <= i < |g| ==> SubsequenceVia(g[i].vulns, vs, MemberIndices(vs, g[i].category)))
      && (forall v :: v in vs ==> exists i :: 0 <= i < |g| && g[i].category == CategoryOf(v))
      && GroupSizes(g) == |vs|
  {
    var g, keys := Grouped(vs), FirstSeen(Categories(vs));
    GroupsForEntries(keys, vs);
    forall i | 0 <= i < |g|
      ensures forall v :: v in g[i].vulns <==> v in vs && CategoryOf(v) == g[i].category
      ensures SubsequenceVia(g[i].vulns, vs, MemberIndices(vs, g[i].category))
    {
      MembersOfCategory(vs, keys[i]);
      MembersInOrder(vs, keys[i]);
    }
    GroupedCovers(vs);
    GroupSizesFor(keys, vs);
    TotalCountedCovers(keys, Categories(vs));
  }

  /** Every finding has the group of its category. */
  lemma GroupedCovers(vs: seq<Vuln>)
    ensures var g := Grouped(vs);
      forall v :: v in vs ==> exists i :: 0 <= i < |g| && g[i].category == CategoryOf(v)
  {
    var g, keys := Grouped(vs), FirstSeen(Categories(vs));
    GroupsForEntries(keys, vs);
    forall v | v in vs ensures exists i :: 0 <= i < |g| && g[i].category == CategoryOf(v) {
      var n :| 0 <= n < |vs| && vs[n] == v;
      assert CategoryOf(v) in Categories(vs) by { assert Categories(vs)[n] == CategoryOf(v); }
      var i :| 0 <= i < |keys| && keys[i] == CategoryOf(v);
      assert g[i].category == CategoryOf(v);
    }
  }

  /** Grouping no findings gives no groups. */
  lemma GroupedEmpty()
    ensures Grouped([]) == []
  {
  }

  // ---------------------------------------------------------------------
  // Highest severity of a group (getGroupSeverity)

  /** `group[i]` has the highest rank in the group, and no earlier finding
      has that rank. */
  ghost predicate FirstHighest(group: seq<Vuln>, i: nat)
  {
    && i < |group|
    && (forall j :: 0 <= j < |group| ==> SeverityRank(group[j].severity) <= SeverityRank(group[i].severity))
    && (forall j :: 0 <= j < i ==> SeverityRank(group[j].severity) < SeverityRank(group[i].severity))
  }

  /** The badge label of a group: the severity of the first finding of
      highest rank, or "Info" when no finding has a listed severity
      (including the empty group). */
  method GroupSeverity(group: seq<Vuln>) returns (sev: string)
    ensures (forall j :: 0 <= j < |group| ==> SeverityRank(group[j].severity) == 0) ==> sev == "Info"
    ensures (exists j :: 0 <= j < |group| && SeverityRank(group[j].severity) > 0) ==>
      exists i: nat :: FirstHighest(group, i) && sev == group[i].severity
  {
    sev := "Info";
    var highest: nat := 0;
    ghost var at: nat := 0;
    for k := 0 to |group|
      invariant highest == 0 ==> sev == "Info" && forall j :: 0 <= j < k ==> SeverityRank(group[j].severity) == 0
      invariant highest > 0 ==> at < k && sev == group[at].severity && highest == SeverityRank(sev)
      invariant highest > 0 ==> forall j :: 0 <= j < k ==> SeverityRank(group[j].severity) <= highest
      invariant highest > 0 ==> forall j :: 0 <= j < at ==> SeverityRank(group[j].severity) < highest
    {
      var rank := SeverityRank(group[k].severity);
      if rank > highest {
        sev, highest, at := group[k].severity, rank, k;
      }
    }
    if highest > 0 {
      assert FirstHighest(group, at);
    }
  }

  // ---------------------------------------------------------------------
  // Letter grade (getRiskGrade) and security-score badge

  datatype Grade = Grade(letter: char, status: string)

  /** The letter grade of a security score. */
  function RiskGrade(score: int): (g: Grade)
    ensures g.letter in "ABCDF"
    ensures g.status == "Secure" <==> g.letter == 'A'
    ensures g.status == "Good" <==> g.letter == 'B'
    ensures g.status == "Fix Required" <==> g.letter in "CDF"
  {
    if score >= 90 then Grade('A', "Secure")
    else if score >= 75 then Grade('B', "Good")
    else if score >= 60 then Grade('C', "Fix Required")
    else if score >= 40 then Grade('D', "Fix Required")
    else Grade('F', "Fix Required")
  }

  /** Position of a letter on the ladder, A highest. */
  function GradeLevel(letter: char): nat
  {
    if letter == 'A' then 4 else if letter == 'B' then 3 else if letter == 'C' then 2
    else if letter == 'D' then 1 else 0
  }

  /** A higher score never gets a worse grade; the grade is "Fix Required"
      exactly below 75. */
  lemma RiskGradeMonotone(low: int, high: int)
    requires low <= high
    ensures GradeLevel(RiskGrade(low).letter) <= GradeLevel(RiskGrade(high).letter)
    ensures RiskGrade(low).status == "Fix Required" <==> low < 75
  {
  }

  /** The thresholds: 90 is A, 89 is B, 59 is D and 0 is F. */
  lemma RiskGradeBoundaries()
    ensures RiskGrade(90) == Grade('A', "Secure") && RiskGrade(89) == Grade('B', "Good")
    ensures RiskGrade(75).letter == 'B' && RiskGrade(74).letter == 'C'
    ensures RiskGrade(60).letter == 'C' && RiskGrade(59).letter == 'D'
    ensures RiskGrade(40).letter == 'D' && RiskGrade(39).letter == 'F' && RiskGrade(0).letter == 'F'
  {
  }

  datatype Badge = GoodBadge | FairBadge | AtRiskBadge

  /** The badge beside the security score. */
  function ScoreBadge(score: int): (b: Badge)
    ensures b == GoodBadge <==> score >= 80
    ensures b == AtRiskBadge <==> score < 60
  {
    if score >= 80 then GoodBadge else if score >= 60 then FairBadge else AtRiskBadge
  }

  /** The two ladders are separate: they agree at the ends but not in
      between (75..79 is grade B "Good" with a "Fair" badge; 60..74 is
      "Fix Required" with a "Fair" badge). */
  lemma LaddersDiffer(score: int)
    ensures ScoreBadge(score) == GoodBadge ==> RiskGrade(score).letter in "AB"
    ensures ScoreBadge(score) == AtRiskBadge ==> RiskGrade(score).letter in "DF"
    ensures 75 <= score < 80 ==> RiskGrade(score).status == "Good" && ScoreBadge(score) == FairBadge
    ensures 60 <= score < 75 ==> RiskGrade(score).status == "Fix Required" && ScoreBadge(score) == FairBadge
  {
  }

  // ---------------------------------------------------------------------
  // Chart projections (chartData)

  datatype ChartView = FinancialView | SeverityView

  datatype Slice = Slice(name: string, value: int, fill: string)

  /** The four financial slices, always all four. */
  function FinancialSlices(b: Breakdown): seq<Slice>
  {
    [ Slice("Fix Costs", b.fixCost, "#3b82f6"),
      Slice("Downtime", b.downtime, "#ef4444"),
      Slice("Legal/Fines", b.regulatoryFines, "#f59e0b"),
      Slice("Reputation", b.reputation, "#8b5cf6") ]
  }

  const SeverityOrder: seq<string> := ["Critical", "High", "Medium", "Low", "Info"]
  const SeverityFills: seq<string> := ["#ef4444", "#f97316", "#eab308", "#3b82f6", "#6b7280"]

  /** One slice per name, valued by how many findings carry that severity. */
  function CountSlices(names: seq<string>, fills: seq<string>, vs: seq<Vuln>): seq<Slice>
    requires |fills| == |names|
    decreases |names|
  {
    if names == [] then []
    else
      var n := |names| - 1;
      CountSlices(names[..n], fills[..n], vs) + [Slice(names[n], Occurrences(Severities(vs), names[n]), fills[n])]
  }

  lemma {:induction false} CountSlicesEntries(names: seq<string>, fills: seq<string>, vs: seq<Vuln>)
    requires |fills| == |names|
    ensures |CountSlices(names, fills, vs)| == |names|
    ensures forall i :: 0 <= i < |names| ==>
      CountSlices(names, fills, vs)[i] == Slice(names[i], Occurrences(Severities(vs), names[i]), fills[i])
    decreases |names|
  {
    if names != [] {
      var n := |names| - 1;
      CountSlicesEntries(names[..n], fills[..n], vs);
    }
  }

  /** The slices with a positive value, in order (`.filter(item => item.value > 0)`). */
  function PositiveOnly(s: seq<Slice>): seq<Slice>
    decreases |s|
  {
    if s == [] then []
    else PositiveOnly(s[..|s| - 1]) + (if s[|s| - 1].value > 0 then [s[|s| - 1]] else [])
  }

  lemma {:induction false} PositiveOnlyMembers(s: seq<Slice>)
    ensures forall x :: x in PositiveOnly(s) <==> x in s && x.value > 0
    decreases |s|
  {
    if s != [] {
      var n := |s| - 1;
      PositiveOnlyMembers(s[..n]);
      assert s == s[..n] + [s[n]];
    }
  }

  /** The chart series for the current view; none without a result. */
  function ChartData(result: Option<AuditResult>, view: ChartView): (r: seq<Slice>)
    ensures result.None? ==> r == []
    ensures result.Some? && view == FinancialView ==>
      var b := result.value.detailedImpact.breakdown;
      && |r| == 4
      && r[0].value == b.fixCost && r[1].value == b.downtime
      && r[2].value == b.regulatoryFines && r[3].value == b.reputation
  {
    match result
    case None => []
    case Some(res) =>
      if view == FinancialView then FinancialSlices(res.detailedImpact.breakdown)
      else PositiveOnly(CountSlices(SeverityOrder, SeverityFills, res.vulnerabilities))
  }

  /** The severity chart holds one slice per level with at least one finding,
      named and coloured after that level and valued by its count, and
      nothing else. */
  lemma SeverityChartSlices(result: AuditResult)
    ensures forall x :: x in ChartData(Some(result), SeverityView) <==>
      x.value > 0 && exists i :: 0 <= i < 5 && x == Slice(SeverityOrder[i],
        Occurrences(Severities(result.vulnerabilities), SeverityOrder[i]), SeverityFills[i])
  {
    var all := CountSlices(SeverityOrder, SeverityFills, result.vulnerabilities);
    CountSlicesEntries(SeverityOrder, SeverityFills, result.vulnerabilities);
    PositiveOnlyMembers(all);
  }

  /** Slices ordered by strictly decreasing severity rank: so in the order
      Critical, High, Medium, Low, Info, and no level twice. */
  predicate RankDescending(s: seq<Slice>)
  {
    forall j, k :: 0 <= j < k < |s| ==> SeverityRank(s[j].name) > SeverityRank(s[k].name)
  }

  /** Dropping slices keeps the rank order of those that remain. */
  lemma {:induction false} PositiveOnlyDescending(s: seq<Slice>)
    requires RankDescending(s)
    ensures RankDescending(PositiveOnly(s))
    decreases |s|
  {
    if s != [] {
      var n := |s| - 1;
      PositiveOnlyDescending(s[..n]);
      PositiveOnlyMembers(s[..n]);
      var p := PositiveOnly(s[..n]);
      if s[n].value > 0 {
        forall j | 0 <= j < |p|
          ensures SeverityRank(p[j].name) > SeverityRank(s[n].name)
        {
          assert p[j] in s[..n];
          var i :| 0 <= i < n && s[..n][i] == p[j];
          assert s[i] == p[j];
        }
      } else {
        assert PositiveOnly(s) == p;
      }
    }
  }

  /** The severity chart lists its slices from Critical down to Info, each
      level at most once; with `SeverityChartSlices` this fixes the chart
      as the in-order subsequence of the five series with a positive
      count. */
  lemma SeverityChartOrdered(result: AuditResult)
    ensures RankDescending(ChartData(Some(result), SeverityView))
  {
    var all := CountSlices(SeverityOrder, SeverityFills, result.vulnerabilities);
    CountSlicesEntries(SeverityOrder, SeverityFills, result.vulnerabilities);
    assert forall i :: 0 <= i < 5 ==> SeverityRank(all[i].name) == 5 - i;
    PositiveOnlyDescending(all);
  }

  /** Sum of slice values. */
  function SliceSum(s: seq<Slice>): int
    decreases |s|
  {
    if s == [] then 0 else SliceSum(s[..|s| - 1]) + s[|s| - 1].value
  }

  lemma {:induction false} PositiveOnlySum(s: seq<Slice>)
    requires forall i :: 0 <= i < |s| ==> s[i].value >= 0
    ensures SliceSum(PositiveOnly(s)) == SliceSum(s)
    decreases |s|
  {
    if s != [] {
      var n := |s| - 1;
      PositiveOnlySum(s[..n]);
      var p := PositiveOnly(s[..n]);
      if s[n].value > 0 {
        assert (p + [s[n]])[..|p|] == p;
      } else {
        assert p + [] == p;
      }
    }
  }

  lemma {:induction false} CountSlicesSum(names: seq<string>, fills: seq<string>, vs: seq<Vuln>)
    requires |fills| == |names|
    ensures SliceSum(CountSlices(names, fills, vs)) == Total(Counted(names, Severities(vs)))
    decreases |names|
  {
    if names != [] {
      var n := |names| - 1;
      CountSlicesSum(names[..n], fills[..n], vs);
      var prev := CountSlices(names[..n], fills[..n], vs);
      var last := Slice(names[n], Occurrences(Severities(vs), names[n]), fills[n]);
      assert (prev + [last])[..|prev|] == prev;
      var t := Counted(names, Severities(vs));
      assert t[..n] == Counted(names[..n], Severities(vs));
    }
  }

  lemma SeverityOrderDistinct()
    ensures Distinct(SeverityOrder)
  {
  }

  /** When every finding carries one of the five listed severities, the
      severity chart's slices add up to the number of findings: dropping the
      empty slices loses nothing. */
  lemma SeverityChartCoversAll(result: AuditResult)
    requires forall v :: v in result.vulnerabilities ==> v.severity in SeverityOrder
    ensures SliceSum(ChartData(Some(result), SeverityView)) == |result.vulnerabilities|
  {
    var vs := result.vulnerabilities;
    var all := CountSlices(SeverityOrder, SeverityFills, vs);
    assert forall i :: 0 <= i < |all| ==> all[i].value >= 0 by {
      CountSlicesEntries(SeverityOrder, SeverityFills, vs);
    }
    PositiveOnlySum(all);
    CountSlicesSum(SeverityOrder, SeverityFills, vs);
    assert forall x :: x in Severities(vs) ==> x in SeverityOrder by {
      forall x | x in Severities(vs) ensures x in SeverityOrder {
        var i :| 0 <= i < |vs| && Severities(vs)[i] == x;
        assert vs[i] in vs;
      }
    }
    SeverityOrderDistinct();
    TotalCountedCovers(SeverityOrder, Severities(vs));
  }

  // ---------------------------------------------------------------------
  // Disclosure state (toggleGroup, toggleVuln)

  /** `!!m[k]`: the key is present and true. */
  predicate IsOpen(m: map<string, bool>, k: string)
  {
    k in m && m[k]
  }

  ghost predicate AtMostOneOpen(m: map<string, bool>)
  {
    forall a, b :: IsOpen(m, a) && IsOpen(m, b) ==> a == b
  }

  /** The accordion transition: a fresh map with only `category` open, or
      with nothing open when `category` was open. */
  function ToggleGroup(prev: map<string, bool>, category: string): (next: map<string, bool>)
    ensures AtMostOneOpen(next)
    ensures IsOpen(prev, category) ==> next == map[]
    ensures !IsOpen(prev, category) ==> forall k :: IsOpen(next, k) <==> k == category
  {
    if !IsOpen(prev, category) then map[category := true] else map[]
  }

  /** Whatever the previous state, even one with several groups open, the
      accordion keeps at most one open, and toggling the same group twice
      closes everything. */
  lemma ToggleGroupTwice(prev: map<string, bool>, category: string)
    ensures ToggleGroup(ToggleGroup(prev, category), category) ==
      if IsOpen(prev, category) then map[category := true] else map[]
  {
  }

  /** Flips the finding `id`, leaving every other key as it was. */
  function ToggleVuln(prev: map<string, bool>, id: string): (next: map<string, bool>)
    ensures IsOpen(next, id) == !IsOpen(prev, id)
    ensures next.Keys == prev.Keys + {id}
    ensures forall k :: k != id && k in prev ==> next[k] == prev[k]
  {
    prev[id := !IsOpen(prev, id)]
  }

  /** Toggling a finding twice restores which findings are open. */
  lemma ToggleVulnTwice(prev: map<string, bool>, id: string)
    ensures forall k :: IsOpen(ToggleVuln(ToggleVuln(prev, id), id), k) == IsOpen(prev, k)
  {
  }

  // ---------------------------------------------------------------------
  // Scan-step display (scanSteps, lines 446-447)

  const ScanSteps: seq<string> := [
    "Initializing secure scan environment",
    "Parsing repository structure",
    "Running static analysis engine",
    "Detecting vulnerability patterns",
    "Evaluating dependency risks",
    "Mapping compliance impact",
    "Calculating risk score"]

  /** `scanSteps.length - 1`, the index the cursor is clamped to. */
  const LastStep: nat := |ScanSteps| - 1

  predicate StepCompleted(index: nat, scanStep: nat)
  {
    index < scanStep
  }

  predicate StepActive(index: nat, scanStep: nat)
  {
    index == scanStep
  }

  /** For a cursor within the steps: no step is both completed and active,
      exactly one step is active, and the completed steps are the ones before
      it. At the final cursor the last step shows active, not completed. */
  lemma StepDisplay(scanStep: nat)
    requires scanStep <= LastStep
    ensures forall i :: 0 <= i < |ScanSteps| ==> !(StepCompleted(i, scanStep) && StepActive(i, scanStep))
    ensures exists i :: 0 <= i < |ScanSteps| && StepActive(i, scanStep)
    ensures forall i, j :: 0 <= i < |ScanSteps| && 0 <= j < |ScanSteps| && StepActive(i, scanStep) && StepActive(j, scanStep) ==> i == j
    ensures scanStep == LastStep ==>
      (forall i :: 0 <= i < LastStep ==> StepCompleted(i, scanStep)) && !StepCompleted(LastStep, scanStep)
  {
    assert StepActive(scanStep, scanStep);
  }

  // ---------------------------------------------------------------------
  // Input checks and plan gating

  /** The input is empty or whitespace only. */
  predicate IsBlank(s: string)
  {
    forall i | 0 <= i < |s| :: IsJsSpace(s[i])
  }

  /** `IsBlank` is the source's test `!s.trim()`: trimming leaves nothing. */
  lemma IsBlankIsTrimEmpty(s: string)
    ensures IsBlank(s) <==> Trim(s, IsJsSpace) == []
  {
  }

  datatype Tab = CodeTab | GithubTab | UploadTab

  /** What handleRepoAudit sends: the URL on the GitHub tab, the file on the
      upload tab, nothing otherwise. */
  datatype RepoInput = GithubInput(url: string) | FileInput(name: string) | NoInput

  function RepoAuditInput(tab: Tab, githubUrl: string, file: Option<string>): (r: RepoInput)
    ensures r.GithubInput? <==> tab == GithubTab && githubUrl != []
    ensures r.FileInput? <==> tab == UploadTab && file.Some?
    ensures r.GithubInput? ==> r.url == githubUrl
    ensures r.FileInput? ==> file == Some(r.name)
  {
    if tab == GithubTab && githubUrl != [] then GithubInput(githubUrl)
    else if tab == UploadTab && file.Some? then FileInput(file.value)
    else NoInput
  }

  /** `localStorage.getItem('selectedPlan') || 'starter'`. */
  function PlanOf(stored: Option<string>): (plan: string)
    ensures plan != []
    ensures stored.Some? && stored.value != [] ==> plan == stored.value
    ensures !(stored.Some? && stored.value != []) ==> plan == "starter"
  {
    if stored.Some? && stored.value != [] then stored.value else "starter"
  }

  datatype Feature = TeamPanel | ReportDownload | StarterExportNote

  /** Which features a plan enables. */
  function Enabled(plan: string, feature: Feature): (on: bool)
  {
    match feature
    case TeamPanel => plan == "enterprise"
    case ReportDownload => true
    case StarterExportNote => plan == "starter"
  }

  /** Only the exact plan "enterprise" opens the team panel; the report
      download is open to every plan, with a note for "starter". */
  lemma PlanGates(plan: string)
    ensures Enabled(plan, TeamPanel) <==> plan == "enterprise"
    ensures Enabled(plan, ReportDownload)
    ensures Enabled(PlanOf(None), StarterExportNote) && !Enabled(PlanOf(None), TeamPanel)
  {
  }
}
