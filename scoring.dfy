/** The server's deterministic post-processing of the model's findings
    (backend/server.py): the CWE lookups, the financial-impact breakdown,
    the security score and first-occurrence deduplication. */
module Scoring {
  import opened Wrappers
  import opened Text
  import opened Tally
  import opened AuditModel

  /** The four severities the server assigns. */
  const Levels: set<string> := {"Critical", "High", "Medium", "Low"}

  // ---------------------------------------------------------------------
  // Lookups (SEVERITY_MAP, FIX_TIME_MAP, CWE_CATEGORY_MAP)

  const SeverityMap: map<string, string> := map[
    "CWE-89" := "Critical", "CWE-79" := "Critical", "CWE-78" := "Critical",
    "CWE-94" := "Critical", "CWE-022" := "Critical", "CWE-798" := "Critical",
    "CWE-502" := "Critical",
    "CWE-601" := "High", "CWE-352" := "High", "CWE-918" := "High", "CWE-434" := "High",
    "CWE-862" := "High", "CWE-863" := "High", "CWE-306" := "High",
    "CWE-532" := "Medium", "CWE-200" := "Medium", "CWE-327" := "Medium",
    "CWE-311" := "Medium", "CWE-284" := "Medium",
    "CWE-676" := "Low", "CWE-732" := "Low"]

  /** `SEVERITY_MAP.get(cwe, "Medium")`, as written; a null CWE is never a key. */
  function AssignSeverity(cwe: Option<string>): (severity: string)
    ensures severity in Levels
    ensures cwe.Some? && cwe.value in SeverityMap ==> severity == SeverityMap[cwe.value]
    ensures cwe.None? || cwe.value !in SeverityMap ==> severity == "Medium"
  {
    if cwe.Some? && cwe.value in SeverityMap then SeverityMap[cwe.value] else "Medium"
  }

  const FixTimeMap: map<string, nat> := map["Critical" := 24, "High" := 8, "Medium" := 4, "Low" := 1]

  /** `FIX_TIME_MAP.get(severity, 4)`. */
  function AssignFixTime(severity: string): (hours: nat)
    ensures hours in {24, 8, 4, 1}
    ensures severity !in Levels ==> hours == 4
  {
    if severity in FixTimeMap then FixTimeMap[severity] else 4
  }

  /** Fix times strictly decrease with severity, so the fix time of an
      assigned severity tells the severity back. */
  lemma FixTimeOrder(a: string, b: string)
    requires a in Levels && b in Levels && a != b
    ensures AssignFixTime(a) != AssignFixTime(b)
    ensures AssignFixTime("Critical") > AssignFixTime("High") > AssignFixTime("Medium") > AssignFixTime("Low")
  {
  }

  const CategoryMap: map<string, string> := map[
    "CWE-89" := "SQL Injection",
    "CWE-79" := "Cross-Site Scripting (XSS)",
    "CWE-78" := "OS Command Injection",
    "CWE-94" := "Code Injection",
    "CWE-22" := "Path Traversal",
    "CWE-798" := "Hardcoded Credentials",
    "CWE-502" := "Insecure Deserialization",
    "CWE-601" := "Open Redirect",
    "CWE-352" := "Cross-Site Request Forgery (CSRF)",
    "CWE-918" := "Server-Side Request Forgery (SSRF)",
    "CWE-434" := "Unrestricted File Upload",
    "CWE-862" := "Missing Authorization",
    "CWE-863" := "Incorrect Authorization",
    "CWE-306" := "Missing Authentication",
    "CWE-287" := "Improper Authentication",
    "CWE-532" := "Information Exposure Through Logs",
    "CWE-200" := "Information Exposure",
    "CWE-327" := "Weak Cryptography",
    "CWE-311" := "Missing Encryption",
    "CWE-284" := "Improper Access Control",
    "CWE-676" := "Use of Dangerous Function",
    "CWE-732" := "Incorrect Permissions"]

  /** `assign_category`: the table's category, else the catch-all; the
      title is accepted and ignored. */
  function AssignCategory(cwe: Option<string>, title: string): (category: string)
    ensures category != []
    ensures cwe.Some? && cwe.value in CategoryMap ==> category == CategoryMap[cwe.value]
    ensures category == OtherCategory <==> cwe.None? || cwe.value !in CategoryMap
  {
    if cwe.Some? && cwe.value in CategoryMap then CategoryMap[cwe.value] else OtherCategory
  }

  /** As written, the severity table spells path traversal "CWE-022" while
      the category table (and the usual spelling) is "CWE-22": a reported
      "CWE-22" is categorised as path traversal but rated Medium instead of
      Critical, and the severity table has a key no category covers. */
  lemma PathTraversalMismatch()
    ensures AssignCategory(Some("CWE-22"), "") == "Path Traversal"
    ensures AssignSeverity(Some("CWE-22")) == "Medium"
    ensures AssignSeverity(Some("CWE-022")) == "Critical"
    ensures "CWE-022" in SeverityMap && "CWE-022" !in CategoryMap
    ensures !(SeverityMap.Keys <= CategoryMap.Keys)
  {
  }

  /** The severity table with path traversal under "CWE-22". */
  const SeverityMapCorrected: map<string, string> := (SeverityMap - {"CWE-022"})["CWE-22" := "Critical"]

  /** `assign_severity` over the corrected table. */
  function AssignSeverityCorrected(cwe: Option<string>): (severity: string)
    ensures severity in Levels
    ensures cwe.Some? && cwe.value in SeverityMapCorrected ==> severity == SeverityMapCorrected[cwe.value]
    ensures cwe.None? || cwe.value !in SeverityMapCorrected ==> severity == "Medium"
  {
    if cwe.Some? && cwe.value in SeverityMapCorrected then SeverityMapCorrected[cwe.value] else "Medium"
  }

  /** With the corrected table every rated CWE has a category, "CWE-22" is
      Critical, "CWE-022" falls to the default "Medium", and every CWE other
      than those two spellings is rated as before. */
  lemma SeverityCorrectedAgrees(cwe: string)
    ensures SeverityMapCorrected.Keys <= CategoryMap.Keys
    ensures AssignSeverityCorrected(Some("CWE-22")) == "Critical"
    ensures AssignSeverityCorrected(Some("CWE-022")) == "Medium"
    ensures cwe != "CWE-22" && cwe != "CWE-022" ==> AssignSeverityCorrected(Some(cwe)) == AssignSeverity(Some(cwe))
  {
  }

  // ---------------------------------------------------------------------
  // Financial impact (calculate_detailed_impact)

  /** Developer hours charged per finding; anything not Critical, High or
      Medium is charged as Low. */
  function HoursFor(severity: string): (hours: nat)
    ensures hours in {24, 8, 4, 1}
  {
    if severity == "Critical" then 24
    else if severity == "High" then 8
    else if severity == "Medium" then 4
    else 1
  }

  /** The cost table agrees with the fix-time table on the four assigned
      levels, but not elsewhere: an unlisted label costs 1 hour while its
      fix time is 4. */
  lemma HoursMatchFixTime(severity: string)
    ensures severity in Levels ==> HoursFor(severity) == AssignFixTime(severity)
    ensures severity !in Levels ==> HoursFor(severity) == 1 && AssignFixTime(severity) == 4
  {
  }

  /** Total developer hours of `vs`. */
  function FixHours(vs: seq<Vuln>): nat
    decreases |vs|
  {
    if vs == [] then 0 else FixHours(vs[..|vs| - 1]) + HoursFor(vs[|vs| - 1].severity)
  }

  /** Number of findings whose severity is one of `levels`. */
  function CountIn(vs: seq<Vuln>, levels: set<string>): nat
    decreases |vs|
  {
    if vs == [] then 0
    else CountIn(vs[..|vs| - 1], levels) + (if vs[|vs| - 1].severity in levels then 1 else 0)
  }

  /** The impact the server reports for `vs`. */
  function ImpactOf(vs: seq<Vuln>): DetailedImpact
  {
    var critical := CountIn(vs, {"Critical"});
    var highCritical := CountIn(vs, {"Critical", "High"});
    var b := Breakdown(FixHours(vs) * 2500, critical * 4 * 50000, critical * 250000, highCritical * 100000);
    DetailedImpact(b, b.fixCost + b.downtime + b.regulatoryFines + b.reputation)
  }

  /** calculate_detailed_impact: a cost loop and two counting passes. */
  method CalculateDetailedImpact(vs: seq<Vuln>) returns (impact: DetailedImpact)
    ensures impact == ImpactOf(vs)
  {
    var devCost := 0;
    for i := 0 to |vs|
      invariant devCost == FixHours(vs[..i]) * 2500
    {
      assert vs[..i + 1][..i] == vs[..i];
      var v := vs[i];
      if v.severity == "Critical" {
        devCost := devCost + 24 * 2500;
      } else if v.severity == "High" {
        devCost := devCost + 8 * 2500;
      } else if v.severity == "Medium" {
        devCost := devCost + 4 * 2500;
      } else {
        devCost := devCost + 1 * 2500;
      }
    }
    var criticalCount := CountSeverities(vs, {"Critical"});
    var downtimeCost := criticalCount * 4 * 50000;
    var complianceFine := criticalCount * 250000;
    var highCriticalCount := CountSeverities(vs, {"Critical", "High"});
    var reputationCost := highCriticalCount * 100000;
    var total := devCost + downtimeCost + complianceFine + reputationCost;
    assert vs[..|vs|] == vs;
    impact := DetailedImpact(Breakdown(devCost, downtimeCost, complianceFine, reputationCost), total);
  }

  /** `sum(1 for v in vs if v.severity in levels)`. */
  method CountSeverities(vs: seq<Vuln>, levels: set<string>) returns (n: nat)
    ensures n == CountIn(vs, levels)
  {
    n := 0;
    for i := 0 to |vs|
      invariant n == CountIn(vs[..i], levels)
    {
      assert vs[..i + 1][..i] == vs[..i];
      if vs[i].severity in levels {
        n := n + 1;
      }
    }
    assert vs[..|vs|] == vs;
  }

  /** Counting by one severity is counting occurrences in the severity
      labels, the figure the dashboard's distribution shows. */
  lemma {:induction false} CountInOne(vs: seq<Vuln>, level: string)
    ensures CountIn(vs, {level}) == Occurrences(Severities(vs), level)
    decreases |vs|
  {
    if vs != [] {
      var n := |vs| - 1;
      CountInOne(vs[..n], level);
      assert vs == vs[..n] + [vs[n]];
      SeveritiesSnoc(vs[..n], vs[n]);
      OccurrencesSnoc(Severities(vs[..n]), vs[n].severity, level);
    }
  }

  /** Counts over disjoint level sets add up. */
  lemma {:induction false} CountInUnion(vs: seq<Vuln>, a: set<string>, b: set<string>)
    requires a !! b
    ensures CountIn(vs, a + b) == CountIn(vs, a) + CountIn(vs, b)
    decreases |vs|
  {
    if vs != [] {
      CountInUnion(vs[..|vs| - 1], a, b);
    }
  }

  lemma {:induction false} FixHoursAppend(a: seq<Vuln>, b: seq<Vuln>)
    ensures FixHours(a + b) == FixHours(a) + FixHours(b)
    decreases |b|
  {
    if b == [] {
      assert a + b == a;
    } else {
      var n := |b| - 1;
      FixHoursAppend(a, b[..n]);
      assert (a + b)[..|a + b| - 1] == a + b[..n];
    }
  }

  lemma {:induction false} CountInAppend(a: seq<Vuln>, b: seq<Vuln>, levels: set<string>)
    ensures CountIn(a + b, levels) == CountIn(a, levels) + CountIn(b, levels)
    decreases |b|
  {
    if b == [] {
      assert a + b == a;
    } else {
      var n := |b| - 1;
      CountInAppend(a, b[..n], levels);
      assert (a + b)[..|a + b| - 1] == a + b[..n];
    }
  }

  /** The impact is additive: every component of the report for a
      concatenation is the sum of the components for its parts. */
  lemma ImpactAdditive(a: seq<Vuln>, b: seq<Vuln>)
    ensures ImpactOf(a + b).breakdown.fixCost == ImpactOf(a).breakdown.fixCost + ImpactOf(b).breakdown.fixCost
    ensures ImpactOf(a + b).breakdown.downtime == ImpactOf(a).breakdown.downtime + ImpactOf(b).breakdown.downtime
    ensures ImpactOf(a + b).breakdown.regulatoryFines
      == ImpactOf(a).breakdown.regulatoryFines + ImpactOf(b).breakdown.regulatoryFines
    ensures ImpactOf(a + b).breakdown.reputation == ImpactOf(a).breakdown.reputation + ImpactOf(b).breakdown.reputation
    ensures ImpactOf(a + b).totalINR == ImpactOf(a).totalINR + ImpactOf(b).totalINR
  {
    FixHoursAppend(a, b);
    CountInAppend(a, b, {"Critical"});
    CountInAppend(a, b, {"Critical", "High"});
  }

  /** What one finding adds to the total: 610,000 for Critical, 120,000
      for High, 10,000 for Medium and 2,500 for anything else. */
  lemma ImpactOfOne(v: Vuln)
    ensures v.severity == "Critical" ==> ImpactOf([v]).totalINR == 610000
    ensures v.severity == "High" ==> ImpactOf([v]).totalINR == 120000
    ensures v.severity == "Medium" ==> ImpactOf([v]).totalINR == 10000
    ensures v.severity !in {"Critical", "High", "Medium"} ==> ImpactOf([v]).totalINR == 2500
  {
    assert [v][..0] == [];
    assert FixHours([v]) == HoursFor(v.severity);
    assert CountIn([v], {"Critical"}) == if v.severity == "Critical" then 1 else 0;
    assert CountIn([v], {"Critical", "High"}) == if v.severity in {"Critical", "High"} then 1 else 0;
  }

  /** The breakdown in terms of the severity counts: downtime and fines
      scale with the Critical findings, reputation with the Critical and
      High ones, and no component is negative. */
  lemma ImpactFromCounts(vs: seq<Vuln>)
    ensures var b := ImpactOf(vs).breakdown;
      && b.downtime == 200000 * Occurrences(Severities(vs), "Critical")
      && b.regulatoryFines == 250000 * Occurrences(Severities(vs), "Critical")
      && b.reputation == 100000 * (Occurrences(Severities(vs), "Critical") + Occurrences(Severities(vs), "High"))
      && b.fixCost == 2500 * FixHours(vs)
      && b.fixCost >= 2500 * |vs|
      && ImpactOf(vs).totalINR == b.fixCost + b.downtime + b.regulatoryFines + b.reputation
      && b.fixCost >= 0 && b.downtime >= 0 && b.regulatoryFines >= 0 && b.reputation >= 0
  {
    CountInOne(vs, "Critical");
    CountInOne(vs, "High");
    CountInUnion(vs, {"Critical"}, {"High"});
    assert {"Critical"} + {"High"} == {"Critical", "High"};
    FixHoursAtLeast(vs);
  }

  lemma {:induction false} FixHoursAtLeast(vs: seq<Vuln>)
    ensures FixHours(vs) >= |vs|
    decreases |vs|
  {
    if vs != [] {
      FixHoursAtLeast(vs[..|vs| - 1]);
    }
  }

  /** Sum of the findings' own fix times. */
  function FixTimeSum(vs: seq<Vuln>): int
    decreases |vs|
  {
    if vs == [] then 0 else FixTimeSum(vs[..|vs| - 1]) + vs[|vs| - 1].fixTimeHours
  }

  /** For findings rated by the server, the fix cost is 2,500 per hour of
      their reported fix times. */
  lemma {:induction false} FixCostMatchesFixTimes(vs: seq<Vuln>)
    requires forall i :: 0 <= i < |vs| ==> vs[i].severity in Levels
    requires forall i :: 0 <= i < |vs| ==> vs[i].fixTimeHours == AssignFixTime(vs[i].severity)
    ensures ImpactOf(vs).breakdown.fixCost == 2500 * FixTimeSum(vs)
    decreases |vs|
  {
    if vs != [] {
      var n := |vs| - 1;
      FixCostMatchesFixTimes(vs[..n]);
      HoursMatchFixTime(vs[n].severity);
    }
  }

  // ---------------------------------------------------------------------
  // Security score (calculate_security_score)

  /** Points deducted per finding; anything not Critical, High or Medium
      is deducted as Low. */
  function PenaltyFor(severity: string): (points: nat)
    ensures 3 <= points <= 25
    ensures severity == "Critical" ==> points == 25
    ensures severity == "High" ==> points == 15
    ensures severity == "Medium" ==> points == 8
    ensures severity !in {"Critical", "High", "Medium"} ==> points == 3
  {
    if severity == "Critical" then 25
    else if severity == "High" then 15
    else if severity == "Medium" then 8
    else 3
  }

  function Penalty(vs: seq<Vuln>): nat
    decreases |vs|
  {
    if vs == [] then 0 else Penalty(vs[..|vs| - 1]) + PenaltyFor(vs[|vs| - 1].severity)
  }

  /** A single finding scores 75 (Critical), 85 (High), 92 (Medium) or
      97 (anything else). */
  lemma ScoreOfOne(v: Vuln)
    ensures v.severity == "Critical" ==> ScoreOf([v]) == 75
    ensures v.severity == "High" ==> ScoreOf([v]) == 85
    ensures v.severity == "Medium" ==> ScoreOf([v]) == 92
    ensures v.severity !in {"Critical", "High", "Medium"} ==> ScoreOf([v]) == 97
  {
    assert [v][..0] == [];
    assert Penalty([v]) == PenaltyFor(v.severity);
  }

  /** 100 for no findings, else 100 minus the penalty, floored at 0. */
  function ScoreOf(vs: seq<Vuln>): (score: int)
    ensures 0 <= score <= 100
  {
    if vs == [] then 100 else if Penalty(vs) >= 100 then 0 else 100 - Penalty(vs)
  }

  /** calculate_security_score: the penalty loop. */
  method CalculateSecurityScore(vs: seq<Vuln>) returns (score: int)
    ensures score == ScoreOf(vs)
  {
    if vs == [] {
      return 100;
    }
    var penalty := 0;
    for i := 0 to |vs|
      invariant penalty == Penalty(vs[..i])
    {
      assert vs[..i + 1][..i] == vs[..i];
      var v := vs[i];
      if v.severity == "Critical" {
        penalty := penalty + 25;
      } else if v.severity == "High" {
        penalty := penalty + 15;
      } else if v.severity == "Medium" {
        penalty := penalty + 8;
      } else {
        penalty := penalty + 3;
      }
    }
    assert vs[..|vs|] == vs;
    score := if 0 > 100 - penalty then 0 else 100 - penalty;
  }

  lemma {:induction false} PenaltyAppend(a: seq<Vuln>, b: seq<Vuln>)
    ensures Penalty(a + b) == Penalty(a) + Penalty(b)
    decreases |b|
  {
    if b == [] {
      assert a + b == a;
    } else {
      var n := |b| - 1;
      PenaltyAppend(a, b[..n]);
      assert (a + b)[..|a + b| - 1] == a + b[..n];
    }
  }

  lemma {:induction false} PenaltyAtLeast(vs: seq<Vuln>)
    ensures Penalty(vs) >= 3 * |vs|
    decreases |vs|
  {
    if vs != [] {
      PenaltyAtLeast(vs[..|vs| - 1]);
    }
  }

  /** More findings never raise the score. */
  lemma ScoreNeverRises(vs: seq<Vuln>, more: seq<Vuln>)
    ensures ScoreOf(vs + more) <= ScoreOf(vs)
  {
    PenaltyAppend(vs, more);
    if vs == [] && more != [] {
      PenaltyAtLeast(more);
    }
  }

  /** The score is 100 exactly when there are no findings. */
  lemma FullScoreIffClean(vs: seq<Vuln>)
    ensures ScoreOf(vs) == 100 <==> vs == []
  {
    PenaltyAtLeast(vs);
  }

  /** A Critical finding costs at least 25 points. */
  lemma {:induction false} CriticalCostsQuarter(vs: seq<Vuln>, i: nat)
    requires i < |vs| && vs[i].severity == "Critical"
    ensures ScoreOf(vs) <= 75
  {
    assert vs == vs[..i] + [vs[i]] + vs[i + 1..];
    PenaltyAppend(vs[..i] + [vs[i]], vs[i + 1..]);
    PenaltyAppend(vs[..i], [vs[i]]);
    assert [vs[i]][..0] == [];
  }

  // ---------------------------------------------------------------------
  // Deduplication (deduplicate_vulnerabilities)

  /** The normalised identity of a finding: upper-cased stripped CWE (or
      "UNKNOWN" when missing or empty) and lower-cased stripped location. */
  datatype Key = Key(cwe: string, location: string)

  function DedupKey(v: Vuln): Key
  {
    var cwe := if v.cweId.Some? && v.cweId.value != [] then v.cweId.value else "UNKNOWN";
    Key(ToUpper(Trim(cwe, IsPySpace)), ToLower(Trim(v.location, IsPySpace)))
  }

  /** The keys of all findings in `vs`; the deduplication lemmas below
      hold for any key function and are used with `DedupKey`. */
  function KeySet(vs: seq<Vuln>, key: Vuln -> Key): set<Key>
    decreases |vs|
  {
    if vs == [] then {} else KeySet(vs[..|vs| - 1], key) + {key(vs[|vs| - 1])}
  }

  /** The findings of `vs` whose key has not been seen before them. */
  function DedupBy(vs: seq<Vuln>, key: Vuln -> Key): seq<Vuln>
    decreases |vs|
  {
    if vs == [] then []
    else
      var n := |vs| - 1;
      DedupBy(vs[..n], key) + (if key(vs[n]) in KeySet(vs[..n], key) then [] else [vs[n]])
  }

  function Deduplicated(vs: seq<Vuln>): seq<Vuln>
  {
    DedupBy(vs, DedupKey)
  }

  /** deduplicate_vulnerabilities: the loop with its `seen` set of keys. */
  method DeduplicateVulnerabilities(vs: seq<Vuln>) returns (deduplicated: seq<Vuln>)
    ensures deduplicated == Deduplicated(vs)
  {
    deduplicated := DedupLoop(vs, DedupKey);
  }

  /** The loop itself, for a given key function. */
  method DedupLoop(vs: seq<Vuln>, key: Vuln -> Key) returns (deduplicated: seq<Vuln>)
    ensures deduplicated == DedupBy(vs, key)
  {
    var seen: set<Key> := {};
    deduplicated := [];
    for i := 0 to |vs|
      invariant seen == KeySet(vs[..i], key)
      invariant deduplicated == DedupBy(vs[..i], key)
    {
      assert vs[..i + 1][..i] == vs[..i];
      var k := key(vs[i]);
      if k !in seen {
        seen := seen + {k};
        deduplicated := deduplicated + [vs[i]];
      } else {
        seen := seen + {k};
      }
    }
    assert vs[..|vs|] == vs;
  }

  lemma {:induction false} KeySetMembers(vs: seq<Vuln>, key: Vuln -> Key, k: Key)
    ensures k in KeySet(vs, key) <==> exists i :: 0 <= i < |vs| && key(vs[i]) == k
    decreases |vs|
  {
    if vs != [] {
      var n := |vs| - 1;
      KeySetMembers(vs[..n], key, k);
      if k in KeySet(vs[..n], key) {
        var i :| 0 <= i < n && key(vs[..n][i]) == k;
        assert key(vs[i]) == k;
      }
    }
  }

  predicate DistinctKeys(vs: seq<Vuln>, key: Vuln -> Key)
  {
    forall i, j :: 0 <= i < j < |vs| ==> key(vs[i]) != key(vs[j])
  }

  /** The output keeps every key of the input and no key twice. */
  lemma {:induction false} DedupKeys(vs: seq<Vuln>, key: Vuln -> Key)
    ensures KeySet(DedupBy(vs, key), key) == KeySet(vs, key)
    ensures DistinctKeys(DedupBy(vs, key), key)
    decreases |vs|
  {
    if vs != [] {
      var n := |vs| - 1;
      DedupKeys(vs[..n], key);
      var prev := DedupBy(vs[..n], key);
      if key(vs[n]) !in KeySet(vs[..n], key) {
        var d := prev + [vs[n]];
        assert d[..|prev|] == prev;
        forall i, j | 0 <= i < j < |d| ensures key(d[i]) != key(d[j]) {
          if j == |prev| {
            KeySetMembers(prev, key, key(d[i]));
          }
        }
      } else {
        assert prev + [] == prev;
      }
    }
  }

  /** `vs[i]` is the first finding with its key. */
  predicate IsFirstOccurrence(vs: seq<Vuln>, key: Vuln -> Key, i: nat)
  {
    i < |vs| && forall j :: 0 <= j < i ==> key(vs[j]) != key(vs[i])
  }

  /** The output is the subsequence of the input at the first occurrences
      of each key, and every first occurrence is kept. */
  lemma {:induction false} DedupFirstOccurrences(vs: seq<Vuln>, key: Vuln -> Key) returns (idx: seq<nat>)
    ensures SubsequenceVia(DedupBy(vs, key), vs, idx)
    ensures forall i: nat :: i in idx <==> IsFirstOccurrence(vs, key, i)
    decreases |vs|
  {
    if vs == [] {
      idx := [];
    } else {
      var n := |vs| - 1;
      var prev := DedupFirstOccurrences(vs[..n], key);
      var first := key(vs[n]) !in KeySet(vs[..n], key);
      KeySetMembers(vs[..n], key, key(vs[n]));
      SubsequenceExtend(DedupBy(vs[..n], key), vs, prev, n, first);
      assert vs[..n + 1] == vs;
      idx := prev + (if first then [n] else []);
      forall i: nat ensures i in idx <==> IsFirstOccurrence(vs, key, i) {
        if i < n {
          assert IsFirstOccurrence(vs, key, i) <==> IsFirstOccurrence(vs[..n], key, i);
        }
      }
    }
  }

  /** A list without repeated keys is left as it is. */
  lemma {:induction false} DedupOfDistinct(vs: seq<Vuln>, key: Vuln -> Key)
    requires DistinctKeys(vs, key)
    ensures DedupBy(vs, key) == vs
    decreases |vs|
  {
    if vs != [] {
      var n := |vs| - 1;
      DedupOfDistinct(vs[..n], key);
      KeySetMembers(vs[..n], key, key(vs[n]));
      assert vs[..n] + [vs[n]] == vs;
    }
  }

  /** Deduplicating twice is deduplicating once. */
  lemma DedupIdempotent(vs: seq<Vuln>, key: Vuln -> Key)
    ensures DedupBy(DedupBy(vs, key), key) == DedupBy(vs, key)
  {
    DedupKeys(vs, key);
    DedupOfDistinct(DedupBy(vs, key), key);
  }

  /** Findings whose CWE is missing, empty or literally "UNKNOWN" share
      one key when their locations agree. */
  lemma MissingCweIsUnknown(v: Vuln, w: Vuln, u: Vuln)
    requires v.cweId.None? && w.cweId == Some([]) && u.cweId == Some("UNKNOWN")
    requires v.location == w.location == u.location
    ensures DedupKey(v) == DedupKey(w) == DedupKey(u)
  {
  }
}
