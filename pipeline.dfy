/** The code-audit path of the server (backend/server.py,
    `analyze_with_gemini` and `audit_code`): the model's reply is stripped
    of its fence and parsed, each raw finding is given a severity, a fix
    time and a category by the server's own tables, the findings are
    deduplicated, and the result carries the score and the financial
    impact the dashboard then renders. */
module AuditPipeline {
  import opened Wrappers
  import opened AuditModel
  import opened Scoring
  import opened DashboardViews
  import RepoIntake

  /** A field of a parsed JSON object: missing, `null`, or a string. */
  datatype Field = Absent | Null | Given(value: string)

  /** One finding as the model reports it; titles and locations that are
      present are strings. */
  datatype RawFinding = RawFinding(cweId: Field, title: Option<string>, location: Option<string>)

  /** `v_data.get('cwe_id', 'UNKNOWN')`. */
  function CweOf(f: Field): Option<string>
  {
    match f
    case Absent => Some("UNKNOWN")
    case Null => None
    case Given(s) => Some(s)
  }

  /** What the server guarantees of every finding it rates itself. */
  predicate Rated(v: Vuln)
  {
    && v.severity == AssignSeverity(v.cweId)
    && v.fixTimeHours == AssignFixTime(v.severity)
    && v.category == Some(AssignCategory(v.cweId, v.title))
  }

  /** One raw finding made into a `Vulnerability`, with the defaults for
      missing fields. */
  function Normalise(raw: RawFinding): (v: Vuln)
    ensures Rated(v)
    ensures v.cweId == CweOf(raw.cweId)
    ensures v.title == raw.title.GetOr("Unknown Vulnerability")
    ensures v.location == raw.location.GetOr("Unknown location")
  {
    var cwe := CweOf(raw.cweId);
    var severity := AssignSeverity(cwe);
    var title := raw.title.GetOr("Unknown Vulnerability");
    Vuln(title, severity, cwe, raw.location.GetOr("Unknown location"),
         Some(AssignCategory(cwe, title)), AssignFixTime(severity))
  }

  /** The same conversion over the corrected severity table
      (`Scoring.SeverityMapCorrected`): it differs from `Normalise` only
      for the two path-traversal spellings, and only in severity and fix
      time. */
  function NormaliseCorrected(raw: RawFinding): (v: Vuln)
    ensures v.severity == AssignSeverityCorrected(v.cweId)
    ensures v.fixTimeHours == AssignFixTime(v.severity)
    ensures v == Normalise(raw).(severity := v.severity, fixTimeHours := v.fixTimeHours)
    ensures CweOf(raw.cweId) != Some("CWE-22") && CweOf(raw.cweId) != Some("CWE-022") ==> v == Normalise(raw)
  {
    var cwe := CweOf(raw.cweId);
    var severity := AssignSeverityCorrected(cwe);
    var title := raw.title.GetOr("Unknown Vulnerability");
    SeverityCorrectedAgrees(if cwe.Some? then cwe.value else "");
    Vuln(title, severity, cwe, raw.location.GetOr("Unknown location"),
         Some(AssignCategory(cwe, title)), AssignFixTime(severity))
  }

  function NormaliseAll(raws: seq<RawFinding>): (vs: seq<Vuln>)
    ensures |vs| == |raws|
    ensures forall i :: 0 <= i < |raws| ==> vs[i] == Normalise(raws[i])
  {
    seq(|raws|, i requires 0 <= i < |raws| => Normalise(raws[i]))
  }

  /** The findings of a parsed reply, normalised and deduplicated. */
  function Analysed(raws: seq<RawFinding>): seq<Vuln>
  {
    Deduplicated(NormaliseAll(raws))
  }

  /** The single finding returned when the reply is not valid JSON. */
  const ParseErrorFinding: Vuln := Vuln("Analysis Error", "Low", None, "N/A", None, 1)

  /** The findings for a model reply. JSON parsing is a parameter: `parse`
      gives None where `json.loads` raises. */
  function FindingsOf(reply: string, parse: string -> Option<seq<RawFinding>>): seq<Vuln>
  {
    match parse(RepoIntake.StripFence(reply))
    case None => [ParseErrorFinding]
    case Some(raws) => Analysed(raws)
  }

  /** The result record for a list of findings. */
  function AuditOf(vs: seq<Vuln>): (result: AuditResult)
    ensures result.vulnerabilities == vs
    ensures 0 <= result.securityScore <= 100
  {
    AuditResult(vs, ScoreOf(vs), ImpactOf(vs))
  }

  /** The conversion loop, then the deduplication. */
  method AnalyseFindings(raws: seq<RawFinding>) returns (vs: seq<Vuln>)
    ensures vs == Analysed(raws)
  {
    var all: seq<Vuln> := [];
    for i := 0 to |raws|
      invariant all == NormaliseAll(raws[..i])
    {
      all := all + [Normalise(raws[i])];
    }
    assert raws[..|raws|] == raws;
    vs := DeduplicateVulnerabilities(all);
  }

  /** `audit_code`: analysis, then the impact and the score of the
      findings (the database insert is not modelled). */
  method AuditCode(reply: string, parse: string -> Option<seq<RawFinding>>) returns (result: AuditResult)
    ensures result == AuditOf(FindingsOf(reply, parse))
  {
    var vs: seq<Vuln>;
    match parse(RepoIntake.StripFence(reply)) {
      case None =>
        vs := [ParseErrorFinding];
      case Some(raws) =>
        vs := AnalyseFindings(raws);
    }
    var impact := CalculateDetailedImpact(vs);
    var score := CalculateSecurityScore(vs);
    result := AuditResult(vs, score, impact);
  }

  // ---------------------------------------------------------------------
  // What the dashboard can rely on

  /** Every analysed finding is rated by the tables, no two share a
      deduplication key, and none is invented. */
  lemma AnalysedRated(raws: seq<RawFinding>)
    ensures forall v :: v in Analysed(raws) ==> Rated(v) && v in NormaliseAll(raws)
    ensures DistinctKeys(Analysed(raws), DedupKey)
    ensures |Analysed(raws)| <= |raws|
  {
    var all := NormaliseAll(raws);
    DedupWithin(all, DedupKey);
    forall v | v in all ensures Rated(v) {
      var i :| 0 <= i < |all| && all[i] == v;
      assert v == Normalise(raws[i]);
    }
    DedupKeys(all, DedupKey);
  }

  /** Deduplication only drops findings. */
  lemma {:induction false} DedupWithin(vs: seq<Vuln>, key: Vuln -> Key)
    ensures forall v :: v in DedupBy(vs, key) ==> v in vs
    ensures |DedupBy(vs, key)| <= |vs|
    decreases |vs|
  {
    if vs != [] {
      var n := |vs| - 1;
      DedupWithin(vs[..n], key);
      assert vs == vs[..n] + [vs[n]];
    }
  }

  /** Every finding of a reply has a severity the dashboard's severity
      chart shows and a fix time the server's table gives that severity;
      the dashboard groups a rated finding under its server category. */
  lemma FindingsCharted(reply: string, parse: string -> Option<seq<RawFinding>>)
    ensures forall v :: v in FindingsOf(reply, parse) ==>
      && v.severity in Levels
      && v.severity in SeverityOrder
      && v.fixTimeHours == AssignFixTime(v.severity)
      && CategoryOf(v) == AssignCategory(v.cweId, v.title)
  {
    match parse(RepoIntake.StripFence(reply))
    case None =>
    case Some(raws) =>
      AnalysedRated(raws);
  }

  /** The severity chart of an audit result accounts for every finding. */
  lemma SeverityChartCountsAll(reply: string, parse: string -> Option<seq<RawFinding>>)
    ensures SliceSum(ChartData(Some(AuditOf(FindingsOf(reply, parse))), SeverityView))
            == |FindingsOf(reply, parse)|
  {
    FindingsCharted(reply, parse);
    SeverityChartCoversAll(AuditOf(FindingsOf(reply, parse)));
  }

  /** The fix cost of a result is 2,500 per hour of its findings' own fix
      times. */
  lemma FixCostOfFindings(reply: string, parse: string -> Option<seq<RawFinding>>)
    ensures AuditOf(FindingsOf(reply, parse)).detailedImpact.breakdown.fixCost
            == 2500 * FixTimeSum(FindingsOf(reply, parse))
  {
    var vs := FindingsOf(reply, parse);
    FindingsCharted(reply, parse);
    assert forall i :: 0 <= i < |vs| ==> vs[i] in vs;
    FixCostMatchesFixTimes(vs);
  }

  /** A reply that cannot be parsed still yields a result: one Low
      finding, a score of 97 and a cost of one developer hour. */
  lemma ParseFailureResult(reply: string, parse: string -> Option<seq<RawFinding>>)
    requires parse(RepoIntake.StripFence(reply)).None?
    ensures AuditOf(FindingsOf(reply, parse)).securityScore == 97
    ensures AuditOf(FindingsOf(reply, parse)).detailedImpact.totalINR == 2500
    ensures CategoryOf(ParseErrorFinding) == OtherCategory
  {
    ScoreOfOne(ParseErrorFinding);
    ImpactOfOne(ParseErrorFinding);
  }

  /** A reply with no findings scores 100 at no cost, graded A. */
  lemma CleanReplyResult(reply: string, parse: string -> Option<seq<RawFinding>>)
    requires parse(RepoIntake.StripFence(reply)) == Some([])
    ensures AuditOf(FindingsOf(reply, parse)).securityScore == 100
    ensures AuditOf(FindingsOf(reply, parse)).detailedImpact.totalINR == 0
    ensures RiskGrade(AuditOf(FindingsOf(reply, parse)).securityScore).letter == 'A'
  {
    assert NormaliseAll([]) == [];
  }

  /** One Critical finding rules out grade A and the "Good" badge. */
  lemma CriticalNeverSecure(vs: seq<Vuln>, i: nat)
    requires i < |vs| && vs[i].severity == "Critical"
    ensures RiskGrade(AuditOf(vs).securityScore).letter != 'A'
    ensures ScoreBadge(AuditOf(vs).securityScore) != GoodBadge
  {
    CriticalCostsQuarter(vs, i);
  }

  /** As written, a reported "CWE-22" is grouped under "Path Traversal"
      but rated Medium with a 4-hour fix time, while "CWE-022" is rated
      Critical with 24 hours and falls into the catch-all group. */
  lemma PathTraversalRated(title: Option<string>, location: Option<string>)
    ensures var v := Normalise(RawFinding(Given("CWE-22"), title, location));
      && v.severity == "Medium" && v.fixTimeHours == 4
      && CategoryOf(v) == "Path Traversal"
    ensures var v := Normalise(RawFinding(Given("CWE-022"), title, location));
      && v.severity == "Critical" && v.fixTimeHours == 24
      && CategoryOf(v) == OtherCategory
  {
    PathTraversalMismatch();
  }

  /** With the corrected table, a reported "CWE-22" is rated Critical,
      takes 24 hours and is grouped under "Path Traversal". */
  lemma PathTraversalRatedCorrected(title: Option<string>, location: Option<string>)
    ensures var v := NormaliseCorrected(RawFinding(Given("CWE-22"), title, location));
      && v.severity == "Critical" && v.fixTimeHours == 24
      && CategoryOf(v) == "Path Traversal"
  {
    SeverityCorrectedAgrees("CWE-22");
  }
}
