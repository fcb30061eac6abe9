/** The severity distribution printed in the PDF report
    (backend/server.py, `generate_pdf_report`): a tally of the findings'
    severity labels, listed by the report's own rank table, highest first. */
module Report {
  import opened Wrappers
  import opened Tally
  import DashboardViews

  /** The report's rank table; unlike the dashboard's it has no "Info". */
  const ReportRanks: map<string, int> := map["Critical" := 5, "High" := 4, "Medium" := 3, "Low" := 2]

  /** `{...}.get(name, 0)`. */
  function ReportRank(name: string): (r: int)
    ensures 0 <= r <= 5
    ensures r == 0 <==> name !in ReportRanks
    ensures name in ReportRanks ==> r == ReportRanks[name]
  {
    if name in ReportRanks then ReportRanks[name] else 0
  }

  /** "Info" ranks with unknown labels in the report, though the dashboard
      places it just below "Low". */
  lemma InfoRanksAsUnknown(unknown: string)
    requires unknown !in ReportRanks
    ensures ReportRank("Info") == ReportRank(unknown) == 0
    ensures ReportRank("Info") < ReportRank("Low")
    ensures DashboardViews.SeverityRank("Info") == 1
    ensures DashboardViews.SeverityRank("Low") == ReportRank("Low")
  {
  }

  /** `vuln.get('severity', 'Unknown')`: the report reads findings as
      loose records, in which the severity may be missing. */
  function SeverityLabel(severity: Option<string>): (name: string)
    ensures severity.Some? ==> name == severity.value
    ensures severity.None? ==> name == "Unknown"
  {
    severity.GetOr("Unknown")
  }

  function Labels(severities: seq<Option<string>>): (labels: seq<string>)
    ensures |labels| == |severities|
    ensures forall i :: 0 <= i < |labels| ==> labels[i] == SeverityLabel(severities[i])
  {
    seq(|severities|, i requires 0 <= i < |severities| => SeverityLabel(severities[i]))
  }

  /** The counting loop followed by the sort by rank. Every finding is
      counted once, the lines are ordered by the report's rank, highest
      first, and they are the tally of the labels, rearranged. */
  method SeverityTally(severities: seq<Option<string>>) returns (lines: seq<Entry>)
    ensures Total(lines) == |severities|
    ensures SortedByRank(lines, ReportRank)
    ensures multiset(lines) == multiset(Tallied(Labels(severities)))
  {
    var counts := CountLabels(Labels(severities));
    lines := SortByRank(counts, ReportRank);
    SortByRankTotal(counts, ReportRank);
    TalliedTotal(Labels(severities));
  }

  /** A severity label has a line exactly when some finding carries it, a missing
      severity being "Unknown"; every line counts at least one finding. */
  lemma TallyLines(severities: seq<Option<string>>, lines: seq<Entry>, name: string)
    requires multiset(lines) == multiset(Tallied(Labels(severities)))
    ensures (exists e :: e in lines && e.key == name) <==>
            exists i :: 0 <= i < |severities| && SeverityLabel(severities[i]) == name
    ensures forall e :: e in lines ==> e.count > 0
  {
    var labels := Labels(severities);
    var t := Tallied(labels);
    SameMembers(lines, t);
    TalliedKeys(labels, name);
    TalliedEntries(labels);
    if exists i :: 0 <= i < |severities| && SeverityLabel(severities[i]) == name {
      var i :| 0 <= i < |severities| && SeverityLabel(severities[i]) == name;
      assert labels[i] == name;
      var j :| 0 <= j < |t| && t[j].key == name;
      assert t[j] in lines;
    }
    if exists e :: e in lines && e.key == name {
      var e :| e in lines && e.key == name;
      var j :| 0 <= j < |t| && t[j] == e;
      var i :| 0 <= i < |labels| && labels[i] == name;
    }
  }

  lemma SameMembers(a: seq<Entry>, b: seq<Entry>)
    requires multiset(a) == multiset(b)
    ensures forall e :: e in a <==> e in b
  {
    forall e ensures e in a <==> e in b {
      assert e in a <==> e in multiset(a);
      assert e in b <==> e in multiset(b);
    }
  }
}
