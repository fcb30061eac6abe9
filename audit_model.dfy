/** The audit result record that the server produces and the dashboard
    renders (`Vulnerability`, `ImpactBreakdown`, `DetailedImpact` and
    `AuditResult` in backend/server.py). */
module AuditModel {
  import opened Wrappers

  /** One finding. `cweId` and `category` are optional in the source; the
      display-only fields (description, remediation, data impact, SOC 2
      controls) play no part in any computation and are not modelled. */
  datatype Vuln = Vuln(
    title: string,
    severity: string,
    cweId: Option<string>,
    location: string,
    category: Option<string>,
    fixTimeHours: int)

  /** The category both the server and the dashboard give a finding
      without a known one. */
  const OtherCategory: string := "Other Security Issues"

  datatype Breakdown = Breakdown(fixCost: int, downtime: int, regulatoryFines: int, reputation: int)

  datatype DetailedImpact = DetailedImpact(breakdown: Breakdown, totalINR: int)

  datatype AuditResult = AuditResult(
    vulnerabilities: seq<Vuln>,
    securityScore: int,
    detailedImpact: DetailedImpact)

  /** The severity labels of `vs`, in order. */
  function Severities(vs: seq<Vuln>): (s: seq<string>)
    ensures |s| == |vs|
    ensures forall i :: 0 <= i < |vs| ==> s[i] == vs[i].severity
  {
    seq(|vs|, i requires 0 <= i < |vs| => vs[i].severity)
  }

  lemma SeveritiesSnoc(vs: seq<Vuln>, v: Vuln)
    ensures Severities(vs + [v]) == Severities(vs) + [v.severity]
  {
  }

  /** `sub` consists of the elements of `s` at the strictly increasing
      positions `idx`: it is a subsequence of `s`, in order. */
  ghost predicate SubsequenceVia<T>(sub: seq<T>, s: seq<T>, idx: seq<nat>)
  {
    && |idx| == |sub|
    && (forall k :: 0 <= k < |idx| ==> idx[k] < |s| && sub[k] == s[idx[k]])
    && (forall k, l :: 0 <= k < l < |idx| ==> idx[k] < idx[l])
  }

  /** A subsequence of a prefix stays one of the whole sequence, and may
      take the next element at the end. */
  lemma SubsequenceExtend<T>(sub: seq<T>, s: seq<T>, idx: seq<nat>, n: nat, take: bool)
    requires n < |s| && SubsequenceVia(sub, s[..n], idx)
    ensures SubsequenceVia(sub + (if take then [s[n]] else []), s[..n + 1], idx + (if take then [n] else []))
  {
  }
}
