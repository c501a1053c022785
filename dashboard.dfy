/**
 * The dashboard derivations of components/AnalysisPanel.tsx: the severity
 * counts, the risk label and the estimated fix time.
 */
module Dashboard {

  /** A finding of the audit (a Vulnerability of types.ts). The severity is whatever text the model returned. */
  datatype Vulnerability = Vulnerability(
    id: string, name: string, severity: string, description: string,
    mitigation: string, businessImpact: string, exploitability: string)

  datatype SeverityCounts = SeverityCounts(critical: nat, high: nat, medium: nat, low: nat)

  predicate InSeverityEnum(sev: string) {
    sev == "Critical" || sev == "High" || sev == "Medium" || sev == "Low"
  }

  /** `vs.filter(v => v.severity === sev).length`. */
  function CountSeverity(vs: seq<Vulnerability>, sev: string): (n: nat)
    ensures n <= |vs|
    ensures n == 0 <==> forall i :: 0 <= i < |vs| ==> vs[i].severity != sev
    ensures n == |vs| <==> forall i :: 0 <= i < |vs| ==> vs[i].severity == sev
    decreases |vs|
  {
    if vs == [] then 0
    else CountSeverity(vs[1..], sev) + (if vs[0].severity == sev then 1 else 0)
  }

  /** Counting over a concatenation adds the counts of the parts. */
  lemma {:induction false} CountSeverityAppend(a: seq<Vulnerability>, b: seq<Vulnerability>, sev: string)
    ensures CountSeverity(a + b, sev) == CountSeverity(a, sev) + CountSeverity(b, sev)
    decreases |a|
  {
    if a != [] {
      assert (a + b)[0] == a[0] && (a + b)[1..] == a[1..] + b;
      CountSeverityAppend(a[1..], b, sev);
    } else {
      assert a + b == b;
    }
  }

  /** vulnCounts: one count per severity of the enum. */
  function VulnCounts(vs: seq<Vulnerability>): (c: SeverityCounts)
    ensures c.critical <= |vs| && c.high <= |vs| && c.medium <= |vs| && c.low <= |vs|
  {
    SeverityCounts(CountSeverity(vs, "Critical"), CountSeverity(vs, "High"),
                   CountSeverity(vs, "Medium"), CountSeverity(vs, "Low"))
  }

  function Sum(c: SeverityCounts): nat {
    c.critical + c.high + c.medium + c.low
  }

  /** The first finding adds one to the total of the counts exactly when its severity is in the enum. */
  lemma CountsStep(vs: seq<Vulnerability>)
    requires vs != []
    ensures Sum(VulnCounts(vs)) == Sum(VulnCounts(vs[1..])) + (if InSeverityEnum(vs[0].severity) then 1 else 0)
  {
    var sev := vs[0].severity;
    assert CountSeverity(vs, "Critical") == CountSeverity(vs[1..], "Critical") + (if sev == "Critical" then 1 else 0);
    assert CountSeverity(vs, "High") == CountSeverity(vs[1..], "High") + (if sev == "High" then 1 else 0);
    assert CountSeverity(vs, "Medium") == CountSeverity(vs[1..], "Medium") + (if sev == "Medium" then 1 else 0);
    assert CountSeverity(vs, "Low") == CountSeverity(vs[1..], "Low") + (if sev == "Low" then 1 else 0);
  }

  /** Every severity of `vs` is one of the enum. */
  predicate AllInEnum(vs: seq<Vulnerability>) {
    forall i :: 0 <= i < |vs| ==> InSeverityEnum(vs[i].severity)
  }

  lemma AllInEnumStep(vs: seq<Vulnerability>)
    requires vs != []
    ensures AllInEnum(vs) <==> InSeverityEnum(vs[0].severity) && AllInEnum(vs[1..])
  {
    if InSeverityEnum(vs[0].severity) && AllInEnum(vs[1..]) {
      forall i | 1 <= i < |vs| ensures InSeverityEnum(vs[i].severity) {
        assert vs[i] == vs[1..][i - 1];
      }
    }
  }

  /**
   * The four counts never exceed the total, and they add up to it exactly when
   * every severity is one of the enum.
   */
  lemma {:induction false} CountsSumToTotal(vs: seq<Vulnerability>)
    ensures Sum(VulnCounts(vs)) <= |vs|
    ensures Sum(VulnCounts(vs)) == |vs| <==> AllInEnum(vs)
    decreases |vs|
  {
    if vs != [] {
      CountsSumToTotal(vs[1..]);
      CountsStep(vs);
      AllInEnumStep(vs);
    }
  }

  const CriticalRisk: string := "Critical Risk"
  const HighRisk: string := "High Risk"
  const ModerateRisk: string := "Moderate"
  const Secure: string := "Secure"

  /** The position of a label on the scale from worst to best. */
  function LabelRank(l: string): nat {
    if l == CriticalRisk then 0
    else if l == HighRisk then 1
    else if l == ModerateRisk then 2
    else 3
  }

  /** riskLabel of the security score. */
  function RiskLabel(score: real): (r: string)
    ensures r in {CriticalRisk, HighRisk, ModerateRisk, Secure}
    ensures r == CriticalRisk <==> score < 50.0
    ensures r == HighRisk <==> 50.0 <= score < 75.0
    ensures r == ModerateRisk <==> 75.0 <= score < 90.0
    ensures r == Secure <==> score >= 90.0
  {
    if score < 50.0 then CriticalRisk
    else if score < 75.0 then HighRisk
    else if score < 90.0 then ModerateRisk
    else Secure
  }

  /** A higher score never yields a worse label. */
  lemma RiskLabelMonotone(a: real, b: real)
    requires a <= b
    ensures LabelRank(RiskLabel(a)) <= LabelRank(RiskLabel(b))
  {
  }

  /** `Math.ceil(totalVulns * 0.5)`: the fewest whole hours covering half an hour per finding. */
  function RemediationHours(total: nat): (h: nat)
    ensures 2 * h >= total
    ensures 2 * h < total + 2
  {
    (total + 1) / 2
  }

  /** The estimate is monotone and adds one hour for every two findings. */
  lemma RemediationHoursSteps(total: nat)
    ensures RemediationHours(total) <= RemediationHours(total + 1)
    ensures RemediationHours(total + 2) == RemediationHours(total) + 1
  {
  }
}
