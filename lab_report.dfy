/** `parseLabReport`: the patient information and the lab parameters read from one report
    text, and what the recommendation services can rely on in such a report. */
module LabReport {
  import opened Wrappers
  import opened Numbers
  import opened LabTypes
  import opened Collections
  import opened ParameterExtractor
  import opened PatientInfoExtractor
  import DoctorRecommendation
  import AdvancedRecommendation

  /** `parseLabReport`, with the clock's date and the two pattern matchers passed in. */
  function ParseLabReport(text: string, today: string, pm: PatternMatcher, m: Matcher): ExtractedData {
    ExtractedData(PatientInfoOf(text, today, pm), Extract(text, m))
  }

  /** In a parsed report every value is positive, and a parameter's severity is normal exactly
      when its status is, and never 'monitor'. */
  lemma ParsedClassification(text: string, today: string, pm: PatternMatcher, m: Matcher)
    ensures var ps := ParseLabReport(text, today, pm, m).parameters;
      forall i :: 0 <= i < |ps| ==>
        ps[i].value > 0.0 && (IsNormal(ps[i]) <==> ps[i].severity == Severity.Normal)
        && ps[i].severity != Severity.Monitor
  {
    ExtractKeeps(text, m);
  }

  /** For a parsed report the basic service's status test is redundant: its critical count is
      the number of parameters of critical severity. */
  lemma ParsedCriticalCount(text: string, today: string, pm: PatternMatcher, m: Matcher)
    ensures var ps := ParseLabReport(text, today, pm, m).parameters;
      DoctorRecommendation.CriticalCount(ps) == |Filter(HasCriticalSeverity, ps)|
  {
    var ps := ParseLabReport(text, today, pm, m).parameters;
    ParsedClassification(text, today, pm, m);
    DoctorRecommendation.CriticalCountIsFilter(ps);
    FilterAgree(IsAbnormalCritical, HasCriticalSeverity, ps);
  }

  /** The structured summary's age of a parsed report: 0 for an unknown age, otherwise the
      extracted age, between 1 and 149. */
  lemma ParsedSummaryAge(text: string, today: string, pm: PatternMatcher, m: Matcher)
    ensures var info := ParseLabReport(text, today, pm, m).patientInfo;
      var age := AdvancedRecommendation.PatientSummaryOf(info).age;
      && (info.age == "Unknown" ==> age == 0)
      && (info.age != "Unknown" ==> 0 < age < 150 && info.age == NatToString(age) + " YRS")
  {
    var info := ParseLabReport(text, today, pm, m).patientInfo;
    AgeShape(text, today, pm);
    if info.age == "Unknown" {
      AdvancedRecommendation.SummaryAgeOfExtractedAge(info, 0);
    } else {
      var n: nat :| 0 < n < 150 && info.age == NatToString(n) + " YRS";
      AdvancedRecommendation.SummaryAgeOfExtractedAge(info, n);
    }
  }
}
