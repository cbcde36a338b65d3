/** The basic doctor-visit recommendation: one cascade of urgency tiers over the classified
    parameters, and the next steps that go with each urgency. */
module DoctorRecommendation {
  import opened Wrappers
  import opened Strings
  import opened Numbers
  import opened LabTypes
  import opened Collections

  /** What `generateDoctorRecommendation` returns; this service only uses the urgencies
      routine, moderate and urgent. */
  datatype Recommendation = Recommendation(
    specialty: string,
    urgency: Urgency,
    reason: string,
    timeframe: string,
    nextSteps: seq<string>)

  const EmergencyMedicine := "Emergency Medicine"
  const GeneralPhysician := "General Physician"
  const CriticalReason := "Critical values detected. Immediate medical attention required."
  const MultipleReasonStart := "Multiple parameters ("
  const MultipleReasonEnd := ") are outside normal range."
  const MonitoringReason := "Some parameters need monitoring."
  const AllNormalReason := "All parameters are within normal limits."

  const UrgentSteps := [
    "Contact your healthcare provider immediately",
    "Do not delay seeking medical care",
    "Bring your complete lab report"]
  const ModerateSteps := [
    "Schedule an appointment with your doctor",
    "Prepare a list of current medications",
    "Note any symptoms or changes in health"]
  const RoutineSteps := [
    "Schedule a routine follow-up appointment",
    "Continue current healthy lifestyle",
    "Monitor overall health"]

  /** `getNextSteps`: three distinct steps, chosen by the urgency alone; the three lists have
      no step in common. */
  function NextSteps(urgency: Urgency): (steps: seq<string>)
    ensures |steps| == 3 && NoDuplicates(steps)
    ensures urgency == Urgency.Urgent ==> steps == UrgentSteps
    ensures urgency == Urgency.Moderate ==> steps == ModerateSteps
    ensures urgency != Urgency.Urgent && urgency != Urgency.Moderate ==> steps == RoutineSteps
  {
    match urgency
    case Urgent => UrgentSteps
    case Moderate => ModerateSteps
    case _ => RoutineSteps
  }

  /** The number of parameters whose status is not normal. */
  function AbnormalCount(parameters: seq<LabParameter>): nat {
    |Filter(IsAbnormal, parameters)|
  }

  /** The number of non-normal parameters whose severity is critical. */
  function CriticalCount(parameters: seq<LabParameter>): nat {
    |Filter(HasCriticalSeverity, Filter(IsAbnormal, parameters))|
  }

  /** `generateDoctorRecommendation`: critical values first, then more than three abnormal
      values, then any abnormal value, else the all-normal default. */
  function GenerateRecommendation(parameters: seq<LabParameter>): (r: Recommendation)
    ensures r.urgency != Urgency.Critical
    ensures r.nextSteps == NextSteps(r.urgency)
  {
    var abnormalCount := AbnormalCount(parameters);
    if CriticalCount(parameters) > 0 then
      Recommendation(EmergencyMedicine, Urgency.Urgent, CriticalReason, "Within 24-48 hours",
        NextSteps(Urgency.Urgent))
    else if abnormalCount > 3 then
      Recommendation(GeneralPhysician, Urgency.Moderate,
        MultipleReasonStart + NatToString(abnormalCount) + MultipleReasonEnd, "Within 1-2 weeks",
        NextSteps(Urgency.Moderate))
    else if abnormalCount > 0 then
      Recommendation(GeneralPhysician, Urgency.Routine, MonitoringReason, "Within 2-4 weeks",
        NextSteps(Urgency.Routine))
    else
      Recommendation(GeneralPhysician, Urgency.Routine, AllNormalReason, "Annual check-up",
        NextSteps(Urgency.Routine))
  }

  /** Some parameter is both out of range and of critical severity. */
  predicate HasCriticalAbnormal(parameters: seq<LabParameter>) {
    exists i :: 0 <= i < |parameters| && IsAbnormalCritical(parameters[i])
  }

  /** The critical count counts exactly the abnormal parameters of critical severity. */
  lemma CriticalCountIsFilter(parameters: seq<LabParameter>)
    ensures CriticalCount(parameters) == |Filter(IsAbnormalCritical, parameters)|
    ensures CriticalCount(parameters) > 0 <==> HasCriticalAbnormal(parameters)
  {
    FilterFilter(IsAbnormal, HasCriticalSeverity, IsAbnormalCritical, parameters);
    var both := Filter(IsAbnormalCritical, parameters);
    if |both| > 0 {
      assert both[0] in parameters;
    }
  }

  /** The abnormal count is zero exactly when every parameter is normal. */
  lemma AbnormalCountZero(parameters: seq<LabParameter>)
    ensures AbnormalCount(parameters) == 0 <==> forall i :: 0 <= i < |parameters| ==> IsNormal(parameters[i])
  {
    var abnormal := Filter(IsAbnormal, parameters);
    if |abnormal| > 0 {
      assert abnormal[0] in parameters;
    }
  }

  /** A critical abnormal value, and only that, makes the recommendation urgent, for
      Emergency Medicine within 24-48 hours. */
  lemma CriticalTier(parameters: seq<LabParameter>)
    ensures var r := GenerateRecommendation(parameters);
      && (r.urgency == Urgency.Urgent <==> HasCriticalAbnormal(parameters))
      && (r.urgency == Urgency.Urgent ==>
            r.specialty == EmergencyMedicine && r.timeframe == "Within 24-48 hours"
            && r.reason == CriticalReason && r.nextSteps == UrgentSteps)
  {
    CriticalCountIsFilter(parameters);
  }

  /** Without critical values, more than three abnormal values, and only that, make the
      recommendation moderate, within 1-2 weeks, with the abnormal count readable back from
      the reason. */
  lemma MultipleTier(parameters: seq<LabParameter>)
    ensures var r := GenerateRecommendation(parameters);
      && (r.urgency == Urgency.Moderate <==>
            !HasCriticalAbnormal(parameters) && AbnormalCount(parameters) > 3)
      && (r.urgency == Urgency.Moderate ==>
            && r.specialty == GeneralPhysician && r.timeframe == "Within 1-2 weeks"
            && r.reason[..|MultipleReasonStart|] == MultipleReasonStart
            && ParseInt(r.reason[|MultipleReasonStart|..]) == Some(AbnormalCount(parameters)))
  {
    CriticalCountIsFilter(parameters);
    var r := GenerateRecommendation(parameters);
    if r.urgency == Urgency.Moderate {
      ParseIntBetween(MultipleReasonStart, AbnormalCount(parameters), MultipleReasonEnd);
    }
  }

  /** One to three abnormal values and no critical one, and only that, give a routine
      follow-up within 2-4 weeks. */
  lemma MonitoringTier(parameters: seq<LabParameter>)
    ensures var r := GenerateRecommendation(parameters);
      && (r.timeframe == "Within 2-4 weeks" <==>
            !HasCriticalAbnormal(parameters) && 1 <= AbnormalCount(parameters) <= 3)
      && (r.timeframe == "Within 2-4 weeks" ==>
            r.urgency == Urgency.Routine && r.specialty == GeneralPhysician && r.reason == MonitoringReason)
  {
    CriticalCountIsFilter(parameters);
  }

  /** All parameters normal, the empty list included, and only that, give the annual
      check-up with a General Physician. */
  lemma AllNormalTier(parameters: seq<LabParameter>)
    ensures var r := GenerateRecommendation(parameters);
      && (r.timeframe == "Annual check-up" <==> forall i :: 0 <= i < |parameters| ==> IsNormal(parameters[i]))
      && (r.timeframe == "Annual check-up" ==>
            r.urgency == Urgency.Routine && r.specialty == GeneralPhysician
            && r.reason == AllNormalReason && r.nextSteps == RoutineSteps)
  {
    CriticalCountIsFilter(parameters);
    AbnormalCountZero(parameters);
    if AbnormalCount(parameters) == 0 {
      assert Filter(HasCriticalSeverity, Filter(IsAbnormal, parameters)) == [];
    }
  }

  /** A normal parameter never counts, whatever its severity: inserting one anywhere leaves
      the recommendation as it was. */
  lemma NormalNeverCounts(parameters: seq<LabParameter>, i: nat, p: LabParameter)
    requires i <= |parameters| && IsNormal(p)
    ensures GenerateRecommendation(parameters[..i] + [p] + parameters[i..]) == GenerateRecommendation(parameters)
  {
    FilterSkips(IsAbnormal, parameters, i, p);
  }

  /** Inserting a critical abnormal parameter anywhere makes the recommendation urgent. */
  lemma CriticalMakesUrgent(parameters: seq<LabParameter>, i: nat, p: LabParameter)
    requires i <= |parameters| && IsAbnormalCritical(p)
    ensures GenerateRecommendation(parameters[..i] + [p] + parameters[i..]).urgency == Urgency.Urgent
  {
    var more := parameters[..i] + [p] + parameters[i..];
    assert more[i] == p;
    CriticalTier(more);
  }

  /** Inserting any parameter never lowers the urgency. */
  lemma UrgencyMonotone(parameters: seq<LabParameter>, i: nat, p: LabParameter)
    requires i <= |parameters|
    ensures UrgencyRank(GenerateRecommendation(parameters).urgency)
         <= UrgencyRank(GenerateRecommendation(parameters[..i] + [p] + parameters[i..]).urgency)
  {
    var more := parameters[..i] + [p] + parameters[i..];
    FilterGrows(IsAbnormal, parameters, i, p);
    FilterGrows(IsAbnormalCritical, parameters, i, p);
    CriticalCountIsFilter(parameters);
    CriticalCountIsFilter(more);
  }
}
