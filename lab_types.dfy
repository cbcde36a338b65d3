/** The records the extraction pipeline passes between its stages, with the string-valued
    enumerations of the TypeScript services closed into datatypes. */
module LabTypes {
  import opened Wrappers

  /** Where a value lies relative to its reference range: 'normal' | 'high' | 'low'. */
  datatype Status = Normal | High | Low

  /** How far outside the range a value lies: 'normal' | 'mild' | 'moderate' | 'critical' |
      'monitor' (the last is allowed by the type and never produced by the classifiers). */
  datatype Severity = Normal | Mild | Moderate | Critical | Monitor

  /** Overall follow-up urgency: 'critical' | 'urgent' | 'moderate' | 'routine'. */
  datatype Urgency = Critical | Urgent | Moderate | Routine

  /** A reference range `min-max`, both ends inclusive. */
  datatype Range = Range(min: real, max: real)

  /** One lab test found in a report. */
  datatype LabParameter = LabParameter(
    name: string,
    value: real,
    unit: string,
    normalRange: string,
    status: Status,
    severity: Severity)

  /** Patient metadata; `labName` is optional (`undefined` when no pattern matched). */
  datatype PatientInfo = PatientInfo(
    name: string,
    age: string,
    gender: string,
    reportDate: string,
    labName: Option<string>)

  /** The services' `p.status !== 'normal'` test. */
  predicate IsAbnormal(p: LabParameter) {
    p.status != Status.Normal
  }

  /** The `p.status === 'normal'` test. */
  predicate IsNormal(p: LabParameter) {
    p.status == Status.Normal
  }

  /** The `p.severity === 'critical'` test. */
  predicate HasCriticalSeverity(p: LabParameter) {
    p.severity == Severity.Critical
  }

  /** The `p.severity === 'moderate'` test. */
  predicate HasModerateSeverity(p: LabParameter) {
    p.severity == Severity.Moderate
  }

  /** Abnormal and critical: what survives filtering the abnormal parameters by severity. */
  predicate IsAbnormalCritical(p: LabParameter) {
    IsAbnormal(p) && HasCriticalSeverity(p)
  }

  /** Abnormal and of moderate severity. */
  predicate IsAbnormalModerate(p: LabParameter) {
    IsAbnormal(p) && HasModerateSeverity(p)
  }

  /** What the text parser hands to the recommendation services. */
  datatype ExtractedData = ExtractedData(patientInfo: PatientInfo, parameters: seq<LabParameter>)

  /** The text the TypeScript services use for a status (the keys of the explanation tables). */
  function StatusText(s: Status): string {
    match s
    case Normal => "normal"
    case High => "high"
    case Low => "low"
  }

  /** Order of the severities the classifiers produce: normal < mild < moderate < critical. */
  function SeverityRank(s: Severity): nat {
    match s
    case Normal => 0
    case Monitor => 0
    case Mild => 1
    case Moderate => 2
    case Critical => 3
  }

  /** Order of the urgency tiers: routine < moderate < urgent < critical. */
  function UrgencyRank(u: Urgency): nat {
    match u
    case Routine => 0
    case Moderate => 1
    case Urgent => 2
    case Critical => 3
  }
}
