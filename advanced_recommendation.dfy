/** The advanced recommendation: a structured summary of the abnormal parameters (urgency
    level, key abnormalities, specific and condition-based recommendations, critical notes)
    and, on top of it, the enhanced doctor recommendation (specialty, severity, reason,
    timeframe, next steps and four advice lists). */
module AdvancedRecommendation {
  import opened Wrappers
  import opened Strings
  import opened Numbers
  import opened LabTypes
  import opened Collections
  import DoctorRecommendation

  /** `name.toLowerCase().includes(word)`. */
  predicate Mentions(name: string, word: string) {
    Contains(Lower(name), word)
  }

  // ---------------------------------------------------------------- urgency level

  /** The overall urgency: critical if an abnormal parameter is critical, else urgent if more
      than two abnormal parameters are of moderate severity, else moderate if any parameter
      is abnormal, else routine. */
  function UrgencyLevel(parameters: seq<LabParameter>): Urgency {
    var abnormal := Filter(IsAbnormal, parameters);
    if |Filter(HasCriticalSeverity, abnormal)| > 0 then Urgency.Critical
    else if |Filter(HasModerateSeverity, abnormal)| > 2 then Urgency.Urgent
    else if |abnormal| > 0 then Urgency.Moderate
    else Urgency.Routine
  }

  /** The first rule that applies decides the urgency level. */
  lemma UrgencyTiers(parameters: seq<LabParameter>)
    ensures var u := UrgencyLevel(parameters);
      && (u == Urgency.Critical <==> exists i :: 0 <= i < |parameters| && IsAbnormalCritical(parameters[i]))
      && (u == Urgency.Urgent <==>
            u != Urgency.Critical && |Filter(IsAbnormalModerate, parameters)| > 2)
      && (u == Urgency.Routine <==> forall i :: 0 <= i < |parameters| ==> IsNormal(parameters[i]))
  {
    FilterFilter(IsAbnormal, HasCriticalSeverity, IsAbnormalCritical, parameters);
    FilterFilter(IsAbnormal, HasModerateSeverity, IsAbnormalModerate, parameters);
    FilterNonEmpty(IsAbnormalCritical, parameters);
    FilterNonEmpty(IsAbnormal, parameters);
    if |Filter(IsAbnormalModerate, parameters)| > 2 {
      assert |Filter(IsAbnormal, parameters)| > 0 by {
        FilterNonEmpty(IsAbnormalModerate, parameters);
      }
    }
  }

  /** Inserting a parameter anywhere never lowers the urgency level. */
  lemma UrgencyLevelMonotone(parameters: seq<LabParameter>, i: nat, p: LabParameter)
    requires i <= |parameters|
    ensures UrgencyRank(UrgencyLevel(parameters))
         <= UrgencyRank(UrgencyLevel(parameters[..i] + [p] + parameters[i..]))
  {
    var more := parameters[..i] + [p] + parameters[i..];
    FilterGrows(IsAbnormal, parameters, i, p);
    FilterGrows(IsAbnormalCritical, parameters, i, p);
    FilterGrows(IsAbnormalModerate, parameters, i, p);
    FilterFilter(IsAbnormal, HasCriticalSeverity, IsAbnormalCritical, parameters);
    FilterFilter(IsAbnormal, HasModerateSeverity, IsAbnormalModerate, parameters);
    FilterFilter(IsAbnormal, HasCriticalSeverity, IsAbnormalCritical, more);
    FilterFilter(IsAbnormal, HasModerateSeverity, IsAbnormalModerate, more);
  }

  // ---------------------------------------------------------------- key abnormalities

  /** `mapSeverity`: critical stays critical, moderate becomes urgent, mild becomes moderate,
      anything else routine; the mapping keeps the order of the severities. */
  function MapSeverity(severity: Severity): (u: Urgency)
    ensures UrgencyRank(u) == SeverityRank(severity)
  {
    match severity
    case Critical => Urgency.Critical
    case Moderate => Urgency.Urgent
    case Mild => Urgency.Moderate
    case _ => Urgency.Routine
  }

  const HemoglobinLowSignificance := "Indicates anemia, may cause fatigue and reduced oxygen delivery"
  const HemoglobinHighSignificance := "May indicate dehydration or polycythemia, increases blood viscosity"
  const GlucoseHighSignificance := "Suggests diabetes or prediabetes, increases cardiovascular risk"
  const GlucoseLowSignificance := "May cause hypoglycemic symptoms, requires immediate attention"
  const CreatinineHighSignificance := "Indicates reduced kidney function, may require nephrology consultation"
  const CholesterolHighSignificance := "Increases cardiovascular disease risk, lifestyle modification needed"
  const WhiteCellHighSignificance := "May indicate infection, inflammation, or hematologic disorder"
  const WhiteCellLowSignificance := "Suggests immunosuppression or bone marrow dysfunction"

  /** The entries of the clinical-significance table, by exact name and status. */
  function SignificanceEntry(name: string, status: Status): (r: Option<string>)
    ensures r.Some? ==> |r.value| > 0
  {
    if name == "Hemoglobin" && status == Status.Low then Some(HemoglobinLowSignificance)
    else if name == "Hemoglobin" && status == Status.High then Some(HemoglobinHighSignificance)
    else if name == "Glucose" && status == Status.High then Some(GlucoseHighSignificance)
    else if name == "Glucose" && status == Status.Low then Some(GlucoseLowSignificance)
    else if name == "Creatinine" && status == Status.High then Some(CreatinineHighSignificance)
    else if name == "Cholesterol" && status == Status.High then Some(CholesterolHighSignificance)
    else if name == "White Blood Cell" && status == Status.High then Some(WhiteCellHighSignificance)
    else if name == "White Blood Cell" && status == Status.Low then Some(WhiteCellLowSignificance)
    else None
  }

  /** `getClinicalSignificance`: the table's text, or `<status> <name> requires clinical
      evaluation` for a name and status the table lacks. */
  function ClinicalSignificance(name: string, status: Status): (r: string)
    ensures |r| > 0
    ensures SignificanceEntry(name, status).None? ==> Contains(r, name)
  {
    match SignificanceEntry(name, status)
    case Some(text) => text
    case None =>
      var r := StatusText(status) + " " + name + " requires clinical evaluation";
      ContainsInfix(r, |StatusText(status)| + 1, |StatusText(status)| + 1 + |name|);
      assert r[|StatusText(status)| + 1..|StatusText(status)| + 1 + |name|] == name;
      r
  }

  /** The table holds exactly eight (name, status) pairs; "Cholesterol" and "Creatinine" only
      for high values. */
  lemma SignificanceKeys(name: string, status: Status)
    ensures SignificanceEntry(name, status).Some? <==>
      || (name in {"Hemoglobin", "Glucose", "White Blood Cell"} && status != Status.Normal)
      || (name in {"Creatinine", "Cholesterol"} && status == Status.High)
  {
  }

  /** One entry of `keyAbnormalities`. The displayed result `${value} ${unit}` is kept as the
      value and the unit it is made of. */
  datatype KeyAbnormality = KeyAbnormality(
    testName: string,
    value: real,
    unit: string,
    clinicalSignificance: string,
    severity: Urgency)

  function KeyAbnormalityOf(p: LabParameter): KeyAbnormality {
    KeyAbnormality(p.name, p.value, p.unit, ClinicalSignificance(p.name, p.status), MapSeverity(p.severity))
  }

  /** `identifyKeyAbnormalities`: one entry per abnormal parameter, in order. */
  function KeyAbnormalities(abnormal: seq<LabParameter>): (r: seq<KeyAbnormality>)
    ensures |r| == |abnormal|
    ensures forall i :: 0 <= i < |r| ==>
      && r[i].testName == abnormal[i].name
      && r[i].value == abnormal[i].value
      && r[i].unit == abnormal[i].unit
      && r[i].clinicalSignificance == ClinicalSignificance(abnormal[i].name, abnormal[i].status)
      && r[i].severity == MapSeverity(abnormal[i].severity)
      && UrgencyRank(r[i].severity) == SeverityRank(abnormal[i].severity)
  {
    Map(KeyAbnormalityOf, abnormal)
  }

  predicate IsCriticalAbnormality(a: KeyAbnormality) {
    a.severity == Urgency.Critical
  }

  /** The critical key abnormalities are exactly as many as the critical parameters. */
  lemma KeyCriticalCount(abnormal: seq<LabParameter>)
    ensures |Filter(IsCriticalAbnormality, KeyAbnormalities(abnormal))| == |Filter(HasCriticalSeverity, abnormal)|
  {
    FilterMapCount(KeyAbnormalityOf, IsCriticalAbnormality, HasCriticalSeverity, abnormal);
  }

  // ---------------------------------------------------------------- specific recommendations

  const HemoglobinLowAdvice := [
    "Iron supplementation as recommended by physician",
    "Increase iron-rich foods (spinach, red meat, beans)",
    "Vitamin C supplementation to enhance iron absorption",
    "Follow-up CBC in 4-6 weeks"]
  const HemoglobinHighAdvice := [
    "Increase fluid intake",
    "Monitor blood pressure regularly",
    "Avoid smoking and alcohol",
    "Consider phlebotomy if indicated"]
  const GlucoseHighAdvice := [
    "Initiate or adjust diabetes medication as prescribed",
    "Monitor blood glucose levels daily",
    "Dietary consultation for carbohydrate management",
    "Regular exercise as tolerated",
    "HbA1c testing in 3 months"]
  const GlucoseLowAdvice := [
    "Carry glucose tablets or quick-acting carbohydrates",
    "Eat regular meals with complex carbohydrates",
    "Monitor blood glucose before driving",
    "Review diabetes medications with physician"]
  const CreatinineHighAdvice := [
    "Nephrology consultation if GFR <60",
    "Monitor blood pressure closely",
    "Avoid nephrotoxic medications (NSAIDs)",
    "Protein restriction if indicated",
    "Repeat kidney function tests in 2-4 weeks"]

  /** `getParameterSpecificRecommendations`: the table's list for the exact name and status, or
      the one item `Monitor <name> levels closely`. */
  function ParameterAdvice(p: LabParameter): (r: seq<string>)
    ensures |r| >= 1
  {
    if p.name == "Hemoglobin" && p.status == Status.Low then HemoglobinLowAdvice
    else if p.name == "Hemoglobin" && p.status == Status.High then HemoglobinHighAdvice
    else if p.name == "Glucose" && p.status == Status.High then GlucoseHighAdvice
    else if p.name == "Glucose" && p.status == Status.Low then GlucoseLowAdvice
    else if p.name == "Creatinine" && p.status == Status.High then CreatinineHighAdvice
    else ["Monitor " + p.name + " levels closely"]
  }

  /** The fallback item is used exactly for the names and statuses the table lacks. */
  lemma ParameterAdviceFallback(p: LabParameter)
    ensures ParameterAdvice(p) == ["Monitor " + p.name + " levels closely"] <==>
      !((p.name == "Hemoglobin" || p.name == "Glucose") && p.status != Status.Normal)
      && !(p.name == "Creatinine" && p.status == Status.High)
  {
  }

  const SeekCareNow := "Seek immediate medical attention within 24 hours"
  const CallEmergency := "Contact emergency services if symptoms worsen"
  const BookSoon := "Schedule appointment with healthcare provider within 48-72 hours"

  /** The list before de-duplication: every parameter's advice in order, framed by the
      urgency items. */
  function UrgencyFramed(pushed: seq<string>, urgency: Urgency): seq<string> {
    if urgency == Urgency.Critical then [SeekCareNow] + pushed + [CallEmergency]
    else if urgency == Urgency.Urgent then [BookSoon] + pushed
    else pushed
  }

  /** `generateSpecificRecommendations`, as a value. */
  function SpecificRecommendations(abnormal: seq<LabParameter>, urgency: Urgency): seq<string> {
    Distinct(UrgencyFramed(FlatMap(ParameterAdvice, abnormal), urgency))
  }

  /** `generateSpecificRecommendations`: push each parameter's advice, put the urgency items in
      front (and, when critical, at the end), then drop repeats. */
  method GenerateSpecificRecommendations(abnormal: seq<LabParameter>, urgency: Urgency)
    returns (recommendations: seq<string>)
    ensures recommendations == SpecificRecommendations(abnormal, urgency)
  {
    var pushed: seq<string> := [];
    for i := 0 to |abnormal|
      invariant pushed == FlatMap(ParameterAdvice, abnormal[..i])
    {
      FlatMapStep(ParameterAdvice, abnormal, i);
      pushed := pushed + ParameterAdvice(abnormal[i]);
    }
    assert abnormal[..|abnormal|] == abnormal;
    if urgency == Urgency.Critical {
      pushed := [SeekCareNow] + pushed;
      pushed := pushed + [CallEmergency];
    } else if urgency == Urgency.Urgent {
      pushed := [BookSoon] + pushed;
    }
    recommendations := Distinct(pushed);
  }

  /** The specific recommendations have no repeats; a critical urgency puts "Seek immediate
      medical attention" first and keeps the emergency-services item, an urgent one puts the
      48-72 hour appointment first; every advice item of every abnormal parameter is in the
      list, and everything else in it is one of those urgency items. */
  lemma SpecificRecommendationsShape(abnormal: seq<LabParameter>, urgency: Urgency, y: string)
    ensures var r := SpecificRecommendations(abnormal, urgency);
      && NoDuplicates(r)
      && (urgency == Urgency.Critical ==> r != [] && r[0] == SeekCareNow && CallEmergency in r)
      && (urgency == Urgency.Urgent ==> r != [] && r[0] == BookSoon)
      && (y in r && y != SeekCareNow && y != CallEmergency && y != BookSoon ==>
            exists i :: 0 <= i < |abnormal| && y in ParameterAdvice(abnormal[i]))
      && (forall i :: 0 <= i < |abnormal| && y in ParameterAdvice(abnormal[i]) ==> y in r)
  {
    var pushed := FlatMap(ParameterAdvice, abnormal);
    var all := UrgencyFramed(pushed, urgency);
    var r := Distinct(all);
    if all != [] {
      DistinctHead(all);
    }
    if urgency == Urgency.Critical {
      assert CallEmergency == all[|all| - 1];
    }
    if y in r && y != SeekCareNow && y != CallEmergency && y != BookSoon {
      var j :| 0 <= j < |r| && r[j] == y;
      assert y in all;
      assert y in pushed;
      FlatMapMembers(ParameterAdvice, abnormal, y);
    }
    if exists i :: 0 <= i < |abnormal| && y in ParameterAdvice(abnormal[i]) {
      FlatMapMembers(ParameterAdvice, abnormal, y);
      var j :| 0 <= j < |pushed| && pushed[j] == y;
      assert y in all;
    }
  }

  // ---------------------------------------------------------------- condition-based plans

  const DiabetesKey := "Diabetes Management"
  const AnemiaKey := "Anemia Management"
  const CardiovascularKey := "Cardiovascular Risk"

  const DiabetesPlan := [
    "Annual diabetic eye examination",
    "Foot care and daily inspection",
    "Blood pressure monitoring",
    "Lipid profile every 6 months",
    "Kidney function monitoring"]
  const AnemiaPlan := [
    "Iron studies if not already done",
    "B12 and folate levels",
    "Stool occult blood test",
    "Dietary iron supplementation",
    "Monitor for underlying causes"]
  const CardiovascularPlan := [
    "Low saturated fat diet",
    "Regular aerobic exercise",
    "Smoking cessation if applicable",
    "Blood pressure monitoring",
    "Consider statin therapy"]

  predicate SuggestsDiabetes(p: LabParameter) {
    Mentions(p.name, "glucose") || Mentions(p.name, "hba1c")
  }

  predicate SuggestsAnemia(p: LabParameter) {
    Mentions(p.name, "hemoglobin") && p.status == Status.Low
  }

  predicate SuggestsCardiovascularRisk(p: LabParameter) {
    Mentions(p.name, "cholesterol") || Mentions(p.name, "ldl") || Mentions(p.name, "hdl")
  }

  /** Each condition's plan is present exactly when some abnormal parameter suggests the
      condition, and there is no other key. */
  predicate PlansFor(abnormal: seq<LabParameter>, conditions: map<string, seq<string>>) {
    && (DiabetesKey in conditions <==> exists i :: 0 <= i < |abnormal| && SuggestsDiabetes(abnormal[i]))
    && (AnemiaKey in conditions <==> exists i :: 0 <= i < |abnormal| && SuggestsAnemia(abnormal[i]))
    && (CardiovascularKey in conditions <==>
          exists i :: 0 <= i < |abnormal| && SuggestsCardiovascularRisk(abnormal[i]))
    && (DiabetesKey in conditions ==> conditions[DiabetesKey] == DiabetesPlan)
    && (AnemiaKey in conditions ==> conditions[AnemiaKey] == AnemiaPlan)
    && (CardiovascularKey in conditions ==> conditions[CardiovascularKey] == CardiovascularPlan)
    && conditions.Keys <= {DiabetesKey, AnemiaKey, CardiovascularKey}
  }

  /** `generateConditionBasedRecommendations`: the record filled key by key. */
  method GenerateConditionRecommendations(abnormal: seq<LabParameter>)
    returns (conditions: map<string, seq<string>>)
    ensures PlansFor(abnormal, conditions)
  {
    conditions := map[];
    FilterNonEmpty(SuggestsDiabetes, abnormal);
    FilterNonEmpty(SuggestsAnemia, abnormal);
    FilterNonEmpty(SuggestsCardiovascularRisk, abnormal);
    if |Filter(SuggestsDiabetes, abnormal)| > 0 {
      conditions := conditions[DiabetesKey := DiabetesPlan];
    }
    if |Filter(SuggestsAnemia, abnormal)| > 0 {
      conditions := conditions[AnemiaKey := AnemiaPlan];
    }
    if |Filter(SuggestsCardiovascularRisk, abnormal)| > 0 {
      conditions := conditions[CardiovascularKey := CardiovascularPlan];
    }
  }

  // ---------------------------------------------------------------- critical notes

  const BaseNotes := [
    "All recommendations should be correlated with clinical symptoms and patient history",
    "Repeat abnormal tests to confirm results before major treatment changes",
    "Consider medication interactions and patient allergies before prescribing"]
  const CreatinineNote := "Creatinine elevation may affect drug dosing - adjust medications as needed"
  const GlucoseNote := "Severe hyperglycemia may indicate diabetic ketoacidosis - check ketones"
  const HemoglobinNote := "Severe anemia may require blood transfusion - assess symptoms urgently"
  const SpecificNotes := [CreatinineNote, GlucoseNote, HemoglobinNote]

  predicate RaisedCreatinine(p: LabParameter) {
    Mentions(p.name, "creatinine") && p.status == Status.High
  }

  predicate CriticalGlucose(p: LabParameter) {
    Mentions(p.name, "glucose") && p.severity == Severity.Critical
  }

  predicate CriticalHemoglobin(p: LabParameter) {
    Mentions(p.name, "hemoglobin") && p.severity == Severity.Critical
  }

  /** The notes one parameter adds. */
  function NoteItems(p: LabParameter): seq<string> {
    (if RaisedCreatinine(p) then [CreatinineNote] else [])
    + (if CriticalGlucose(p) then [GlucoseNote] else [])
    + (if CriticalHemoglobin(p) then [HemoglobinNote] else [])
  }

  /** `generateCriticalNotes`, as a value. */
  function CriticalNotes(abnormal: seq<LabParameter>): seq<string> {
    Distinct(BaseNotes + FlatMap(NoteItems, abnormal))
  }

  /** `generateCriticalNotes`: the three standing notes, then each parameter's notes, then
      repeats dropped. */
  method GenerateCriticalNotes(abnormal: seq<LabParameter>) returns (notes: seq<string>)
    ensures notes == CriticalNotes(abnormal)
  {
    notes := BaseNotes;
    for i := 0 to |abnormal|
      invariant notes == BaseNotes + FlatMap(NoteItems, abnormal[..i])
    {
      notes := PushNotesFor(notes, abnormal[i]);
      FlatMapStep(NoteItems, abnormal, i);
    }
    assert abnormal[..|abnormal|] == abnormal;
    notes := Distinct(notes);
  }

  /** The body of the `forEach`: raised creatinine, critical glucose and critical hemoglobin
      each push their note. */
  method PushNotesFor(notes: seq<string>, p: LabParameter) returns (grown: seq<string>)
    ensures grown == notes + NoteItems(p)
  {
    grown := notes;
    if Mentions(p.name, "creatinine") && p.status == Status.High {
      grown := grown + [CreatinineNote];
    }
    if Mentions(p.name, "glucose") && p.severity == Severity.Critical {
      grown := grown + [GlucoseNote];
    }
    if Mentions(p.name, "hemoglobin") && p.severity == Severity.Critical {
      grown := grown + [HemoglobinNote];
    }
  }

  /** Each parameter-specific note is pushed exactly by the parameters that call for it, and
      none of them is a standing note. */
  lemma NoteItemsMembers(p: LabParameter)
    ensures CreatinineNote in NoteItems(p) <==> RaisedCreatinine(p)
    ensures GlucoseNote in NoteItems(p) <==> CriticalGlucose(p)
    ensures HemoglobinNote in NoteItems(p) <==> CriticalHemoglobin(p)
    ensures NoDuplicates(BaseNotes)
    ensures CreatinineNote !in BaseNotes && GlucoseNote !in BaseNotes && HemoglobinNote !in BaseNotes
  {
    assert |CreatinineNote| == 74 && |GlucoseNote| == 71 && |HemoglobinNote| == 70;
    assert |BaseNotes[0]| == 83 && |BaseNotes[1]| == 71 && |BaseNotes[2]| == 73;
    assert GlucoseNote[68] != BaseNotes[1][68];
  }

  /** The critical notes have no repeats and start with the three standing notes in order. */
  lemma CriticalNotesStartWithBase(abnormal: seq<LabParameter>)
    ensures var r := CriticalNotes(abnormal);
      NoDuplicates(r) && 3 <= |r| && r[..3] == BaseNotes
  {
    NoteItemsMembers(if abnormal == [] then LabParameter("", 0.0, "", "", Status.Normal, Severity.Normal) else abnormal[0]);
    DistinctKeepsBase(BaseNotes, FlatMap(NoteItems, abnormal));
  }

  /** Each parameter-specific note is among the critical notes exactly when some parameter
      calls for it, and no other note appears. */
  lemma CriticalNotesMembers(abnormal: seq<LabParameter>)
    ensures var r := CriticalNotes(abnormal);
      && (CreatinineNote in r <==> exists i :: 0 <= i < |abnormal| && RaisedCreatinine(abnormal[i]))
      && (GlucoseNote in r <==> exists i :: 0 <= i < |abnormal| && CriticalGlucose(abnormal[i]))
      && (HemoglobinNote in r <==> exists i :: 0 <= i < |abnormal| && CriticalHemoglobin(abnormal[i]))
      && (forall y :: y in r ==> y in BaseNotes || y in SpecificNotes)
  {
    forall p: LabParameter, y | y in NoteItems(p) ensures y in SpecificNotes {
    }
    PushedWithin(BaseNotes, NoteItems, abnormal, SpecificNotes);
    forall p: LabParameter ensures CreatinineNote in NoteItems(p) <==> RaisedCreatinine(p) {
      NoteItemsMembers(p);
    }
    forall p: LabParameter ensures GlucoseNote in NoteItems(p) <==> CriticalGlucose(p) {
      NoteItemsMembers(p);
    }
    forall p: LabParameter ensures HemoglobinNote in NoteItems(p) <==> CriticalHemoglobin(p) {
      NoteItemsMembers(p);
    }
    NoteItemsMembers(if abnormal == [] then LabParameter("", 0.0, "", "", Status.Normal, Severity.Normal) else abnormal[0]);
    PushedMember(BaseNotes, NoteItems, abnormal, CreatinineNote, RaisedCreatinine);
    PushedMember(BaseNotes, NoteItems, abnormal, GlucoseNote, CriticalGlucose);
    PushedMember(BaseNotes, NoteItems, abnormal, HemoglobinNote, CriticalHemoglobin);
  }

  // ---------------------------------------------------------------- immediate actions

  const ContactProviderAction := "Contact healthcare provider immediately"
  const WatchSymptomsAction := "Monitor symptoms closely"
  const EmergencyContactAction := "Have emergency contact information ready"
  const CriticalActions := [ContactProviderAction, WatchSymptomsAction, EmergencyContactAction]
  const CheckGlucoseAction := "Check blood glucose levels frequently"
  const AnemiaSignsAction := "Monitor for signs of severe anemia (dizziness, shortness of breath)"
  const FindingActions := [CheckGlucoseAction, AnemiaSignsAction]

  predicate CriticalGlucoseFinding(a: KeyAbnormality) {
    a.severity == Urgency.Critical && Mentions(a.testName, "glucose")
  }

  predicate CriticalHemoglobinFinding(a: KeyAbnormality) {
    a.severity == Urgency.Critical && Mentions(a.testName, "hemoglobin")
  }

  /** The actions every critical urgency starts with. */
  function ActionBase(urgency: Urgency): seq<string> {
    if urgency == Urgency.Critical then CriticalActions else []
  }

  /** The actions one key abnormality adds. */
  function ActionItems(a: KeyAbnormality): seq<string> {
    (if CriticalGlucoseFinding(a) then [CheckGlucoseAction] else [])
    + (if CriticalHemoglobinFinding(a) then [AnemiaSignsAction] else [])
  }

  /** `getImmediateActions`, as a value. */
  function ImmediateActions(urgency: Urgency, abnormalities: seq<KeyAbnormality>): seq<string> {
    Distinct(ActionBase(urgency) + FlatMap(ActionItems, abnormalities))
  }

  /** `getImmediateActions`: three standing actions when critical, then the actions of each
      critical glucose or hemoglobin finding, then repeats dropped. */
  method GetImmediateActions(urgency: Urgency, abnormalities: seq<KeyAbnormality>)
    returns (actions: seq<string>)
    ensures actions == ImmediateActions(urgency, abnormalities)
  {
    actions := [];
    if urgency == Urgency.Critical {
      actions := actions + [ContactProviderAction];
      actions := actions + [WatchSymptomsAction];
      actions := actions + [EmergencyContactAction];
    }
    for i := 0 to |abnormalities|
      invariant actions == ActionBase(urgency) + FlatMap(ActionItems, abnormalities[..i])
    {
      actions := PushActionsFor(actions, abnormalities[i]);
      FlatMapStep(ActionItems, abnormalities, i);
      ConcatAssoc(ActionBase(urgency), FlatMap(ActionItems, abnormalities[..i]), ActionItems(abnormalities[i]));
    }
    TakeAll(abnormalities);
    actions := Distinct(actions);
  }

  /** The body of the `forEach`: a critical finding naming glucose or hemoglobin pushes its
      action. */
  method PushActionsFor(actions: seq<string>, a: KeyAbnormality) returns (grown: seq<string>)
    ensures grown == actions + ActionItems(a)
  {
    grown := actions;
    if a.severity == Urgency.Critical {
      if Mentions(a.testName, "glucose") {
        grown := grown + [CheckGlucoseAction];
      }
      if Mentions(a.testName, "hemoglobin") {
        grown := grown + [AnemiaSignsAction];
      }
    }
  }

  /** Each finding-specific action is pushed exactly by the findings that call for it, and is
      not a standing action. */
  lemma ActionItemsMembers(a: KeyAbnormality)
    ensures CheckGlucoseAction in ActionItems(a) <==> CriticalGlucoseFinding(a)
    ensures AnemiaSignsAction in ActionItems(a) <==> CriticalHemoglobinFinding(a)
    ensures NoDuplicates(CriticalActions)
    ensures CheckGlucoseAction !in CriticalActions && AnemiaSignsAction !in CriticalActions
  {
    assert |CheckGlucoseAction| == 37 && |AnemiaSignsAction| == 67;
    assert |ContactProviderAction| == 39 && |WatchSymptomsAction| == 24 && |EmergencyContactAction| == 40;
  }

  /** The immediate actions have no repeats, start with the three standing actions when the
      urgency is critical, and hold each finding-specific action exactly when some key
      abnormality calls for it; no other action appears. */
  lemma ImmediateActionsShape(urgency: Urgency, abnormalities: seq<KeyAbnormality>)
    ensures var r := ImmediateActions(urgency, abnormalities);
      && NoDuplicates(r)
      && (urgency == Urgency.Critical ==> 3 <= |r| && r[..3] == CriticalActions)
      && (CheckGlucoseAction in r <==>
            exists i :: 0 <= i < |abnormalities| && CriticalGlucoseFinding(abnormalities[i]))
      && (AnemiaSignsAction in r <==>
            exists i :: 0 <= i < |abnormalities| && CriticalHemoglobinFinding(abnormalities[i]))
      && (forall y :: y in r ==> y in ActionBase(urgency) || y in FindingActions)
  {
    var base := ActionBase(urgency);
    forall a: KeyAbnormality, y | y in ActionItems(a) ensures y in FindingActions {
    }
    PushedWithin(base, ActionItems, abnormalities, FindingActions);
    forall a: KeyAbnormality ensures CheckGlucoseAction in ActionItems(a) <==> CriticalGlucoseFinding(a) {
      ActionItemsMembers(a);
    }
    forall a: KeyAbnormality ensures AnemiaSignsAction in ActionItems(a) <==> CriticalHemoglobinFinding(a) {
      ActionItemsMembers(a);
    }
    ActionItemsMembers(KeyAbnormality("", 0.0, "", "", Urgency.Routine));
    DistinctKeepsBase(base, FlatMap(ActionItems, abnormalities));
    PushedMember(base, ActionItems, abnormalities, CheckGlucoseAction, CriticalGlucoseFinding);
    PushedMember(base, ActionItems, abnormalities, AnemiaSignsAction, CriticalHemoglobinFinding);
  }

  // ---------------------------------------------------------------- investigations

  const HbA1cTest := "HbA1c if not done recently"
  const FastingGlucoseTest := "Fasting glucose confirmation"
  const MetabolicPanelTest := "Complete metabolic panel"
  const UrinalysisTest := "Urinalysis"
  const IronStudiesTest := "Iron studies (ferritin, TIBC, transferrin saturation)"
  const VitaminTest := "B12 and folate levels"
  const GlucoseInvestigations := [HbA1cTest, FastingGlucoseTest]
  const KidneyInvestigations := [MetabolicPanelTest, UrinalysisTest]
  const BloodInvestigations := [IronStudiesTest, VitaminTest]
  const AllInvestigations := GlucoseInvestigations + KidneyInvestigations + BloodInvestigations

  predicate NamesGlucose(a: KeyAbnormality) {
    Mentions(a.testName, "glucose")
  }

  predicate NamesCreatinine(a: KeyAbnormality) {
    Mentions(a.testName, "creatinine")
  }

  predicate NamesHemoglobin(a: KeyAbnormality) {
    Mentions(a.testName, "hemoglobin")
  }

  predicate NamesCholesterol(a: KeyAbnormality) {
    Mentions(a.testName, "cholesterol")
  }

  /** The investigations one key abnormality adds. */
  function InvestigationItems(a: KeyAbnormality): seq<string> {
    (if NamesGlucose(a) then GlucoseInvestigations else [])
    + (if NamesCreatinine(a) then KidneyInvestigations else [])
    + (if NamesHemoglobin(a) then BloodInvestigations else [])
  }

  /** `getRecommendedInvestigations`, as a value. */
  function Investigations(abnormalities: seq<KeyAbnormality>): seq<string> {
    Distinct(FlatMap(InvestigationItems, abnormalities))
  }

  /** `getRecommendedInvestigations`: the tests each glucose, creatinine or hemoglobin finding
      calls for, then repeats dropped. */
  method GetRecommendedInvestigations(abnormalities: seq<KeyAbnormality>) returns (investigations: seq<string>)
    ensures investigations == Investigations(abnormalities)
  {
    investigations := [];
    for i := 0 to |abnormalities|
      invariant investigations == FlatMap(InvestigationItems, abnormalities[..i])
    {
      investigations := PushInvestigationsFor(investigations, abnormalities[i]);
      FlatMapStep(InvestigationItems, abnormalities, i);
    }
    assert abnormalities[..|abnormalities|] == abnormalities;
    investigations := Distinct(investigations);
  }

  /** The body of the `forEach`: each analyte the lower-cased test name mentions pushes its
      two tests. */
  method PushInvestigationsFor(investigations: seq<string>, a: KeyAbnormality) returns (grown: seq<string>)
    ensures grown == investigations + InvestigationItems(a)
  {
    var testName := Lower(a.testName);
    grown := investigations;
    if Contains(testName, "glucose") {
      grown := grown + [HbA1cTest];
      grown := grown + [FastingGlucoseTest];
    }
    if Contains(testName, "creatinine") {
      grown := grown + [MetabolicPanelTest];
      grown := grown + [UrinalysisTest];
    }
    if Contains(testName, "hemoglobin") {
      grown := grown + [IronStudiesTest];
      grown := grown + [VitaminTest];
    }
  }

  /** Each investigation is pushed exactly by the findings naming its analyte. */
  lemma InvestigationItemsMembers(a: KeyAbnormality)
    ensures HbA1cTest in InvestigationItems(a) <==> NamesGlucose(a)
    ensures FastingGlucoseTest in InvestigationItems(a) <==> NamesGlucose(a)
    ensures MetabolicPanelTest in InvestigationItems(a) <==> NamesCreatinine(a)
    ensures UrinalysisTest in InvestigationItems(a) <==> NamesCreatinine(a)
    ensures IronStudiesTest in InvestigationItems(a) <==> NamesHemoglobin(a)
    ensures VitaminTest in InvestigationItems(a) <==> NamesHemoglobin(a)
  {
    assert |HbA1cTest| == 26 && |FastingGlucoseTest| == 28 && |MetabolicPanelTest| == 24;
    assert |UrinalysisTest| == 10 && |IronStudiesTest| == 53 && |VitaminTest| == 21;
  }

  /** The investigations have no repeats; the two glucose tests are among them exactly when a
      finding names glucose, the two kidney tests exactly when one names creatinine, the two
      blood tests exactly when one names hemoglobin; no other test appears. */
  lemma InvestigationsShape(abnormalities: seq<KeyAbnormality>)
    ensures var r := Investigations(abnormalities);
      && NoDuplicates(r)
      && (HbA1cTest in r <==> exists i :: 0 <= i < |abnormalities| && NamesGlucose(abnormalities[i]))
      && (FastingGlucoseTest in r <==> exists i :: 0 <= i < |abnormalities| && NamesGlucose(abnormalities[i]))
      && (MetabolicPanelTest in r <==> exists i :: 0 <= i < |abnormalities| && NamesCreatinine(abnormalities[i]))
      && (UrinalysisTest in r <==> exists i :: 0 <= i < |abnormalities| && NamesCreatinine(abnormalities[i]))
      && (IronStudiesTest in r <==> exists i :: 0 <= i < |abnormalities| && NamesHemoglobin(abnormalities[i]))
      && (VitaminTest in r <==> exists i :: 0 <= i < |abnormalities| && NamesHemoglobin(abnormalities[i]))
      && (forall y :: y in r ==> y in AllInvestigations)
  {
    forall a: KeyAbnormality ensures
      && (HbA1cTest in InvestigationItems(a) <==> NamesGlucose(a))
      && (FastingGlucoseTest in InvestigationItems(a) <==> NamesGlucose(a))
      && (MetabolicPanelTest in InvestigationItems(a) <==> NamesCreatinine(a))
      && (UrinalysisTest in InvestigationItems(a) <==> NamesCreatinine(a))
      && (IronStudiesTest in InvestigationItems(a) <==> NamesHemoglobin(a))
      && (VitaminTest in InvestigationItems(a) <==> NamesHemoglobin(a))
    {
      InvestigationItemsMembers(a);
    }
    forall a: KeyAbnormality, y | y in InvestigationItems(a) ensures y in AllInvestigations {
    }
    assert FlatMap(InvestigationItems, abnormalities) == [] + FlatMap(InvestigationItems, abnormalities);
    PushedWithin([], InvestigationItems, abnormalities, AllInvestigations);
    PushedMember([], InvestigationItems, abnormalities, HbA1cTest, NamesGlucose);
    PushedMember([], InvestigationItems, abnormalities, FastingGlucoseTest, NamesGlucose);
    PushedMember([], InvestigationItems, abnormalities, MetabolicPanelTest, NamesCreatinine);
    PushedMember([], InvestigationItems, abnormalities, UrinalysisTest, NamesCreatinine);
    PushedMember([], InvestigationItems, abnormalities, IronStudiesTest, NamesHemoglobin);
    PushedMember([], InvestigationItems, abnormalities, VitaminTest, NamesHemoglobin);
  }

  // ---------------------------------------------------------------- lifestyle adjustments

  const BalancedDiet := "Maintain balanced diet with adequate hydration"
  const PhysicalActivity := "Regular physical activity as appropriate for age and condition"
  const AdequateSleep := "Adequate sleep (7-9 hours nightly)"
  const StressManagement := "Stress management techniques"
  const BaseLifestyle := [BalancedDiet, PhysicalActivity, AdequateSleep, StressManagement]
  const CarbohydrateCounting := "Carbohydrate counting and portion control"
  const RegularMeals := "Regular meal timing"
  const LowSaturatedFat := "Low saturated fat diet"
  const MoreOmega3 := "Increase omega-3 fatty acids"
  const DietItems := [CarbohydrateCounting, RegularMeals, LowSaturatedFat, MoreOmega3]

  /** The lifestyle items one key abnormality adds. */
  function LifestyleItems(a: KeyAbnormality): seq<string> {
    (if NamesGlucose(a) then [CarbohydrateCounting, RegularMeals] else [])
    + (if NamesCholesterol(a) then [LowSaturatedFat, MoreOmega3] else [])
  }

  /** `getLifestyleRecommendations`, as a value. */
  function LifestyleAdjustments(abnormalities: seq<KeyAbnormality>): seq<string> {
    Distinct(BaseLifestyle + FlatMap(LifestyleItems, abnormalities))
  }

  /** `getLifestyleRecommendations`: four standing items, then the diet items of each glucose
      or cholesterol finding, then repeats dropped. */
  method GetLifestyleRecommendations(abnormalities: seq<KeyAbnormality>) returns (recommendations: seq<string>)
    ensures recommendations == LifestyleAdjustments(abnormalities)
  {
    recommendations := BaseLifestyle;
    for i := 0 to |abnormalities|
      invariant recommendations == BaseLifestyle + FlatMap(LifestyleItems, abnormalities[..i])
    {
      recommendations := PushLifestyleFor(recommendations, abnormalities[i]);
      FlatMapStep(LifestyleItems, abnormalities, i);
    }
    assert abnormalities[..|abnormalities|] == abnormalities;
    recommendations := Distinct(recommendations);
  }

  /** The body of the `forEach` for lifestyle items. */
  method PushLifestyleFor(recommendations: seq<string>, a: KeyAbnormality) returns (grown: seq<string>)
    ensures grown == recommendations + LifestyleItems(a)
  {
    var testName := Lower(a.testName);
    grown := recommendations;
    if Contains(testName, "glucose") {
      grown := grown + [CarbohydrateCounting];
      grown := grown + [RegularMeals];
    }
    if Contains(testName, "cholesterol") {
      grown := grown + [LowSaturatedFat];
      grown := grown + [MoreOmega3];
    }
  }

  /** Each diet item is pushed exactly by the findings naming its analyte, and is not a
      standing item. */
  lemma LifestyleItemsMembers(a: KeyAbnormality)
    ensures CarbohydrateCounting in LifestyleItems(a) <==> NamesGlucose(a)
    ensures RegularMeals in LifestyleItems(a) <==> NamesGlucose(a)
    ensures LowSaturatedFat in LifestyleItems(a) <==> NamesCholesterol(a)
    ensures MoreOmega3 in LifestyleItems(a) <==> NamesCholesterol(a)
    ensures NoDuplicates(BaseLifestyle)
    ensures forall y :: y in DietItems ==> y !in BaseLifestyle
  {
    assert |BalancedDiet| == 46 && |PhysicalActivity| == 62 && |AdequateSleep| == 34 && |StressManagement| == 28;
    assert |CarbohydrateCounting| == 41 && |RegularMeals| == 19 && |LowSaturatedFat| == 22 && |MoreOmega3| == 28;
  }

  /** The lifestyle adjustments have no repeats, start with the four standing items in order,
      hold the two carbohydrate items exactly when some finding names glucose and the two fat
      items exactly when some finding names cholesterol; no other item appears. */
  lemma LifestyleShape(abnormalities: seq<KeyAbnormality>)
    ensures var r := LifestyleAdjustments(abnormalities);
      && NoDuplicates(r) && 4 <= |r| && r[..4] == BaseLifestyle
      && (CarbohydrateCounting in r <==> exists i :: 0 <= i < |abnormalities| && NamesGlucose(abnormalities[i]))
      && (RegularMeals in r <==> exists i :: 0 <= i < |abnormalities| && NamesGlucose(abnormalities[i]))
      && (LowSaturatedFat in r <==> exists i :: 0 <= i < |abnormalities| && NamesCholesterol(abnormalities[i]))
      && (MoreOmega3 in r <==> exists i :: 0 <= i < |abnormalities| && NamesCholesterol(abnormalities[i]))
      && (forall y :: y in r ==> y in BaseLifestyle || y in DietItems)
  {
    forall a: KeyAbnormality ensures
      && (CarbohydrateCounting in LifestyleItems(a) <==> NamesGlucose(a))
      && (RegularMeals in LifestyleItems(a) <==> NamesGlucose(a))
      && (LowSaturatedFat in LifestyleItems(a) <==> NamesCholesterol(a))
      && (MoreOmega3 in LifestyleItems(a) <==> NamesCholesterol(a))
    {
      LifestyleItemsMembers(a);
    }
    forall a: KeyAbnormality, y | y in LifestyleItems(a) ensures y in DietItems {
    }
    LifestyleItemsMembers(KeyAbnormality("", 0.0, "", "", Urgency.Routine));
    DistinctKeepsBase(BaseLifestyle, FlatMap(LifestyleItems, abnormalities));
    PushedWithin(BaseLifestyle, LifestyleItems, abnormalities, DietItems);
    PushedMember(BaseLifestyle, LifestyleItems, abnormalities, CarbohydrateCounting, NamesGlucose);
    PushedMember(BaseLifestyle, LifestyleItems, abnormalities, RegularMeals, NamesGlucose);
    PushedMember(BaseLifestyle, LifestyleItems, abnormalities, LowSaturatedFat, NamesCholesterol);
    PushedMember(BaseLifestyle, LifestyleItems, abnormalities, MoreOmega3, NamesCholesterol);
  }

  // ---------------------------------------------------------------- patient education

  const MedicationCompliance := "Understand the importance of medication compliance"
  const WarningSigns := "Recognize warning signs that require immediate medical attention"
  const HealthDiary := "Keep a health diary tracking symptoms and measurements"
  const BaseEducation := [MedicationCompliance, WarningSigns, HealthDiary]
  const GlucoseMonitoring := "Learn proper blood glucose monitoring technique"
  const GlycemiaSigns := "Understand signs of hypoglycemia and hyperglycemia"
  const AnemiaSymptoms := "Recognize symptoms of anemia (fatigue, weakness, pale skin)"
  const SpecificEducation := [GlucoseMonitoring, GlycemiaSigns, AnemiaSymptoms]

  /** The education points one key abnormality adds. */
  function EducationItems(a: KeyAbnormality): seq<string> {
    (if NamesGlucose(a) then [GlucoseMonitoring, GlycemiaSigns] else [])
    + (if NamesHemoglobin(a) then [AnemiaSymptoms] else [])
  }

  /** `getPatientEducationPoints`, as a value. */
  function PatientEducation(abnormalities: seq<KeyAbnormality>): seq<string> {
    Distinct(BaseEducation + FlatMap(EducationItems, abnormalities))
  }

  /** `getPatientEducationPoints`: three standing points, then the points of each glucose or
      hemoglobin finding, then repeats dropped. */
  method GetPatientEducationPoints(abnormalities: seq<KeyAbnormality>) returns (points: seq<string>)
    ensures points == PatientEducation(abnormalities)
  {
    points := BaseEducation;
    for i := 0 to |abnormalities|
      invariant points == BaseEducation + FlatMap(EducationItems, abnormalities[..i])
    {
      points := PushEducationFor(points, abnormalities[i]);
      FlatMapStep(EducationItems, abnormalities, i);
    }
    assert abnormalities[..|abnormalities|] == abnormalities;
    points := Distinct(points);
  }

  /** The body of the `forEach` for education points. */
  method PushEducationFor(points: seq<string>, a: KeyAbnormality) returns (grown: seq<string>)
    ensures grown == points + EducationItems(a)
  {
    var testName := Lower(a.testName);
    grown := points;
    if Contains(testName, "glucose") {
      grown := grown + [GlucoseMonitoring];
      grown := grown + [GlycemiaSigns];
    }
    if Contains(testName, "hemoglobin") {
      grown := grown + [AnemiaSymptoms];
    }
  }

  /** Each finding-specific point is pushed exactly by the findings naming its analyte, and is
      not a standing point. */
  lemma EducationItemsMembers(a: KeyAbnormality)
    ensures GlucoseMonitoring in EducationItems(a) <==> NamesGlucose(a)
    ensures GlycemiaSigns in EducationItems(a) <==> NamesGlucose(a)
    ensures AnemiaSymptoms in EducationItems(a) <==> NamesHemoglobin(a)
    ensures NoDuplicates(BaseEducation)
    ensures forall y :: y in SpecificEducation ==> y !in BaseEducation
  {
    assert |MedicationCompliance| == 50 && |WarningSigns| == 64 && |HealthDiary| == 54;
    assert |GlucoseMonitoring| == 47 && |GlycemiaSigns| == 50 && |AnemiaSymptoms| == 59;
  }

  /** The education points have no repeats, start with the three standing points in order,
      hold the two glucose points exactly when some finding names glucose and the anemia point
      exactly when some finding names hemoglobin; no other point appears. */
  lemma EducationShape(abnormalities: seq<KeyAbnormality>)
    ensures var r := PatientEducation(abnormalities);
      && NoDuplicates(r) && 3 <= |r| && r[..3] == BaseEducation
      && (GlucoseMonitoring in r <==> exists i :: 0 <= i < |abnormalities| && NamesGlucose(abnormalities[i]))
      && (GlycemiaSigns in r <==> exists i :: 0 <= i < |abnormalities| && NamesGlucose(abnormalities[i]))
      && (AnemiaSymptoms in r <==> exists i :: 0 <= i < |abnormalities| && NamesHemoglobin(abnormalities[i]))
      && (forall y :: y in r ==> y in BaseEducation || y in SpecificEducation)
  {
    forall a: KeyAbnormality ensures
      && (GlucoseMonitoring in EducationItems(a) <==> NamesGlucose(a))
      && (GlycemiaSigns in EducationItems(a) <==> NamesGlucose(a))
      && (AnemiaSymptoms in EducationItems(a) <==> NamesHemoglobin(a))
    {
      EducationItemsMembers(a);
    }
    forall a: KeyAbnormality, y | y in EducationItems(a) ensures y in SpecificEducation {
    }
    EducationItemsMembers(KeyAbnormality("", 0.0, "", "", Urgency.Routine));
    DistinctKeepsBase(BaseEducation, FlatMap(EducationItems, abnormalities));
    PushedWithin(BaseEducation, EducationItems, abnormalities, SpecificEducation);
    PushedMember(BaseEducation, EducationItems, abnormalities, GlucoseMonitoring, NamesGlucose);
    PushedMember(BaseEducation, EducationItems, abnormalities, GlycemiaSigns, NamesGlucose);
    PushedMember(BaseEducation, EducationItems, abnormalities, AnemiaSymptoms, NamesHemoglobin);
  }

  // ---------------------------------------------------------------- structured recommendation

  /** The patient part of the structured recommendation. */
  datatype PatientSummary = PatientSummary(
    name: string,
    age: int,
    gender: string,
    reportsAnalyzed: seq<string>)

  const ReportsAnalyzed := ["Complete Blood Count", "Basic Metabolic Panel"]

  /** `parseInt(age) || 0`, with the name and gender copied and the two report names fixed. */
  function PatientSummaryOf(info: PatientInfo): (s: PatientSummary)
    ensures s.name == info.name && s.gender == info.gender && s.reportsAnalyzed == ReportsAnalyzed
    ensures ParseInt(info.age).None? ==> s.age == 0
    ensures ParseInt(info.age).Some? ==> s.age == ParseInt(info.age).value
  {
    PatientSummary(info.name, ParseInt(info.age).GetOr(0), info.gender, ReportsAnalyzed)
  }

  /** The age text the extractor writes, `<n> YRS`, reads back as n; "Unknown" reads as 0. */
  lemma SummaryAgeOfExtractedAge(info: PatientInfo, n: nat)
    ensures info.age == NatToString(n) + " YRS" ==> PatientSummaryOf(info).age == n
    ensures info.age == "Unknown" ==> PatientSummaryOf(info).age == 0
  {
    if info.age == NatToString(n) + " YRS" {
      ParseIntNatToString(n, " YRS");
    }
    if info.age == "Unknown" {
      assert LeadingWhitespace("Unknown") == 0;
      assert "Unknown"[0..] == "Unknown";
      assert !IsDigit("Unknown"[0]);
    }
  }

  /** What `generateStructuredRecommendation` returns. */
  datatype StructuredRecommendation = StructuredRecommendation(
    patientSummary: PatientSummary,
    keyAbnormalities: seq<KeyAbnormality>,
    specificRecommendations: seq<string>,
    generalRecommendationsByCondition: map<string, seq<string>>,
    criticalNotes: seq<string>,
    urgencyLevel: Urgency)

  /** `generateStructuredRecommendation`: the abnormal parameters are chosen once, the urgency
      level is decided from them, and every part of the result is built from them. */
  method GenerateStructuredRecommendation(data: ExtractedData) returns (s: StructuredRecommendation)
    ensures s.patientSummary == PatientSummaryOf(data.patientInfo)
    ensures s.urgencyLevel == UrgencyLevel(data.parameters)
    ensures s.keyAbnormalities == KeyAbnormalities(Filter(IsAbnormal, data.parameters))
    ensures s.specificRecommendations
         == SpecificRecommendations(Filter(IsAbnormal, data.parameters), s.urgencyLevel)
    ensures PlansFor(Filter(IsAbnormal, data.parameters), s.generalRecommendationsByCondition)
    ensures s.criticalNotes == CriticalNotes(Filter(IsAbnormal, data.parameters))
  {
    var abnormalParams, urgencyLevel, keys, specific := StructuredCore(data.parameters);
    var conditions := GenerateConditionRecommendations(abnormalParams);
    var notes := GenerateCriticalNotes(abnormalParams);
    s := StructuredRecommendation(
      PatientSummaryOf(data.patientInfo),
      keys,
      specific,
      conditions,
      notes,
      urgencyLevel);
  }

  /** The parts of the structured recommendation the enhanced one reads: the abnormal
      parameters, the urgency level decided from them, the key abnormalities and the specific
      recommendations. */
  method StructuredCore(parameters: seq<LabParameter>)
    returns (abnormalParams: seq<LabParameter>, urgencyLevel: Urgency,
             keys: seq<KeyAbnormality>, specific: seq<string>)
    ensures abnormalParams == Filter(IsAbnormal, parameters)
    ensures urgencyLevel == UrgencyLevel(parameters)
    ensures keys == KeyAbnormalities(abnormalParams)
    ensures specific == SpecificRecommendations(abnormalParams, urgencyLevel)
  {
    abnormalParams := Filter(IsAbnormal, parameters);
    var criticalParams := Filter(HasCriticalSeverity, abnormalParams);
    var urgentParams := Filter(HasModerateSeverity, abnormalParams);
    urgencyLevel := Urgency.Routine;
    if |criticalParams| > 0 {
      urgencyLevel := Urgency.Critical;
    } else if |urgentParams| > 2 {
      urgencyLevel := Urgency.Urgent;
    } else if |abnormalParams| > 0 {
      urgencyLevel := Urgency.Moderate;
    }
    keys := KeyAbnormalities(abnormalParams);
    specific := GenerateSpecificRecommendations(abnormalParams, urgencyLevel);
  }

  // ---------------------------------------------------------------- enhanced recommendation

  /** The severity of the enhanced recommendation: 'low' | 'moderate' | 'high' | 'critical'. */
  datatype VisitSeverity = Low | Moderate | High | Critical

  function VisitSeverityRank(s: VisitSeverity): nat {
    match s
    case Low => 0
    case Moderate => 1
    case High => 2
    case Critical => 3
  }

  /** The `switch` from urgency level to severity: critical, high, moderate, low, in the same
      order as the urgency levels. */
  function SeverityOf(urgency: Urgency): (s: VisitSeverity)
    ensures VisitSeverityRank(s) == UrgencyRank(urgency)
  {
    match urgency
    case Critical => VisitSeverity.Critical
    case Urgent => VisitSeverity.High
    case Moderate => VisitSeverity.Moderate
    case Routine => VisitSeverity.Low
  }

  /** Distinct urgencies get distinct severities. */
  lemma SeverityOfInjective(a: Urgency, b: Urgency)
    ensures SeverityOf(a) == SeverityOf(b) <==> a == b
  {
    assert UrgencyRank(a) == UrgencyRank(b) ==> a == b;
  }

  const Within24Hours := "Within 24 hours"
  const Within48To72Hours := "Within 48-72 hours"
  const Within1To2Weeks := "Within 1-2 weeks"
  const Within4To6Weeks := "Within 4-6 weeks"

  /** `getTimeframe`. */
  function Timeframe(urgency: Urgency): (timeframe: string)
    ensures urgency == Urgency.Critical ==> timeframe == Within24Hours
    ensures urgency == Urgency.Urgent ==> timeframe == Within48To72Hours
    ensures urgency == Urgency.Moderate ==> timeframe == Within1To2Weeks
    ensures urgency == Urgency.Routine ==> timeframe == Within4To6Weeks
  {
    match urgency
    case Critical => Within24Hours
    case Urgent => Within48To72Hours
    case Moderate => Within1To2Weeks
    case Routine => Within4To6Weeks
  }

  /** Each urgency has its own timeframe: the timeframe tells the urgency back. */
  lemma TimeframeInjective(a: Urgency, b: Urgency)
    ensures Timeframe(a) == Timeframe(b) <==> a == b
  {
    assert |Within24Hours| == 15 && |Within48To72Hours| == 18;
    assert |Within1To2Weeks| == 16 && |Within4To6Weeks| == 16;
    assert Within1To2Weeks[9] != Within4To6Weeks[9];
  }

  const Nephrologist := "Nephrologist"
  const Endocrinologist := "Endocrinologist"
  const Hematologist := "Hematologist"
  const GeneralPhysician := "General Physician"

  predicate KidneyIssue(p: LabParameter) {
    Mentions(p.name, "creatinine") && IsAbnormal(p)
  }

  predicate DiabetesIssue(p: LabParameter) {
    Mentions(p.name, "glucose") && IsAbnormal(p)
  }

  predicate BloodIssue(p: LabParameter) {
    Mentions(p.name, "hemoglobin") && IsAbnormal(p)
  }

  /** The specialty: a nephrologist for an abnormal creatinine, else an endocrinologist for an
      abnormal glucose, else a hematologist for an abnormal hemoglobin, else a general
      physician. */
  function Specialty(parameters: seq<LabParameter>): (specialty: string)
  {
    if exists i :: 0 <= i < |parameters| && KidneyIssue(parameters[i]) then Nephrologist
    else if exists i :: 0 <= i < |parameters| && DiabetesIssue(parameters[i]) then Endocrinologist
    else if exists i :: 0 <= i < |parameters| && BloodIssue(parameters[i]) then Hematologist
    else GeneralPhysician
  }

  /** The four specialties are told apart, each exactly by its rule and the rules before it. */
  lemma SpecialtyRules(parameters: seq<LabParameter>)
    ensures var specialty := Specialty(parameters);
      && (specialty == Nephrologist <==> exists i :: 0 <= i < |parameters| && KidneyIssue(parameters[i]))
      && (specialty == Endocrinologist <==>
            (forall i :: 0 <= i < |parameters| ==> !KidneyIssue(parameters[i]))
            && exists i :: 0 <= i < |parameters| && DiabetesIssue(parameters[i]))
      && (specialty == Hematologist <==>
            (forall i :: 0 <= i < |parameters| ==> !KidneyIssue(parameters[i]) && !DiabetesIssue(parameters[i]))
            && exists i :: 0 <= i < |parameters| && BloodIssue(parameters[i]))
      && (specialty == GeneralPhysician <==>
            forall i :: 0 <= i < |parameters| ==>
              !KidneyIssue(parameters[i]) && !DiabetesIssue(parameters[i]) && !BloodIssue(parameters[i]))
  {
    assert |Nephrologist| == 12 && |Endocrinologist| == 15 && |Hematologist| == 12 && |GeneralPhysician| == 17;
    assert Nephrologist[2] != Hematologist[2];
  }

  /** A normal parameter never sways the specialty: only abnormal ones are consulted. */
  lemma SpecialtyIgnoresNormal(parameters: seq<LabParameter>)
    ensures Specialty(parameters) == Specialty(Filter(IsAbnormal, parameters))
  {
    var abnormal := Filter(IsAbnormal, parameters);
    forall i | 0 <= i < |abnormal| ensures abnormal[i] in parameters { }
    forall i | 0 <= i < |parameters| && IsAbnormal(parameters[i])
      ensures exists j :: 0 <= j < |abnormal| && abnormal[j] == parameters[i]
    {
      assert parameters[i] in abnormal;
    }
  }

  const CriticalReasonStart := "Critical abnormalities detected in "
  // Each text is written with its first character (or first sentence) apart: the proofs below
  // need that character, and the verifier does not read it off a literal this long.
  const CriticalReasonEnd := " " + "parameter(s). Immediate medical evaluation required to prevent complications."
  const SystemicReasonStart := "Multiple parameters ("
  const SystemicReasonEnd := ")" + " are outside normal range, suggesting systemic involvement requiring comprehensive evaluation."
  const AttentionReasonEnd := " " + "parameter(s) need attention. Early intervention can prevent progression to more serious conditions."
  const NormalLimitsReason := "All parameters within normal limits." + " Continue current health maintenance practices."

  /** `generateDetailedReason`: by the critical key abnormalities, then by more than three key
      abnormalities, then by any. */
  function DetailedReason(keyAbnormalities: seq<KeyAbnormality>): string {
    var abnormalCount := |keyAbnormalities|;
    var criticalCount := |Filter(IsCriticalAbnormality, keyAbnormalities)|;
    if criticalCount > 0 then CriticalReasonStart + NatToString(criticalCount) + CriticalReasonEnd
    else if abnormalCount > 3 then SystemicReasonStart + NatToString(abnormalCount) + SystemicReasonEnd
    else if abnormalCount > 0 then NatToString(abnormalCount) + AttentionReasonEnd
    else NormalLimitsReason
  }

  /** What `generateEnhancedDoctorRecommendation` returns. */
  datatype EnhancedRecommendation = EnhancedRecommendation(
    specialty: string,
    urgency: Urgency,
    severity: VisitSeverity,
    reason: string,
    timeframe: string,
    nextSteps: seq<string>,
    immediateActions: seq<string>,
    investigations: seq<string>,
    lifestyleAdjustments: seq<string>,
    patientEducation: seq<string>)

  /** `slice(0, 5)`. */
  function FirstFive(xs: seq<string>): (r: seq<string>)
    ensures |r| <= 5 && |r| <= |xs| && r == xs[..|r|]
    ensures |xs| <= 5 ==> r == xs
    ensures |xs| > 5 ==> |r| == 5
  {
    if |xs| <= 5 then xs else xs[..5]
  }

  /** `generateEnhancedDoctorRecommendation`: the urgency level, key abnormalities and
      specific recommendations of the structured recommendation first, then the specialty, the
      severity, the reason, the timeframe and the four advice lists from them. */
  method GenerateEnhancedRecommendation(data: ExtractedData) returns (r: EnhancedRecommendation)
    ensures r.specialty == Specialty(data.parameters)
    ensures r.urgency == UrgencyLevel(data.parameters)
    ensures r.severity == SeverityOf(r.urgency) && r.timeframe == Timeframe(r.urgency)
    ensures r.reason == DetailedReason(KeyAbnormalities(Filter(IsAbnormal, data.parameters)))
    ensures r.nextSteps == FirstFive(SpecificRecommendations(Filter(IsAbnormal, data.parameters), r.urgency))
    ensures r.immediateActions == ImmediateActions(r.urgency, KeyAbnormalities(Filter(IsAbnormal, data.parameters)))
    ensures r.investigations == Investigations(KeyAbnormalities(Filter(IsAbnormal, data.parameters)))
    ensures r.lifestyleAdjustments == LifestyleAdjustments(KeyAbnormalities(Filter(IsAbnormal, data.parameters)))
    ensures r.patientEducation == PatientEducation(KeyAbnormalities(Filter(IsAbnormal, data.parameters)))
  {
    var abnormalParams, urgency, keys, specific := StructuredCore(data.parameters);
    var actions := GetImmediateActions(urgency, keys);
    var investigations := GetRecommendedInvestigations(keys);
    var lifestyle := GetLifestyleRecommendations(keys);
    var education := GetPatientEducationPoints(keys);
    r := EnhancedRecommendation(
      Specialty(data.parameters),
      urgency,
      SeverityOf(urgency),
      DetailedReason(keys),
      Timeframe(urgency),
      FirstFive(specific),
      actions,
      investigations,
      lifestyle,
      education);
  }

  /** The reason follows the critical key abnormalities first and then their count: each
      tier's count is readable back from the text. */
  lemma ReasonTiers(keys: seq<KeyAbnormality>)
    ensures var reason := DetailedReason(keys);
      var critical := |Filter(IsCriticalAbnormality, keys)|;
      && (critical > 0 ==>
            |CriticalReasonStart| <= |reason| && reason[..|CriticalReasonStart|] == CriticalReasonStart
            && ParseInt(reason[|CriticalReasonStart|..]) == Some(critical))
      && (critical == 0 && |keys| > 3 ==>
            |SystemicReasonStart| <= |reason| && reason[..|SystemicReasonStart|] == SystemicReasonStart
            && ParseInt(reason[|SystemicReasonStart|..]) == Some(|keys|))
      && (critical == 0 && 0 < |keys| <= 3 ==> ParseInt(reason) == Some(|keys|))
      && (keys == [] ==> reason == NormalLimitsReason)
  {
    var critical := |Filter(IsCriticalAbnormality, keys)|;
    if critical > 0 {
      assert CriticalReasonEnd[0] == ' ';
      ParseIntBetween(CriticalReasonStart, critical, CriticalReasonEnd);
    } else if |keys| > 3 {
      assert SystemicReasonEnd[0] == ')';
      ParseIntBetween(SystemicReasonStart, |keys|, SystemicReasonEnd);
    } else if |keys| > 0 {
      assert AttentionReasonEnd[0] == ' ';
      ParseIntNatToString(|keys|, AttentionReasonEnd);
    }
  }

  /** Conversely, each tier's text comes from that tier alone: a reason opening with the
      systemic text, one that reads as a number, and the all-normal text each identify their
      tier. */
  lemma ReasonIdentifiesTier(keys: seq<KeyAbnormality>)
    ensures var reason := DetailedReason(keys);
      var critical := |Filter(IsCriticalAbnormality, keys)|;
      && (|SystemicReasonStart| <= |reason| && reason[..|SystemicReasonStart|] == SystemicReasonStart ==>
            critical == 0 && |keys| > 3)
      && (ParseInt(reason).Some? ==> critical == 0 && 0 < |keys| <= 3)
      && (reason == NormalLimitsReason ==> keys == [])
  {
    var reason := DetailedReason(keys);
    var critical := |Filter(IsCriticalAbnormality, keys)|;
    if critical > 0 {
      assert reason[0] == 'C';
      TierLetter(reason, 'C');
    } else if |keys| > 3 {
      assert reason[0] == 'M';
      TierLetter(reason, 'M');
    } else if |keys| > 0 {
      assert IsDigit(reason[0]);
      if |SystemicReasonStart| <= |reason| {
        assert reason[..|SystemicReasonStart|][0] == reason[0];
      }
    } else {
      TierLetter(reason, 'A');
    }
  }

  /** A reason opening with a letter is no number and starts with at most one of the tier
      texts. */
  lemma TierLetter(reason: string, c: char)
    requires reason != [] && reason[0] == c && c in "ACM"
    ensures ParseInt(reason).None?
    ensures |SystemicReasonStart| <= |reason| && reason[..|SystemicReasonStart|] == SystemicReasonStart ==> c == 'M'
    ensures reason == NormalLimitsReason ==> c == 'A'
  {
    ParseIntNonNumeric(reason);
    if |SystemicReasonStart| <= |reason| && reason[..|SystemicReasonStart|] == SystemicReasonStart {
      assert reason[..|SystemicReasonStart|][0] == c;
    }
  }

  /** The reason opens with the critical text exactly when some key abnormality is critical. */
  lemma ReasonNamesCritical(keys: seq<KeyAbnormality>)
    ensures var reason := DetailedReason(keys);
      |Filter(IsCriticalAbnormality, keys)| > 0 <==>
        |CriticalReasonStart| <= |reason| && reason[..|CriticalReasonStart|] == CriticalReasonStart
  {
    var reason := DetailedReason(keys);
    if |Filter(IsCriticalAbnormality, keys)| == 0 && |CriticalReasonStart| <= |reason| {
      assert CriticalReasonStart[0] == 'C';
      if |keys| > 3 {
        assert reason[0] == 'M';
      } else if |keys| > 0 {
        assert IsDigit(reason[0]);
      } else {
        assert reason[0] == 'A';
      }
      assert reason[..|CriticalReasonStart|][0] == reason[0] != CriticalReasonStart[0];
    }
  }

  /** On the parameters: the reason's critical count is the number of abnormal parameters of
      critical severity, and its other count the number of abnormal parameters. */
  lemma ReasonCounts(parameters: seq<LabParameter>)
    ensures var keys := KeyAbnormalities(Filter(IsAbnormal, parameters));
      && |Filter(IsCriticalAbnormality, keys)| == |Filter(IsAbnormalCritical, parameters)|
      && |keys| == |Filter(IsAbnormal, parameters)|
      && (|Filter(IsCriticalAbnormality, keys)| > 0 <==> UrgencyLevel(parameters) == Urgency.Critical)
  {
    KeyCriticalCount(Filter(IsAbnormal, parameters));
    FilterFilter(IsAbnormal, HasCriticalSeverity, IsAbnormalCritical, parameters);
  }

  /** The next steps are the first five specific recommendations, without repeats, led by the
      urgency item when the level is critical or urgent. */
  lemma NextStepsShape(abnormal: seq<LabParameter>, urgency: Urgency)
    ensures var specific := SpecificRecommendations(abnormal, urgency);
      var steps := FirstFive(specific);
      && NoDuplicates(steps)
      && (urgency == Urgency.Critical ==> steps != [] && steps[0] == SeekCareNow)
      && (urgency == Urgency.Urgent ==> steps != [] && steps[0] == BookSoon)
  {
    var specific := SpecificRecommendations(abnormal, urgency);
    SpecificRecommendationsShape(abnormal, urgency, "");
    var steps := FirstFive(specific);
    forall i, j | 0 <= i < j < |steps| ensures steps[i] != steps[j] {
      assert steps[i] == specific[i] && steps[j] == specific[j];
    }
  }

  /** Severity and timeframe follow the urgency level: critical, within 24 hours, exactly when
      some abnormal parameter is critical; low, within 4-6 weeks, exactly when all are normal. */
  lemma SeverityAndTimeframe(parameters: seq<LabParameter>)
    ensures var urgency := UrgencyLevel(parameters);
      && (Timeframe(urgency) == Within24Hours <==>
            exists i :: 0 <= i < |parameters| && IsAbnormalCritical(parameters[i]))
      && (SeverityOf(urgency) == VisitSeverity.Critical <==>
            exists i :: 0 <= i < |parameters| && IsAbnormalCritical(parameters[i]))
      && (Timeframe(urgency) == Within4To6Weeks <==> forall i :: 0 <= i < |parameters| ==> IsNormal(parameters[i]))
      && (SeverityOf(urgency) == VisitSeverity.Low <==> forall i :: 0 <= i < |parameters| ==> IsNormal(parameters[i]))
  {
    var urgency := UrgencyLevel(parameters);
    UrgencyTiers(parameters);
    TimeframeInjective(urgency, Urgency.Critical);
    TimeframeInjective(urgency, Urgency.Routine);
    SeverityOfInjective(urgency, Urgency.Critical);
    SeverityOfInjective(urgency, Urgency.Routine);
  }

  /** The basic and the advanced services agree on the extremes: the basic one is urgent
      exactly when the advanced one is critical, and gives the annual check-up exactly when the
      advanced one is routine. */
  lemma ServicesAgree(parameters: seq<LabParameter>)
    ensures var basic := DoctorRecommendation.GenerateRecommendation(parameters);
      && (basic.urgency == Urgency.Urgent <==> UrgencyLevel(parameters) == Urgency.Critical)
      && (basic.timeframe == "Annual check-up" <==> UrgencyLevel(parameters) == Urgency.Routine)
  {
    DoctorRecommendation.CriticalTier(parameters);
    DoctorRecommendation.AllNormalTier(parameters);
    UrgencyTiers(parameters);
  }
}
