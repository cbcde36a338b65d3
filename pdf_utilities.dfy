/** The helpers of the PDF export: the normal/abnormal/critical summary, the urgency label and
    icon, and the download file name. */
module PdfUtilities {
  import opened Strings
  import opened LabTypes
  import opened Collections

  /** What `calculateSummaryStats` returns. */
  datatype SummaryStats = SummaryStats(
    normalParameters: seq<LabParameter>,
    abnormalParameters: seq<LabParameter>,
    criticalParameters: seq<LabParameter>)

  /** `calculateSummaryStats`: all the normal and all the abnormal parameters, and all the
      abnormal ones of critical severity, and nothing else. The critical ones are abnormal
      ones, so the count of those needing attention short of critical (abnormal minus
      critical) is never negative. */
  function CalculateSummaryStats(parameters: seq<LabParameter>): (s: SummaryStats)
    ensures forall i :: 0 <= i < |s.normalParameters| ==> IsNormal(s.normalParameters[i])
    ensures forall i :: 0 <= i < |s.abnormalParameters| ==> IsAbnormal(s.abnormalParameters[i])
    ensures forall i :: 0 <= i < |s.criticalParameters| ==>
      s.criticalParameters[i] in s.abnormalParameters && HasCriticalSeverity(s.criticalParameters[i])
    ensures forall i :: 0 <= i < |parameters| ==>
      && (IsNormal(parameters[i]) ==> parameters[i] in s.normalParameters)
      && (IsAbnormal(parameters[i]) ==> parameters[i] in s.abnormalParameters)
      && (IsAbnormalCritical(parameters[i]) ==> parameters[i] in s.criticalParameters)
    ensures |s.criticalParameters| <= |s.abnormalParameters| <= |parameters|
  {
    var abnormal := Filter(IsAbnormal, parameters);
    var critical := Filter(HasCriticalSeverity, abnormal);
    assert forall i :: 0 <= i < |parameters| && IsAbnormalCritical(parameters[i]) ==> parameters[i] in critical by {
      forall i | 0 <= i < |parameters| && IsAbnormalCritical(parameters[i])
        ensures parameters[i] in critical
      {
        var j :| 0 <= j < |abnormal| && abnormal[j] == parameters[i];
      }
    }
    SummaryStats(Filter(IsNormal, parameters), abnormal, critical)
  }

  /** The normal and the abnormal lists split the parameters between them: together they
      hold every parameter as often as the input does, and each parameter is in exactly one. */
  lemma SummaryPartition(parameters: seq<LabParameter>)
    ensures var s := CalculateSummaryStats(parameters);
      && multiset(s.normalParameters) + multiset(s.abnormalParameters) == multiset(parameters)
      && |s.normalParameters| + |s.abnormalParameters| == |parameters|
      && forall i :: 0 <= i < |parameters| ==>
           (parameters[i] in s.normalParameters <==> parameters[i] !in s.abnormalParameters)
  {
    FilterPartition(IsNormal, IsAbnormal, parameters);
    var s := CalculateSummaryStats(parameters);
    forall i | 0 <= i < |parameters|
      ensures parameters[i] in s.normalParameters <==> parameters[i] !in s.abnormalParameters
    {
      if parameters[i] in s.normalParameters {
        var j :| 0 <= j < |s.normalParameters| && s.normalParameters[j] == parameters[i];
        assert IsNormal(s.normalParameters[j]);
      }
    }
  }

  /** The critical list is the abnormal-and-critical filter of the input, and each of the three
      lists keeps the input's relative order. */
  lemma SummaryKeepsOrder(parameters: seq<LabParameter>)
    ensures var s := CalculateSummaryStats(parameters);
      && s.criticalParameters == Filter(IsAbnormalCritical, parameters)
      && IsSubsequence(s.normalParameters, parameters)
      && IsSubsequence(s.abnormalParameters, parameters)
      && IsSubsequence(s.criticalParameters, parameters)
  {
    FilterFilter(IsAbnormal, HasCriticalSeverity, IsAbnormalCritical, parameters);
    FilterKeepsOrder(IsNormal, parameters);
    FilterKeepsOrder(IsAbnormal, parameters);
    FilterKeepsOrder(IsAbnormalCritical, parameters);
  }

  const UrgentIcon := "\U{1F6A8}"
  const ModerateIcon := "\U{26A0}\U{FE0F}"
  const RoutineIcon := "\U{1F4C5}"

  /** `getUrgencyIcon`: a siren for "urgent", a warning sign for "moderate", a calendar for
      any other text. */
  function UrgencyIcon(urgency: string): (icon: string)
    ensures icon == UrgentIcon <==> urgency == "urgent"
    ensures icon == ModerateIcon <==> urgency == "moderate"
    ensures icon == UrgentIcon || icon == ModerateIcon || icon == RoutineIcon
  {
    if urgency == "urgent" then UrgentIcon
    else if urgency == "moderate" then ModerateIcon
    else RoutineIcon
  }

  /** `getUrgencyLabel`: "Urgent" and "Moderate Priority" for the two named urgencies,
      "Routine" for every other text. */
  function UrgencyLabel(urgency: string): (text: string)
    ensures text == "Urgent" <==> urgency == "urgent"
    ensures text == "Moderate Priority" <==> urgency == "moderate"
    ensures text == "Urgent" || text == "Moderate Priority" || text == "Routine"
  {
    if urgency == "urgent" then "Urgent"
    else if urgency == "moderate" then "Moderate Priority"
    else "Routine"
  }

  /** The icon and the label tell the same urgencies apart. */
  lemma IconMatchesLabel(a: string, b: string)
    ensures UrgencyIcon(a) == UrgencyIcon(b) <==> UrgencyLabel(a) == UrgencyLabel(b)
  {
  }

  /** "critical", which the advanced recommendation can produce, is shown as routine. */
  lemma CriticalShownAsRoutine()
    ensures UrgencyLabel("critical") == "Routine" && UrgencyIcon("critical") == RoutineIcon
  {
  }

  /** What `replace(/\s+/g, '-')` leaves is a hyphen or a character of the input. */
  lemma {:induction false} HyphenateKeepsCharacters(s: string)
    ensures forall i :: 0 <= i < |HyphenateWhitespace(s)| ==>
      HyphenateWhitespace(s)[i] == '-' || HyphenateWhitespace(s)[i] in s
    decreases |s|
  {
    if s != [] {
      var n := if IsWhitespace(s[0]) then LeadingWhitespace(s) else 1;
      HyphenateKeepsCharacters(s[n..]);
      var rest := HyphenateWhitespace(s[n..]);
      forall i | 0 <= i < |rest| ensures rest[i] == '-' || rest[i] in s {
        if rest[i] != '-' {
          var j :| 0 <= j < |s[n..]| && s[n..][j] == rest[i];
          assert s[n + j] == rest[i];
        }
      }
    }
  }

  /** The patient name as it appears in the file name: lower-cased, each white-space run one
      hyphen. */
  function CleanName(patientName: string): (r: string)
    ensures HasNoWhitespace(r)
    ensures forall i :: 0 <= i < |r| ==> !('A' <= r[i] <= 'Z')
    ensures |r| <= |patientName|
  {
    var lower := Lower(patientName);
    HyphenateKeepsCharacters(lower);
    HyphenateWhitespace(lower)
  }

  /** A name cleaned once is left alone by a second cleaning. */
  lemma CleanNameIdempotent(patientName: string)
    ensures CleanName(CleanName(patientName)) == CleanName(patientName)
  {
    var c := CleanName(patientName);
    assert Lower(c) == c;
  }

  /** `formatFileName`, with the ISO time stamp `new Date().toISOString()` passed in. */
  function FormatFileName(patientName: string, isoNow: string): (r: string)
  {
    "lab-report-" + CleanName(patientName) + "-" + Split(isoNow, 'T')[0] + ".pdf"
  }

  /** The date part is the text before the first 'T' of the time stamp. */
  lemma DatePart(stamp: string)
    ensures Split(stamp, 'T')[0] == stamp[..IndexOf(stamp, 'T')]
  {
  }

  /** For a time stamp `<date>T<time>`, the file name is `lab-report-<clean name>-<date>.pdf`. */
  lemma FileNameOfTimestamp(patientName: string, date: string, time: string)
    requires 'T' !in date
    ensures FormatFileName(patientName, date + "T" + time)
         == "lab-report-" + CleanName(patientName) + "-" + date + ".pdf"
  {
    var stamp := date + "T" + time;
    IndexOfAppend(date, "T" + time, 'T');
    assert stamp == date + ("T" + time);
    DatePart(stamp);
    assert stamp[..|date|] == date;
  }

  /** A time stamp without white space gives a file name without white space. */
  lemma FileNameHasNoWhitespace(patientName: string, stamp: string)
    requires HasNoWhitespace(stamp)
    ensures HasNoWhitespace(FormatFileName(patientName, stamp))
  {
    DatePart(stamp);
    var date := stamp[..IndexOf(stamp, 'T')];
    assert HasNoWhitespace(date) by {
      forall i | 0 <= i < |date| ensures !IsWhitespace(date[i]) {
        assert date[i] == stamp[i];
      }
    }
    var clean := CleanName(patientName);
    assert HasNoWhitespace("lab-report-") && HasNoWhitespace("-") && HasNoWhitespace(".pdf");
    NoWhitespaceAppend("lab-report-", clean);
    NoWhitespaceAppend("lab-report-" + clean, "-");
    NoWhitespaceAppend("lab-report-" + clean + "-", date);
    NoWhitespaceAppend("lab-report-" + clean + "-" + date, ".pdf");
  }

  /** A time stamp without a 'T' is used whole. */
  lemma FileNameWithoutT(patientName: string, stamp: string)
    requires 'T' !in stamp
    ensures FormatFileName(patientName, stamp) == "lab-report-" + CleanName(patientName) + "-" + stamp + ".pdf"
  {
  }
}
