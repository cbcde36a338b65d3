/** The patient-information extractor: for each field a default and an ordered cascade of
    patterns; the first capture that passes the field's plausibility filter replaces the
    default and ends that field's loop. */
module PatientInfoExtractor {
  import opened Wrappers
  import opened Strings
  import opened Numbers
  import opened LabTypes

  /** The five fields, each with its own cascade of patterns. */
  datatype Field = Name | Age | Gender | Date | Lab

  /** The `index`-th pattern of a field's cascade. */
  datatype Pattern = Pattern(field: Field, index: nat)

  /** Number of patterns in each cascade: four for the name, three for the age, two for
      the gender, three for the date and two for the lab name. */
  function PatternCount(f: Field): nat {
    match f
    case Name => 4
    case Age => 3
    case Gender => 2
    case Date => 3
    case Lab => 2
  }

  /** A field's cascade, in the order the loop tries it. */
  function Cascade(f: Field): (ps: seq<Pattern>)
    ensures |ps| == PatternCount(f)
    ensures forall k :: 0 <= k < |ps| ==> ps[k] == Pattern(f, k)
  {
    seq(PatternCount(f), k requires 0 <= k => Pattern(f, k))
  }

  /** The second date pattern carries the `g` flag: `text.match` then returns the list of
      every date-shaped substring instead of the groups of the first match. */
  const GlobalDatePattern: Pattern := Pattern(Date, 1)

  /** What `text.match(pattern)` returns: the match array (the whole match and its groups,
      or every match for a global pattern), or None for `null`. */
  type PatternMatcher = (string, Pattern) -> Option<seq<string>>

  /** `match && match[1]`: element 1 of the match array, when there is one and it is not
      the empty string. */
  function Group1(r: Option<seq<string>>): (g: Option<string>)
    ensures g.Some? <==> r.Some? && |r.value| > 1 && r.value[1] != ""
    ensures g.Some? ==> g.value == r.value[1]
  {
    if r.Some? && |r.value| > 1 && r.value[1] != "" then Some(r.value[1]) else None
  }

  /** The name filter: the trimmed capture, when its length is strictly between 2 and 40. */
  function AcceptName(capture: string): (r: Option<string>)
    ensures r.Some? <==> 2 < |Trim(capture)| < 40
    ensures r.Some? ==> r.value == Trim(capture)
  {
    var extracted := Trim(capture);
    if 2 < |extracted| < 40 then Some(extracted) else None
  }

  /** The age filter: `parseInt` of the capture, when it lies strictly between 0 and 150,
      followed by " YRS". */
  function AcceptAge(capture: string): (r: Option<string>)
    ensures r.Some? <==> ParseInt(capture).Some? && 0 < ParseInt(capture).value < 150
    ensures r.Some? ==> r.value == NatToString(ParseInt(capture).value) + " YRS"
  {
    match ParseInt(capture)
    case Some(n) => if 0 < n < 150 then Some(NatToString(n) + " YRS") else None
    case None => None
  }

  /** The gender filter: the upper-cased capture "M" or "MALE" gives "M", "F" or "FEMALE"
      gives "F", anything else is rejected. */
  function AcceptGender(capture: string): (r: Option<string>)
    ensures r == Some("M") <==> Upper(capture) in {"M", "MALE"}
    ensures r == Some("F") <==> Upper(capture) in {"F", "FEMALE"}
    ensures r.None? <==> Upper(capture) !in {"M", "MALE", "F", "FEMALE"}
  {
    var genderValue := Upper(capture);
    if genderValue == "M" || genderValue == "MALE" then Some("M")
    else if genderValue == "F" || genderValue == "FEMALE" then Some("F")
    else None
  }

  /** A field's filter. Any date capture is taken as it is; a lab capture is trimmed. */
  function Accept(f: Field, capture: string): Option<string> {
    match f
    case Name => AcceptName(capture)
    case Age => AcceptAge(capture)
    case Gender => AcceptGender(capture)
    case Date => Some(capture)
    case Lab => Some(Trim(capture))
  }

  /** What one pattern yields for its field: its capture, when there is one and the field's
      filter accepts it. */
  function AcceptedAt(text: string, p: Pattern, m: PatternMatcher): Option<string> {
    var g := Group1(m(text, p));
    if g.Some? then Accept(p.field, g.value) else None
  }

  /** The loop over a cascade: the first pattern whose capture is accepted decides; None
      when none is. */
  function FirstAccepted(text: string, patterns: seq<Pattern>, m: PatternMatcher): Option<string> {
    if patterns == [] then None
    else if AcceptedAt(text, patterns[0], m).Some? then AcceptedAt(text, patterns[0], m)
    else FirstAccepted(text, patterns[1..], m)
  }

  /** The value a field's cascade finds, if any. */
  function FieldValue(text: string, f: Field, m: PatternMatcher): Option<string> {
    FirstAccepted(text, Cascade(f), m)
  }

  /** The record `extractPatientInfo` returns: each field's value, or its default ("Patient",
      "Unknown", "Unknown", the current date and no lab name). */
  function PatientInfoOf(text: string, today: string, m: PatternMatcher): PatientInfo {
    PatientInfo(
      FieldValue(text, Name, m).GetOr("Patient"),
      FieldValue(text, Age, m).GetOr("Unknown"),
      FieldValue(text, Gender, m).GetOr("Unknown"),
      FieldValue(text, Date, m).GetOr(today),
      FieldValue(text, Lab, m))
  }

  // ---------------------------------------------------------------------------
  // extractPatientInfo

  /** `extractPatientInfo`: five loops, one per field, each overwriting its variable with
      the first accepted capture. The current date is a parameter. */
  method ExtractPatientInfo(text: string, today: string, m: PatternMatcher) returns (info: PatientInfo)
    ensures info == PatientInfoOf(text, today, m)
  {
    var name := ExtractName(text, m);
    var age := ExtractAge(text, m);
    var gender := ExtractGender(text, m);
    var reportDate := ExtractDate(text, today, m);
    var labName := ExtractLabName(text, m);
    info := PatientInfo(name, age, gender, reportDate, labName);
  }

  /** Lines 50-59: the first trimmed capture of length 3 to 39, else "Patient". */
  method ExtractName(text: string, m: PatternMatcher) returns (name: string)
    ensures name == FieldValue(text, Name, m).GetOr("Patient")
  {
    name := "Patient";
    var patterns := Cascade(Name);
    var i := 0;
    while i < |patterns|
      invariant 0 <= i <= |patterns|
      invariant name == "Patient"
      invariant FirstAccepted(text, patterns[i..], m) == FieldValue(text, Name, m)
    {
      var found := Group1(m(text, patterns[i]));
      if found.Some? {
        var extractedName := Trim(found.value);
        if 2 < |extractedName| < 40 {
          name := extractedName;
          break;
        }
      }
      assert patterns[i..][1..] == patterns[i + 1..];
      i := i + 1;
    }
  }

  /** Lines 62-71: the first capture whose `parseInt` lies strictly between 0 and 150, as
      `"<n> YRS"`, else "Unknown". */
  method ExtractAge(text: string, m: PatternMatcher) returns (age: string)
    ensures age == FieldValue(text, Age, m).GetOr("Unknown")
  {
    age := "Unknown";
    var patterns := Cascade(Age);
    var i := 0;
    while i < |patterns|
      invariant 0 <= i <= |patterns|
      invariant age == "Unknown"
      invariant FirstAccepted(text, patterns[i..], m) == FieldValue(text, Age, m)
    {
      var found := Group1(m(text, patterns[i]));
      if found.Some? {
        var ageNum := ParseInt(found.value);
        if ageNum.Some? && 0 < ageNum.value < 150 {
          age := NatToString(ageNum.value) + " YRS";
          break;
        }
      }
      assert patterns[i..][1..] == patterns[i + 1..];
      i := i + 1;
    }
  }

  /** Lines 74-86: the first capture that upper-cases to a male or female token, as "M" or
      "F", else "Unknown". */
  method ExtractGender(text: string, m: PatternMatcher) returns (gender: string)
    ensures gender == FieldValue(text, Gender, m).GetOr("Unknown")
  {
    gender := "Unknown";
    var patterns := Cascade(Gender);
    var i := 0;
    while i < |patterns|
      invariant 0 <= i <= |patterns|
      invariant gender == "Unknown"
      invariant FirstAccepted(text, patterns[i..], m) == FieldValue(text, Gender, m)
    {
      var found := Group1(m(text, patterns[i]));
      if found.Some? {
        var genderValue := Upper(found.value);
        if genderValue == "M" || genderValue == "MALE" {
          gender := "M";
          break;
        } else if genderValue == "F" || genderValue == "FEMALE" {
          gender := "F";
          break;
        }
      }
      assert patterns[i..][1..] == patterns[i + 1..];
      i := i + 1;
    }
  }

  /** Lines 89-95: the first capture, else the current date. */
  method ExtractDate(text: string, today: string, m: PatternMatcher) returns (reportDate: string)
    ensures reportDate == FieldValue(text, Date, m).GetOr(today)
  {
    reportDate := today;
    var patterns := Cascade(Date);
    var i := 0;
    while i < |patterns|
      invariant 0 <= i <= |patterns|
      invariant reportDate == today
      invariant FirstAccepted(text, patterns[i..], m) == FieldValue(text, Date, m)
    {
      var found := Group1(m(text, patterns[i]));
      if found.Some? {
        reportDate := found.value;
        break;
      }
      assert patterns[i..][1..] == patterns[i + 1..];
      i := i + 1;
    }
  }

  /** Lines 98-104: the first capture, trimmed, else no lab name. */
  method ExtractLabName(text: string, m: PatternMatcher) returns (labName: Option<string>)
    ensures labName == FieldValue(text, Lab, m)
  {
    labName := None;
    var patterns := Cascade(Lab);
    var i := 0;
    while i < |patterns|
      invariant 0 <= i <= |patterns|
      invariant labName == None
      invariant FirstAccepted(text, patterns[i..], m) == FieldValue(text, Lab, m)
    {
      var found := Group1(m(text, patterns[i]));
      if found.Some? {
        labName := Some(Trim(found.value));
        break;
      }
      assert patterns[i..][1..] == patterns[i + 1..];
      i := i + 1;
    }
  }

  // ---------------------------------------------------------------------------
  // Properties

  /** The cascade's result is the first accepted capture: None exactly when no pattern's
      capture is accepted, and otherwise the capture of a pattern before which every
      pattern was rejected. */
  lemma {:induction false} FirstAcceptedIsFirst(text: string, patterns: seq<Pattern>, m: PatternMatcher)
    ensures var r := FirstAccepted(text, patterns, m);
            && (r.None? <==> forall k :: 0 <= k < |patterns| ==> AcceptedAt(text, patterns[k], m).None?)
            && (r.Some? ==> exists k :: 0 <= k < |patterns| && AcceptedAt(text, patterns[k], m) == r
                              && forall j :: 0 <= j < k ==> AcceptedAt(text, patterns[j], m).None?)
    decreases |patterns|
  {
    if patterns != [] && AcceptedAt(text, patterns[0], m).None? {
      var rest := patterns[1..];
      FirstAcceptedIsFirst(text, rest, m);
      var r := FirstAccepted(text, patterns, m);
      if r.Some? {
        var k :| 0 <= k < |rest| && AcceptedAt(text, rest[k], m) == r
          && forall j :: 0 <= j < k ==> AcceptedAt(text, rest[j], m).None?;
        assert patterns[k + 1] == rest[k];
        forall j | 0 <= j < k + 1
          ensures AcceptedAt(text, patterns[j], m).None?
        {
          if j > 0 { assert patterns[j] == rest[j - 1]; }
        }
      } else {
        forall k | 0 <= k < |patterns|
          ensures AcceptedAt(text, patterns[k], m).None?
        {
          if k > 0 { assert patterns[k] == rest[k - 1]; }
        }
      }
    }
  }

  /** A pattern whose capture is accepted is consulted only if every earlier pattern's is
      rejected: the first accepted one decides, whatever the later ones would give. */
  lemma FirstWins(text: string, f: Field, k: nat, m: PatternMatcher)
    requires k < PatternCount(f)
    requires AcceptedAt(text, Pattern(f, k), m).Some?
    requires forall j :: 0 <= j < k ==> AcceptedAt(text, Pattern(f, j), m).None?
    ensures FieldValue(text, f, m) == AcceptedAt(text, Pattern(f, k), m)
  {
    var ps := Cascade(f);
    FirstAcceptedIsFirst(text, ps, m);
    var r := FieldValue(text, f, m);
    assert AcceptedAt(text, ps[k], m).Some?;
    var k' :| 0 <= k' < |ps| && AcceptedAt(text, ps[k'], m) == r
      && forall j :: 0 <= j < k' ==> AcceptedAt(text, ps[j], m).None?;
    assert forall j :: 0 <= j < k ==> AcceptedAt(text, ps[j], m).None?;
    assert k' == k;
  }

  /** The name is the default "Patient" or a trimmed capture of length 3 to 39. */
  lemma NameShape(text: string, today: string, m: PatternMatcher)
    ensures var name := PatientInfoOf(text, today, m).name;
            name == "Patient" || (2 < |name| < 40 && Trim(name) == name)
  {
    var ps := Cascade(Name);
    FirstAcceptedIsFirst(text, ps, m);
    var r := FieldValue(text, Name, m);
    if r.Some? {
      var k :| 0 <= k < |ps| && AcceptedAt(text, ps[k], m) == r;
      var g := Group1(m(text, ps[k])).value;
      assert r.value == Trim(g);
      TrimIdempotent(g);
    }
  }

  /** The age is "Unknown" or `"<n> YRS"` for some 0 < n < 150, and `parseInt` reads that n
      back from it. */
  lemma AgeShape(text: string, today: string, m: PatternMatcher)
    ensures var age := PatientInfoOf(text, today, m).age;
            age == "Unknown" ||
            exists n: nat :: 0 < n < 150 && age == NatToString(n) + " YRS" && ParseInt(age) == Some(n)
  {
    var ps := Cascade(Age);
    FirstAcceptedIsFirst(text, ps, m);
    var r := FieldValue(text, Age, m);
    if r.Some? {
      var k :| 0 <= k < |ps| && AcceptedAt(text, ps[k], m) == r;
      var g := Group1(m(text, ps[k])).value;
      var n := ParseInt(g).value;
      ParseIntNatToString(n, " YRS");
      assert r.value == NatToString(n) + " YRS";
    }
  }

  /** The gender is always "M", "F" or "Unknown". */
  lemma GenderShape(text: string, today: string, m: PatternMatcher)
    ensures PatientInfoOf(text, today, m).gender in {"M", "F", "Unknown"}
  {
    var ps := Cascade(Gender);
    FirstAcceptedIsFirst(text, ps, m);
    var r := FieldValue(text, Gender, m);
    if r.Some? {
      var k :| 0 <= k < |ps| && AcceptedAt(text, ps[k], m) == r;
      assert ps[k].field == Gender;
    }
  }

  /** The lab name is absent exactly when no lab pattern has a capture, and otherwise is a
      trimmed capture. */
  lemma LabNameShape(text: string, today: string, m: PatternMatcher)
    ensures var lab := PatientInfoOf(text, today, m).labName;
            && (lab.None? <==> forall k :: 0 <= k < PatternCount(Lab) ==> Group1(m(text, Pattern(Lab, k))).None?)
            && (lab.Some? ==> Trim(lab.value) == lab.value)
  {
    var ps := Cascade(Lab);
    FirstAcceptedIsFirst(text, ps, m);
    var r := FieldValue(text, Lab, m);
    if r.Some? {
      var k :| 0 <= k < |ps| && AcceptedAt(text, ps[k], m) == r;
      TrimIdempotent(Group1(m(text, ps[k])).value);
    } else {
      forall k | 0 <= k < PatternCount(Lab)
        ensures Group1(m(text, Pattern(Lab, k))).None?
      {
        assert AcceptedAt(text, ps[k], m).None?;
      }
    }
  }

  /** Each field reads only its own patterns: two matchers that agree on a field's cascade
      give the same value for that field, whatever they do on the others. */
  lemma {:induction false} FieldsIndependent(text: string, f: Field, m1: PatternMatcher, m2: PatternMatcher)
    requires forall k :: 0 <= k < PatternCount(f) ==> m1(text, Pattern(f, k)) == m2(text, Pattern(f, k))
    ensures FieldValue(text, f, m1) == FieldValue(text, f, m2)
  {
    var ps := Cascade(f);
    forall k | 0 <= k < |ps|
      ensures m1(text, ps[k]) == m2(text, ps[k])
    {
      assert ps[k] == Pattern(f, k);
    }
    CascadeAgrees(text, ps, m1, m2);
  }

  lemma {:induction false} CascadeAgrees(text: string, ps: seq<Pattern>, m1: PatternMatcher, m2: PatternMatcher)
    requires forall k :: 0 <= k < |ps| ==> m1(text, ps[k]) == m2(text, ps[k])
    ensures FirstAccepted(text, ps, m1) == FirstAccepted(text, ps, m2)
    decreases |ps|
  {
    if ps != [] {
      assert m1(text, ps[0]) == m2(text, ps[0]);
      forall k | 0 <= k < |ps[1..]|
        ensures m1(text, ps[1..][k]) == m2(text, ps[1..][k])
      {
        assert ps[1..][k] == ps[k + 1];
      }
      CascadeAgrees(text, ps[1..], m1, m2);
    }
  }

  /** The global date pattern's `match[1]` is the second date-shaped substring: with fewer
      than two of them it is skipped, and the first and third patterns alone decide. */
  lemma GlobalDateNeedsTwo(text: string, m: PatternMatcher)
    requires m(text, GlobalDatePattern).Some? ==> |m(text, GlobalDatePattern).value| < 2
    ensures FieldValue(text, Date, m) ==
      if AcceptedAt(text, Pattern(Date, 0), m).Some? then AcceptedAt(text, Pattern(Date, 0), m)
      else AcceptedAt(text, Pattern(Date, 2), m)
  {
    var ps := Cascade(Date);
    assert ps[0] == Pattern(Date, 0) && ps[1] == GlobalDatePattern && ps[2] == Pattern(Date, 2);
    if AcceptedAt(text, ps[0], m).None? {
      assert AcceptedAt(text, ps[1], m).None?;
      assert FirstAccepted(text, ps, m) == FirstAccepted(text, ps[1..], m);
      assert ps[1..][0] == ps[1];
      assert FirstAccepted(text, ps[1..], m) == FirstAccepted(text, ps[1..][1..], m);
      assert ps[1..][1..] == [ps[2]];
      assert [ps[2]][1..] == [];
      assert FirstAccepted(text, [ps[2]], m) == AcceptedAt(text, ps[2], m);
    }
  }

  /** With two or more date-shaped substrings and no labelled date, the report date is the
      second of them. */
  lemma GlobalDateTakesSecond(text: string, today: string, m: PatternMatcher)
    requires AcceptedAt(text, Pattern(Date, 0), m).None?
    requires m(text, GlobalDatePattern).Some? && |m(text, GlobalDatePattern).value| >= 2
    requires m(text, GlobalDatePattern).value[1] != ""
    ensures PatientInfoOf(text, today, m).reportDate == m(text, GlobalDatePattern).value[1]
  {
    var ps := Cascade(Date);
    assert ps[0] == Pattern(Date, 0) && ps[1] == GlobalDatePattern;
    assert FirstAccepted(text, ps, m) == FirstAccepted(text, ps[1..], m);
    assert ps[1..][0] == ps[1];
    assert AcceptedAt(text, ps[1], m) == Some(m(text, GlobalDatePattern).value[1]);
    assert FirstAccepted(text, ps[1..], m) == AcceptedAt(text, ps[1], m);
  }
}
