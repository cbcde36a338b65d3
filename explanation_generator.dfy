/** The plain-language explanation of one lab result: the parameter's name is cleaned of
    qualifiers and suffixes, folded into an alias when it names cholesterol or the liver,
    and looked up in a fixed table; a sentence built from the name, the status and the
    range text is the fallback. */
module ExplanationGenerator {
  import opened Wrappers
  import opened Strings
  import opened LabTypes

  // ---------------------------------------------------------------------------
  // The explanation table

  /** `explanationDatabase[name]?.[status]?.explanation`: the table's explanation text for a
      cleaned name and a status text. Keys are compared exactly, so the lookup is
      case-sensitive; the table's other fields (recommendations, urgency, specialty) are not
      read by the generator. */
  function LookupExplanation(name: string, status: string): (r: Option<string>)
  {
    if name == "Hemoglobin" then
      if status == "low" then Some(HemoglobinLow)
      else if status == "high" then Some(HemoglobinHigh)
      else None
    else if name == "Glucose" then
      if status == "high" then Some(GlucoseHigh)
      else if status == "low" then Some(GlucoseLow)
      else None
    else if name == "Creatinine" then
      if status == "high" then Some(CreatinineHigh)
      else None
    else None
  }

  const HemoglobinLow := "Low hemoglobin indicates anemia, which means your blood has fewer red blood cells than normal. This can cause fatigue, weakness, and shortness of breath."
  const HemoglobinHigh := "High hemoglobin levels may indicate dehydration, lung disease, or other conditions. Your blood is thicker than normal."
  const GlucoseHigh := "High blood glucose levels may indicate diabetes or prediabetes."
  const GlucoseLow := "Low blood glucose can cause dizziness and weakness."
  const CreatinineHigh := "High creatinine levels suggest your kidneys may not be filtering waste effectively."

  /** Every explanation text of the table is non-empty. */
  lemma TableTextsNonEmpty(name: string, status: string)
    ensures LookupExplanation(name, status).Some? ==> |LookupExplanation(name, status).value| > 0
  {

  }

  /** The table's own keys: "low" and "high" for hemoglobin and glucose, "high" for
      creatinine; no other name, and no other status, is among them. */
  lemma TableKeys(name: string, status: string)
    ensures LookupExplanation(name, status).Some? <==>
              || (name == "Hemoglobin" && (status == "low" || status == "high"))
              || (name == "Glucose" && (status == "low" || status == "high"))
              || (name == "Creatinine" && status == "high")
  {
  }

  // ---------------------------------------------------------------------------
  // Cleaning the name

  /** The characters at which `.` stops and `$` (without the `m` flag) does not match. */
  predicate IsLineTerminator(c: char) {
    c == '\n' || c == '\r' || c == '\U{2028}' || c == '\U{2029}'
  }

  /** `s` starts with `word` in any letter case followed by white space: the length of the
      word and the white-space run after it, or 0 when it does not. */
  function WordThenSpace(s: string, word: string): (n: nat)
    ensures n <= |s|
    ensures n > 0 <==> |word| > 0 && |word| < |s| && Lower(s[..|word|]) == word && IsWhitespace(s[|word|])
    ensures n > 0 ==> n > |word| && (forall i :: |word| <= i < n ==> IsWhitespace(s[i]))
                      && (n < |s| ==> !IsWhitespace(s[n]))
  {
    if |word| > 0 && |word| < |s| && Lower(s[..|word|]) == word && IsWhitespace(s[|word|]) then
      var k := LeadingWhitespace(s[|word|..]);
      assert forall i :: |word| <= i < |word| + k ==> s[i] == s[|word|..][i - |word|];
      |word| + k
    else 0
  }

  /** `replace(/^(Mean|Total|Complete)\s+/i, '')`: one leading qualifier and the white
      space after it removed. The three words share no prefix, so at most one applies. */
  function StripQualifier(s: string): (r: string)
    ensures |r| <= |s| && r == s[|s| - |r|..]
  {
    var mean := WordThenSpace(s, "mean");
    var total := WordThenSpace(s, "total");
    var complete := WordThenSpace(s, "complete");
    if mean > 0 then s[mean..]
    else if total > 0 then s[total..]
    else if complete > 0 then s[complete..]
    else s
  }

  /** `replace(/\s+Count$/i, '')`: a final "count", in any letter case, removed with the
      whole white-space run before it; nothing removed unless that run is non-empty. */
  function StripCount(s: string): (r: string)
    ensures |r| <= |s| && r == s[..|r|]
    ensures r != s <==> |s| > 5 && Lower(s[|s| - 5..]) == "count" && IsWhitespace(s[|s| - 6])
  {
    if |s| > 5 && Lower(s[|s| - 5..]) == "count" && IsWhitespace(s[|s| - 6]) then
      var head := s[..|s| - 5];
      head[..|head| - TrailingWhitespace(head)]
    else s
  }

  /** `\s+Cell.*$` matches at `p`: a white-space run starts at `p`, "cell" in any letter
      case follows the run, and no line terminator follows that up to the end. */
  predicate CellMatchAt(s: string, p: nat) {
    p < |s| && IsWhitespace(s[p]) &&
    var q := p + LeadingWhitespace(s[p..]);
    q + 4 <= |s| && Lower(s[q..q + 4]) == "cell" &&
    forall i :: q + 4 <= i < |s| ==> !IsLineTerminator(s[i])
  }

  /** The leftmost position at or after `p` where the pattern matches, or |s|. */
  function FirstCellMatch(s: string, p: nat): (r: nat)
    requires p <= |s|
    ensures p <= r <= |s|
    ensures r < |s| ==> CellMatchAt(s, r)
    ensures forall i :: p <= i < r ==> !CellMatchAt(s, i)
    decreases |s| - p
  {
    if p == |s| then p
    else if CellMatchAt(s, p) then p
    else FirstCellMatch(s, p + 1)
  }

  /** `replace(/\s+Cell.*$/i, '')`: cut at the leftmost match. */
  function StripCell(s: string): (r: string)
    ensures |r| <= |s| && r == s[..|r|]
    ensures forall i :: 0 <= i < |r| ==> !CellMatchAt(s, i)
    ensures |r| < |s| ==> CellMatchAt(s, |r|)
  {
    s[..FirstCellMatch(s, 0)]
  }

  /** The name after the three replacements and `trim`, before the alias rules. */
  function Stripped(name: string): string {
    Trim(StripCell(StripCount(StripQualifier(name))))
  }

  /** Stripping only removes text from the ends: what is left is a trimmed infix. */
  lemma StrippedIsInfix(name: string)
    ensures Contains(name, Stripped(name)) && Trim(Stripped(name)) == Stripped(name)
  {
    var a := StripQualifier(name);
    var b := StripCount(a);
    var c := StripCell(b);
    ContainsInfix(name, |name| - |a|, |name|);
    assert name[|name| - |a|..|name|] == a;
    ContainsInfix(a, 0, |b|);
    assert a[0..|b|] == b;
    ContainsInfix(b, 0, |c|);
    assert b[0..|c|] == c;
    ContainsTransitive(name, a, b);
    ContainsTransitive(name, b, c);
    ContainsTransitive(name, c, Trim(c));
    TrimIdempotent(c);
  }

  /** `cleanParameterName`: any name mentioning cholesterol becomes "Cholesterol", checked
      first; then any mentioning liver, alt or ast becomes "Liver"; otherwise the stripped
      name. Matching is on the lower-cased name. */
  function CleanParameterName(name: string): (r: string)
  {
    var cleaned := Stripped(name);
    var lower := Lower(cleaned);
    if Contains(lower, "cholesterol") then "Cholesterol"
    else if Contains(lower, "liver") || Contains(lower, "alt") || Contains(lower, "ast") then "Liver"
    else cleaned
  }

  /** The cleaned name is one of the two aliases, or a trimmed infix of the name that
      mentions neither alias word. */
  lemma CleanedNameShape(name: string)
    ensures var r := CleanParameterName(name);
            || r == "Cholesterol" || r == "Liver"
            || (&& Contains(name, r) && Trim(r) == r
                && !Contains(Lower(r), "cholesterol") && !Contains(Lower(r), "liver")
                && !Contains(Lower(r), "alt") && !Contains(Lower(r), "ast"))
  {
    StrippedIsInfix(name);
  }

  // ---------------------------------------------------------------------------
  // The explanation

  /** The fallback sentence: "above" exactly when the status text is "high"; any other
      status, "normal" included, reads "below". */
  function Template(clean: string, status: string, normalRange: string): string {
    "Your " + clean + " level is " + (if status == "high" then "above" else "below")
    + " the normal range (" + normalRange + ")."
  }

  /** `generateExplanation`. The value is accepted and not read. */
  function GenerateExplanation(parameterName: string, status: string, value: real, normalRange: string): string
  {
    var cleanName := CleanParameterName(parameterName);
    var explanation := LookupExplanation(cleanName, status);
    if explanation.Some? then explanation.value
    else Template(cleanName, status, normalRange)
  }

  /** The explanation is never empty. */
  lemma ExplanationNonEmpty(parameterName: string, status: string, value: real, normalRange: string)
    ensures |GenerateExplanation(parameterName, status, value, normalRange)| > 0
  {
    TableTextsNonEmpty(CleanParameterName(parameterName), status);
  }

  /** The explanation depends on the name, the status and the range text only. */
  lemma ExplanationIgnoresValue(parameterName: string, status: string, v1: real, v2: real, normalRange: string)
    ensures GenerateExplanation(parameterName, status, v1, normalRange)
            == GenerateExplanation(parameterName, status, v2, normalRange)
  {
  }

  /** The fallback sentence names the cleaned name and the range text, and it reads
      "above" for "high" and "below" for every other status. */
  lemma TemplateMentions(clean: string, status: string, normalRange: string)
    ensures var t := Template(clean, status, normalRange);
            && Contains(t, clean) && Contains(t, normalRange)
            && (status == "high" <==> t[|"Your " + clean + " level is "|..][..5] == "above")
  {
    var t := Template(clean, status, normalRange);
    var head := "Your " + clean + " level is ";
    var word := if status == "high" then "above" else "below";
    var mid := " the normal range (";
    assert t == head + word + mid + normalRange + ")." ;
    assert t[5..5 + |clean|] == clean;
    assert OccursAt(t, clean, 5);
    var k := |head| + 5 + |mid|;
    assert t[k..k + |normalRange|] == normalRange;
    assert OccursAt(t, normalRange, k);
    assert t[|head|..][..5] == word;
  }

  /** Names folded into an alias never hit the table: they always get the sentence. */
  lemma AliasesGetTemplate(parameterName: string, status: string, value: real, normalRange: string)
    requires CleanParameterName(parameterName) in {"Liver", "Cholesterol"}
    ensures GenerateExplanation(parameterName, status, value, normalRange)
            == Template(CleanParameterName(parameterName), status, normalRange)
  {
    TableKeys(CleanParameterName(parameterName), status);
  }

  /** "White Blood Cell Count" loses its count suffix and then everything from " Cell". */
  lemma WhiteBloodCellCount()
    ensures Stripped("White Blood Cell Count") == "White Blood"
  {
    NoQualifierOnWhite();
    WhiteBloodCellWithoutCount();
    WhiteBloodWithoutCell();
    WhiteBloodTrimmed();
  }

  lemma WhiteBloodTrimmed()
    ensures Trim("White Blood") == "White Blood"
  {
    TrimOfTrimmed("White Blood");
  }

  lemma NoQualifierOnWhite()
    ensures StripQualifier("White Blood Cell Count") == "White Blood Cell Count"
  {
    var s := "White Blood Cell Count";
    assert Lower(s[..4]) != "mean" by { assert Lower(s[..4])[0] == 'w'; }
    assert Lower(s[..5]) != "total" by { assert Lower(s[..5])[0] == 'w'; }
    assert Lower(s[..8]) != "complete" by { assert Lower(s[..8])[0] == 'w'; }
  }

  lemma WhiteBloodCellWithoutCount()
    ensures StripCount("White Blood Cell Count") == "White Blood Cell"
  {
    var s := "White Blood Cell Count";
    assert s[|s| - 5..] == "Count";
    assert Lower("Count") == "count";
    var head := s[..|s| - 5];
    assert head == "White Blood Cell ";
    assert head[..|head| - 1] == "White Blood Cell";
    assert TrailingWhitespace(head[..|head| - 1]) == 0;
    assert TrailingWhitespace(head) == 1;
  }

  lemma WhiteBloodWithoutCell()
    ensures StripCell("White Blood Cell") == "White Blood"
  {
    var b := "White Blood Cell";
    CellAfterWhiteBlood();
    NoCellInWhiteBlood();
    assert b[..11] == "White Blood";
  }

  lemma CellAfterWhiteBlood()
    ensures CellMatchAt("White Blood Cell", 11)
  {
    var b := "White Blood Cell";
    assert b[11..] == " Cell";
    assert LeadingWhitespace(" Cell") == 1 by {
      assert " Cell"[1..] == "Cell";
    }
    assert b[12..16] == "Cell";
    assert Lower("Cell") == "cell";
  }

  lemma NoCellInWhiteBlood()
    ensures forall i :: 0 <= i < 11 ==> !CellMatchAt("White Blood Cell", i)
  {
    var b := "White Blood Cell";
    forall i | 0 <= i < 11
      ensures !CellMatchAt(b, i)
    {
      if i == 5 {
        NoCellAtBlood();
      } else {
        NoCellAtLetter(b, i);
      }
    }
  }

  /** The blank before "Blood" starts a run that is not followed by "cell". */
  lemma NoCellAtBlood()
    ensures !CellMatchAt("White Blood Cell", 5)
  {
    var b := "White Blood Cell";
    assert b[5..] == " Blood Cell";
    assert LeadingWhitespace(" Blood Cell") == 1 by {
      assert " Blood Cell"[1..] == "Blood Cell";
    }
    assert b[6..10] == "Bloo";
    assert Lower("Bloo")[0] == 'b';
  }

  /** No match starts at a letter: the pattern starts with white space. */
  lemma NoCellAtLetter(s: string, p: nat)
    requires p < |s| && ('A' <= s[p] <= 'Z' || 'a' <= s[p] <= 'z')
    ensures !CellMatchAt(s, p)
  {
  }

  /** No two consecutive characters of `hay` are the first two of `needle`, so `needle`
      does not occur in it. */
  lemma AbsentPair(hay: string, needle: string)
    requires |needle| >= 2
    requires forall i :: 0 <= i < |hay| - 1 ==> !(hay[i] == needle[0] && hay[i + 1] == needle[1])
    ensures !Contains(hay, needle)
  {
    forall i | 0 <= i <= |hay| - |needle|
      ensures !OccursAt(hay, needle, i)
    {
      assert hay[i..i + |needle|][0] == hay[i] && hay[i..i + |needle|][1] == hay[i + 1];
    }
  }

  /** A name without white space passes each replacement and `trim` unchanged. */
  lemma PlainStripped(s: string)
    requires HasNoWhitespace(s)
    ensures StripQualifier(s) == s && StripCount(s) == s && StripCell(s) == s && Trim(s) == s
  {
    assert FirstCellMatch(s, 0) == |s| by {
      assert forall p :: 0 <= p < |s| ==> !CellMatchAt(s, p);
    }
    assert s[..|s|] == s;
    TrimOfTrimmed(s);
  }

  /** A name without white space that mentions no alias word is its own cleaned form. */
  lemma CleanOfPlainName(s: string)
    requires HasNoWhitespace(s)
    requires !Contains(Lower(s), "cholesterol") && !Contains(Lower(s), "liver")
    requires !Contains(Lower(s), "alt") && !Contains(Lower(s), "ast")
    ensures CleanParameterName(s) == s
  {
    PlainStripped(s);
  }

  /** Lower-casing neither makes nor removes white space. */
  lemma NoWhitespaceOfLower(s: string)
    requires HasNoWhitespace(Lower(s))
    ensures HasNoWhitespace(s)
  {
    forall i | 0 <= i < |s| ensures !IsWhitespace(s[i]) {
      assert Lower(s)[i] == LowerChar(s[i]);
    }
  }

  /** The lower-cased alias words are single words. */
  lemma AliasWordsHaveNoWhitespace()
    ensures HasNoWhitespace("cholesterol") && HasNoWhitespace("hdl") && HasNoWhitespace("ldl")
    ensures HasNoWhitespace("alt") && HasNoWhitespace("ast")
    ensures HasNoWhitespace("sgpt") && HasNoWhitespace("sgot")
  {
  }

  /** A blank in the lower-cased name is a blank in the name: the name is the two words
      around it. */
  lemma SplitAtBlank(name: string, k: nat)
    requires k < |name| && Lower(name)[k] == ' '
    ensures name == name[..k] + " " + name[k + 1..]
    ensures Lower(name[..k]) == Lower(name)[..k] && Lower(name[k + 1..]) == Lower(name)[k + 1..]
  {
    assert name[k] == ' ';
    LowerSlice(name, 0, k);
    LowerSlice(name, k + 1, |name|);
  }

  /** The first word of `a b` is no qualifier word when it differs from it, in any letter
      case. */
  lemma NoQualifierBefore(a: string, b: string, word: string)
    requires a != [] && HasNoWhitespace(a) && Lower(a) != word
    requires forall i :: 0 <= i < |word| ==> word[i] != ' '
    ensures WordThenSpace(a + " " + b, word) == 0
  {
    var s := a + " " + b;
    if |word| < |a| {
      assert s[|word|] == a[|word|];
    } else if |word| == |a| {
      assert s[..|word|] == a;
    } else if |word| < |s| {
      assert Lower(s[..|word|])[|a|] == ' ';
    }
  }

  /** Two words joined by one blank pass the replacements unchanged when the first is not a
      qualifier, and the second is longer than "count" and does not start with "cell". */
  lemma TwoWordsStripped(a: string, b: string)
    requires a != [] && HasNoWhitespace(a) && HasNoWhitespace(b)
    requires Lower(a) != "mean" && Lower(a) != "total" && Lower(a) != "complete"
    requires |b| > 5 && Lower(b[..4]) != "cell"
    ensures Stripped(a + " " + b) == a + " " + b
  {
    var s := a + " " + b;
    NoQualifierBefore(a, b, "mean");
    NoQualifierBefore(a, b, "total");
    NoQualifierBefore(a, b, "complete");
    assert StripQualifier(s) == s;
    assert s[|s| - 6] == b[|b| - 6];
    assert StripCount(s) == s;
    assert s[|a|..] == " " + b;
    assert (" " + b)[1..] == b;
    assert LeadingWhitespace(s[|a|..]) == 1;
    assert s[|a| + 1..|a| + 5] == b[..4];
    forall p | 0 <= p < |s| && p != |a| ensures !IsWhitespace(s[p]) {
      if p > |a| {
        assert s[p] == b[p - |a| - 1];
      }
    }
    assert FirstCellMatch(s, 0) == |s|;
    assert s[..|s|] == s;
    TrimOfTrimmed(s);
  }

  /** A leading "total" and the blank after it are removed, in any letter case. */
  lemma TotalStripped(a: string, b: string)
    requires Lower(a) == "total" && b != [] && !IsWhitespace(b[0])
    ensures StripQualifier(a + " " + b) == b
  {
    var s := a + " " + b;
    assert s[..4] == a[..4] && s[..5] == a;
    LowerSlice(a, 0, 4);
    assert Lower(s[..4]) == "tota";
    assert s[5..] == " " + b;
    assert (" " + b)[1..] == b;
    assert LeadingWhitespace(s[5..]) == 1;
    assert s[6..] == b;
  }

  /** A name whose stripped form mentions cholesterol is the alias, whatever else it
      mentions. */
  lemma CleanOfCholesterol(name: string)
    requires Contains(Lower(Stripped(name)), "cholesterol")
    ensures CleanParameterName(name) == "Cholesterol"
  {
  }

  /** "Cholesterol" in any letter case is its own stripped form, and the alias. */
  lemma CholesterolWord(name: string)
    requires Lower(name) == "cholesterol"
    ensures HasNoWhitespace(name) && Stripped(name) == name && Contains(Lower(name), "cholesterol")
    ensures CleanParameterName(name) == "Cholesterol"
  {
    AliasWordsHaveNoWhitespace();
    NoWhitespaceOfLower(name);
    PlainStripped(name);
    ContainsInfix(Lower(name), 0, |name|);
    assert Lower(name)[0..|name|] == Lower(name);
    CleanOfCholesterol(name);
  }

  /** The words of the three two-word cholesterol names, lower-cased. */
  lemma TwoWordsOfCholesterol()
    ensures "total cholesterol"[5] == ' ' && "total cholesterol"[6..] == "cholesterol"
    ensures "total cholesterol"[..5] == "total"
    ensures "hdl cholesterol"[3] == ' ' && "hdl cholesterol"[4..] == "cholesterol"
    ensures "ldl cholesterol"[3] == ' ' && "ldl cholesterol"[4..] == "cholesterol"
    ensures "hdl cholesterol"[..3] == "hdl" && "ldl cholesterol"[..3] == "ldl"
    ensures "cholesterol"[..4] == "chol"
  {
  }

  /** "Total Cholesterol" in any letter case loses its qualifier and is the alias. */
  lemma TotalCholesterol(name: string)
    requires Lower(name) == "total cholesterol"
    ensures CleanParameterName(name) == "Cholesterol"
  {
    SplitAtBlank(name, 5);
    TwoWordsOfCholesterol();
    var b := name[6..];
    TotalStripped(name[..5], b);
    CholesterolWord(b);
    PlainStripped(b);
    assert Stripped(name) == b;
    CleanOfCholesterol(name);
  }

  /** A word that is no qualifier, a blank and "cholesterol" in any letter case: the
      replacements leave it as it is, and it is the alias. */
  lemma WordThenCholesterol(a: string, b: string)
    requires a != [] && HasNoWhitespace(a)
    requires Lower(a) != "mean" && Lower(a) != "total" && Lower(a) != "complete"
    requires Lower(b) == "cholesterol"
    ensures CleanParameterName(a + " " + b) == "Cholesterol"
  {
    var s := a + " " + b;
    CholesterolWord(b);
    TwoWordsOfCholesterol();
    LowerSlice(b, 0, 4);
    TwoWordsStripped(a, b);
    MentionedInLastWord(a, b, "cholesterol");
    CleanOfCholesterol(s);
  }

  /** What the lower-cased last word mentions, the lower-cased name mentions. */
  lemma MentionedInLastWord(a: string, b: string, word: string)
    requires Contains(Lower(b), word)
    ensures Contains(Lower(a + " " + b), word)
  {
    var s := a + " " + b;
    ContainsInfix(Lower(s), |a| + 1, |s|);
    assert Lower(s)[|a| + 1..|s|] == Lower(b);
    ContainsTransitive(Lower(s), Lower(b), word);
  }

  /** "HDL Cholesterol" and "LDL Cholesterol", in any letter case, are left as they are by
      the replacements and are the alias. */
  lemma LipoproteinCholesterol(name: string)
    requires Lower(name) == "hdl cholesterol" || Lower(name) == "ldl cholesterol"
    ensures CleanParameterName(name) == "Cholesterol"
  {
    SplitAtBlank(name, 3);
    TwoWordsOfCholesterol();
    AliasWordsHaveNoWhitespace();
    NoWhitespaceOfLower(name[..3]);
    WordThenCholesterol(name[..3], name[4..]);
  }

  /** Every catalog synonym of total, HDL or LDL cholesterol that names cholesterol, captured
      in any letter case, cleans to the "Cholesterol" alias. */
  lemma CholesterolSynonymsClean(name: string)
    requires Lower(name) in {"cholesterol", "total cholesterol", "hdl cholesterol", "ldl cholesterol"}
    ensures CleanParameterName(name) == "Cholesterol"
  {
    if Lower(name) == "cholesterol" {
      CholesterolWord(name);
    } else if Lower(name) == "total cholesterol" {
      TotalCholesterol(name);
    } else {
      LipoproteinCholesterol(name);
    }
  }

  /** The catalog's "ALT" and "AST", captured in any letter case, clean to the "Liver"
      alias. */
  lemma LiverAbbreviationsClean(name: string)
    requires Lower(name) == "alt" || Lower(name) == "ast"
    ensures CleanParameterName(name) == "Liver"
  {
    AliasWordsHaveNoWhitespace();
    NoWhitespaceOfLower(name);
    PlainStripped(name);
    ContainsInfix(Lower(name), 0, 3);
    assert Lower(name)[0..3] == Lower(name);
  }

  /** The other abbreviations of the same two catalog entries, "SGPT" and "SGOT", mention
      no alias word: they keep their own name and miss the alias. */
  lemma EnzymeCodesKeepName(name: string)
    requires Lower(name) == "sgpt" || Lower(name) == "sgot"
    ensures CleanParameterName(name) == name
  {
    AliasWordsHaveNoWhitespace();
    NoWhitespaceOfLower(name);
    var lower := Lower(name);
    AbsentPair(lower, "alt");
    AbsentPair(lower, "ast");
    CleanOfPlainName(name);
  }

  /** "HEMOGLOBIN" is its own cleaned form. */
  lemma UpperCaseHemoglobinIsPlain()
    ensures CleanParameterName("HEMOGLOBIN") == "HEMOGLOBIN"
  {
    var lower := Lower("HEMOGLOBIN");
    assert lower == "hemoglobin";
    AbsentPair(lower, "cholesterol");
    AbsentPair(lower, "liver");
    AbsentPair(lower, "alt");
    AbsentPair(lower, "ast");
    CleanOfPlainName("HEMOGLOBIN");
  }

  /** "Hemoglobin" is its own cleaned form. */
  lemma HemoglobinIsPlain()
    ensures CleanParameterName("Hemoglobin") == "Hemoglobin"
  {
    var lower := Lower("Hemoglobin");
    assert lower == "hemoglobin";
    AbsentPair(lower, "cholesterol");
    AbsentPair(lower, "liver");
    AbsentPair(lower, "alt");
    AbsentPair(lower, "ast");
    CleanOfPlainName("Hemoglobin");
  }

  /** "Glucose" is its own cleaned form. */
  lemma GlucoseIsPlain()
    ensures CleanParameterName("Glucose") == "Glucose"
  {
    var lower := Lower("Glucose");
    assert lower == "glucose";
    AbsentPair(lower, "cholesterol");
    AbsentPair(lower, "liver");
    AbsentPair(lower, "alt");
    AbsentPair(lower, "ast");
    CleanOfPlainName("Glucose");
  }

  /** "Creatinine" is its own cleaned form. */
  lemma CreatinineIsPlain()
    ensures CleanParameterName("Creatinine") == "Creatinine"
  {
    var lower := Lower("Creatinine");
    assert lower == "creatinine";
    AbsentPair(lower, "cholesterol");
    AbsentPair(lower, "liver");
    AbsentPair(lower, "alt");
    AbsentPair(lower, "ast");
    CleanOfPlainName("Creatinine");
  }

  /** The lookup is case-sensitive: an upper-case "HEMOGLOBIN" misses the "Hemoglobin"
      entry and gets the sentence, which reads "below" for a low value. */
  lemma UpperCaseMissesTable(value: real)
    ensures GenerateExplanation("HEMOGLOBIN", "low", value, "13.0-17.0")
            == Template("HEMOGLOBIN", "low", "13.0-17.0")
  {
    UpperCaseHemoglobinIsPlain();
    TableKeys("HEMOGLOBIN", "low");
  }

  /** Every entry of the table is reachable: a parameter named exactly like a table key
      gets that entry's text, as it is, for each status the table holds for it. */
  lemma TableHitIsVerbatim(name: string, status: string, value: real, normalRange: string)
    requires LookupExplanation(name, status).Some?
    ensures GenerateExplanation(name, status, value, normalRange) == LookupExplanation(name, status).value
  {
    TableKeys(name, status);
    if name == "Hemoglobin" {
      HemoglobinIsPlain();
    } else if name == "Glucose" {
      GlucoseIsPlain();
    } else {
      CreatinineIsPlain();
    }
  }
}
