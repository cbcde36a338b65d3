/** The lab-parameter extractor: a catalog of tests with reference ranges, a scan of every
    line against every catalog entry with up to three pattern shapes, duplicate suppression
    by case-insensitive containment, and classification of each value against its range. */
module ParameterExtractor {
  import opened Wrappers
  import opened Strings
  import opened Numbers
  import opened LabTypes

  /** One catalog entry: the synonyms joined by '|' in the TypeScript service's pattern key, the range
      text stored in each record, the range it denotes, and the unit. */
  datatype CatalogEntry = CatalogEntry(synonyms: seq<string>, rangeText: string, range: Range, unit: string)

  /** The static catalog, in the TypeScript service's declaration order. */
  function Catalog(): seq<CatalogEntry> {
    [Hemoglobin(), RedBloodCells(), WhiteBloodCells(), Platelets(), Glucose(), Creatinine(),
     Urea(), Cholesterol(), Lymphocytes(), Neutrophils(), Monocytes(), Eosinophils(),
     TotalProtein(), Albumin(), Bilirubin(), Alt(), Ast(), Hdl(), Ldl(), Triglycerides(), Tsh()]
  }

  function Hemoglobin(): CatalogEntry {
    CatalogEntry(["Hemoglobin", "HB", "Hb", "HAEMOGLOBIN", "HEMOGLOBIN"], "13.0-17.0", Range(13.0, 17.0), "g/dL")
  }
  function RedBloodCells(): CatalogEntry {
    CatalogEntry(["Red Blood Cell", "RBC", "Red Blood Cells", "RBC COUNT"], "4.5-5.5", Range(4.5, 5.5), "million/mcL")
  }
  function WhiteBloodCells(): CatalogEntry {
    CatalogEntry(["White Blood Cell", "WBC", "White Blood Cells", "WBC COUNT", "TOTAL WBC"], "4000-11000", Range(4000.0, 11000.0), "/mcL")
  }
  function Platelets(): CatalogEntry {
    CatalogEntry(["Platelet", "PLT", "Platelets", "PLATELET COUNT"], "150-450", Range(150.0, 450.0), "thousand/mcL")
  }
  function Glucose(): CatalogEntry {
    CatalogEntry(["Glucose", "Sugar", "Blood Sugar", "GLUCOSE", "RANDOM GLUCOSE", "FASTING GLUCOSE"], "70-100", Range(70.0, 100.0), "mg/dL")
  }
  function Creatinine(): CatalogEntry {
    CatalogEntry(["Creatinine", "CREATININE", "SERUM CREATININE"], "0.6-1.3", Range(0.6, 1.3), "mg/dL")
  }
  function Urea(): CatalogEntry {
    CatalogEntry(["Urea", "BUN", "Blood Urea Nitrogen", "UREA NITROGEN"], "7-20", Range(7.0, 20.0), "mg/dL")
  }
  function Cholesterol(): CatalogEntry {
    CatalogEntry(["Cholesterol", "Total Cholesterol", "CHOLESTEROL", "TOTAL CHOLESTEROL"], "150-200", Range(150.0, 200.0), "mg/dL")
  }
  function Lymphocytes(): CatalogEntry {
    CatalogEntry(["Lymphocyte", "Lymphocytes", "LYMPH"], "20-40", Range(20.0, 40.0), "%")
  }
  function Neutrophils(): CatalogEntry {
    CatalogEntry(["Neutrophil", "Neutrophils", "NEUT"], "50-70", Range(50.0, 70.0), "%")
  }
  function Monocytes(): CatalogEntry {
    CatalogEntry(["Monocyte", "Monocytes", "MONO"], "2-10", Range(2.0, 10.0), "%")
  }
  function Eosinophils(): CatalogEntry {
    CatalogEntry(["Eosinophil", "Eosinophils", "EOS"], "1-4", Range(1.0, 4.0), "%")
  }
  function TotalProtein(): CatalogEntry {
    CatalogEntry(["Total Protein", "Protein", "TOTAL PROTEIN"], "6.0-8.3", Range(6.0, 8.3), "g/dL")
  }
  function Albumin(): CatalogEntry {
    CatalogEntry(["Albumin", "ALBUMIN", "SERUM ALBUMIN"], "3.5-5.0", Range(3.5, 5.0), "g/dL")
  }
  function Bilirubin(): CatalogEntry {
    CatalogEntry(["Bilirubin", "Total Bilirubin", "TOTAL BILIRUBIN"], "0.3-1.2", Range(0.3, 1.2), "mg/dL")
  }
  function Alt(): CatalogEntry {
    CatalogEntry(["ALT", "SGPT", "Alanine Transaminase", "ALANINE TRANSAMINASE"], "7-56", Range(7.0, 56.0), "U/L")
  }
  function Ast(): CatalogEntry {
    CatalogEntry(["AST", "SGOT", "Aspartate Transaminase", "ASPARTATE TRANSAMINASE"], "10-40", Range(10.0, 40.0), "U/L")
  }
  function Hdl(): CatalogEntry {
    CatalogEntry(["HDL", "HDL Cholesterol", "HIGH DENSITY LIPOPROTEIN"], "40-60", Range(40.0, 60.0), "mg/dL")
  }
  function Ldl(): CatalogEntry {
    CatalogEntry(["LDL", "LDL Cholesterol", "LOW DENSITY LIPOPROTEIN"], "100-130", Range(100.0, 130.0), "mg/dL")
  }
  function Triglycerides(): CatalogEntry {
    CatalogEntry(["Triglycerides", "TRIGLYCERIDES", "TG"], "150-200", Range(150.0, 200.0), "mg/dL")
  }
  function Tsh(): CatalogEntry {
    CatalogEntry(["TSH", "Thyroid Stimulating Hormone", "THYROID STIMULATING HORMONE"], "0.4-4.0", Range(0.4, 4.0), "mIU/L")
  }

  predicate IsAsciiLetter(c: char) {
    ('A' <= c <= 'Z') || ('a' <= c <= 'z')
  }

  /** A synonym is non-empty and starts and ends with a letter. */
  predicate WellFormedSynonym(s: string) {
    |s| > 0 && IsAsciiLetter(s[0]) && IsAsciiLetter(s[|s| - 1])
  }

  /** What the extractor relies on in an entry: at least one synonym, all of them well
      formed, and a range whose lower end is below its upper end. */
  predicate ValidEntry(e: CatalogEntry) {
    && |e.synonyms| > 0
    && (forall k :: 0 <= k < |e.synonyms| ==> WellFormedSynonym(e.synonyms[k]))
    && e.range.min < e.range.max
  }

  /** Every catalog entry is valid: in particular no range is empty, so the deviation's
      denominator is never zero. */
  lemma CatalogValid()
    ensures AllValid(Catalog())
  {
    HemoglobinToPlateletsValid();
    GlucoseToCholesterolValid();
    LymphocytesToEosinophilsValid();
    TotalProteinToAltValid();
    AstToTshValid();
  }

  lemma HemoglobinToPlateletsValid()
    ensures ValidEntry(Hemoglobin()) && ValidEntry(RedBloodCells()) && ValidEntry(WhiteBloodCells()) && ValidEntry(Platelets())
  {
  }

  lemma GlucoseToCholesterolValid()
    ensures ValidEntry(Glucose()) && ValidEntry(Creatinine()) && ValidEntry(Urea()) && ValidEntry(Cholesterol())
  {
  }

  lemma LymphocytesToEosinophilsValid()
    ensures ValidEntry(Lymphocytes()) && ValidEntry(Neutrophils()) && ValidEntry(Monocytes()) && ValidEntry(Eosinophils())
  {
  }

  lemma TotalProteinToAltValid()
    ensures ValidEntry(TotalProtein()) && ValidEntry(Albumin()) && ValidEntry(Bilirubin()) && ValidEntry(Alt())
  {
  }

  lemma AstToTshValid()
    ensures ValidEntry(Ast()) && ValidEntry(Hdl()) && ValidEntry(Ldl()) && ValidEntry(Triglycerides()) && ValidEntry(Tsh())
  {
  }

  /** `normalRange.split('-').map(v => parseFloat(v))`, read as a range: the first two
      pieces, each parsed as a number; `None` when there is no second piece or either piece
      is not a number. */
  function ParseRange(text: string): Option<Range> {
    var parts := Split(text, '-');
    if |parts| < 2 then None
    else
      var lo := ParseFloat(parts[0]);
      var hi := ParseFloat(parts[1]);
      if lo.Some? && hi.Some? then Some(Range(lo.value, hi.value)) else None
  }

  /** Two numerals joined by a hyphen parse to the range between their values. */
  lemma RangeOfNumerals(a: string, b: string)
    requires IsNumeral(a) && IsNumeral(b)
    ensures ParseRange(a + "-" + b) == Some(Range(NumeralValue(a), NumeralValue(b)))
  {
    NumeralHasNoHyphen(a);
    NumeralHasNoHyphen(b);
    SplitPair(a, b, '-');
    ParseFloatNumeral(a);
    ParseFloatNumeral(b);
  }

  /** The range text an entry stores in its records is the text of its range. */
  predicate RangeTextAgrees(e: CatalogEntry) {
    ParseRange(e.rangeText) == Some(e.range)
  }

  /** An entry whose range is written as two whole numbers. */
  lemma WholeRangeAgrees(e: CatalogEntry, lo: nat, hi: nat)
    requires e.rangeText == NatToString(lo) + "-" + NatToString(hi)
    requires e.range == Range(lo as real, hi as real)
    ensures RangeTextAgrees(e)
  {
    WholeRangeParses(lo, hi);
  }

  lemma WholeRangeParses(lo: nat, hi: nat)
    ensures ParseRange(NatToString(lo) + "-" + NatToString(hi)) == Some(Range(lo as real, hi as real))
  {
    IntegerNumeral(lo);
    IntegerNumeral(hi);
    RangeOfNumerals(NatToString(lo), NatToString(hi));
  }

  /** An entry whose range is written as two numbers with one decimal each; each bound is
      its text's digits read as tenths. */
  lemma DecimalRangeAgrees(e: CatalogEntry, lo: nat, loTenths: nat, hi: nat, hiTenths: nat)
    requires loTenths < 10 && hiTenths < 10
    requires e.rangeText == DecimalText(lo, loTenths) + "-" + DecimalText(hi, hiTenths)
    requires e.range == Range(Scaled(10 * lo + loTenths, 1), Scaled(10 * hi + hiTenths, 1))
    ensures RangeTextAgrees(e)
  {
    DecimalNumeral(lo, loTenths);
    DecimalNumeral(hi, hiTenths);
    RangeOfNumerals(DecimalText(lo, loTenths), DecimalText(hi, hiTenths));
  }

  /** Every catalog entry's range text, split at the hyphen and parsed the way the
      classifiers parse it, gives back exactly the range the model classifies against. */
  lemma CatalogRangesParse()
    ensures forall e :: e in Catalog() ==> RangeTextAgrees(e)
  {
    forall e | e in Catalog()
      ensures RangeTextAgrees(e)
    {
      CatalogEntries(e);
      HemoglobinToPlateletsParse();
      GlucoseToCholesterolParse();
      LymphocytesToEosinophilsParse();
      TotalProteinToAltParse();
      AstToTshParse();
    }
  }

  /** An entry of the catalog is one of its twenty-one tests. */
  lemma CatalogEntries(e: CatalogEntry)
    requires e in Catalog()
    ensures || e == Hemoglobin() || e == RedBloodCells() || e == WhiteBloodCells() || e == Platelets()
            || e == Glucose() || e == Creatinine() || e == Urea() || e == Cholesterol()
            || e == Lymphocytes() || e == Neutrophils() || e == Monocytes() || e == Eosinophils()
            || e == TotalProtein() || e == Albumin() || e == Bilirubin() || e == Alt()
            || e == Ast() || e == Hdl() || e == Ldl() || e == Triglycerides() || e == Tsh()
  {
    var c := Catalog();
    var k :| 0 <= k < |c| && c[k] == e;
  }

  lemma HemoglobinToPlateletsParse()
    ensures RangeTextAgrees(Hemoglobin()) && RangeTextAgrees(RedBloodCells()) && RangeTextAgrees(WhiteBloodCells()) && RangeTextAgrees(Platelets())
  {
    HemoglobinRangeParses();
    RedBloodCellsRangeParses();
    WhiteBloodCellsRangeParses();
    PlateletsRangeParses();
  }

  lemma HemoglobinRangeParses()
    ensures RangeTextAgrees(Hemoglobin())
  {
    assert DecimalText(13, 0) == "13.0" && DecimalText(17, 0) == "17.0";
    DecimalRangeAgrees(Hemoglobin(), 13, 0, 17, 0);
  }

  lemma RedBloodCellsRangeParses()
    ensures RangeTextAgrees(RedBloodCells())
  {
    assert DecimalText(4, 5) == "4.5" && DecimalText(5, 5) == "5.5";
    DecimalRangeAgrees(RedBloodCells(), 4, 5, 5, 5);
  }

  lemma WhiteBloodCellsRangeParses()
    ensures RangeTextAgrees(WhiteBloodCells())
  {
    TextOf4000();
    TextOf11000();
    WholeRangeAgrees(WhiteBloodCells(), 4000, 11000);
  }

  lemma TextOf4000()
    ensures NatToString(4000) == "4000"
  {
    assert NatToString(40) == "40";
    assert NatToString(400) == NatToString(40) + ['0'];
    assert NatToString(4000) == NatToString(400) + ['0'];
  }

  lemma TextOf11000()
    ensures NatToString(11000) == "11000"
  {
    assert NatToString(110) == "110";
    assert NatToString(1100) == NatToString(110) + ['0'];
    assert NatToString(11000) == NatToString(1100) + ['0'];
  }

  lemma PlateletsRangeParses()
    ensures RangeTextAgrees(Platelets())
  {
    assert NatToString(150) == "150" && NatToString(450) == "450";
    WholeRangeAgrees(Platelets(), 150, 450);
  }

  lemma GlucoseToCholesterolParse()
    ensures RangeTextAgrees(Glucose()) && RangeTextAgrees(Creatinine()) && RangeTextAgrees(Urea()) && RangeTextAgrees(Cholesterol())
  {
    GlucoseRangeParses();
    CreatinineRangeParses();
    UreaRangeParses();
    CholesterolRangeParses();
  }

  lemma GlucoseRangeParses()
    ensures RangeTextAgrees(Glucose())
  {
    assert NatToString(70) == "70" && NatToString(100) == "100";
    WholeRangeAgrees(Glucose(), 70, 100);
  }

  lemma CreatinineRangeParses()
    ensures RangeTextAgrees(Creatinine())
  {
    assert DecimalText(0, 6) == "0.6" && DecimalText(1, 3) == "1.3";
    DecimalRangeAgrees(Creatinine(), 0, 6, 1, 3);
  }

  lemma UreaRangeParses()
    ensures RangeTextAgrees(Urea())
  {
    assert NatToString(7) == "7" && NatToString(20) == "20";
    WholeRangeAgrees(Urea(), 7, 20);
  }

  lemma CholesterolRangeParses()
    ensures RangeTextAgrees(Cholesterol())
  {
    assert NatToString(150) == "150" && NatToString(200) == "200";
    WholeRangeAgrees(Cholesterol(), 150, 200);
  }

  lemma LymphocytesToEosinophilsParse()
    ensures RangeTextAgrees(Lymphocytes()) && RangeTextAgrees(Neutrophils()) && RangeTextAgrees(Monocytes()) && RangeTextAgrees(Eosinophils())
  {
    LymphocytesRangeParses();
    NeutrophilsRangeParses();
    MonocytesRangeParses();
    EosinophilsRangeParses();
  }

  lemma LymphocytesRangeParses()
    ensures RangeTextAgrees(Lymphocytes())
  {
    assert NatToString(20) == "20" && NatToString(40) == "40";
    WholeRangeAgrees(Lymphocytes(), 20, 40);
  }

  lemma NeutrophilsRangeParses()
    ensures RangeTextAgrees(Neutrophils())
  {
    assert NatToString(50) == "50" && NatToString(70) == "70";
    WholeRangeAgrees(Neutrophils(), 50, 70);
  }

  lemma MonocytesRangeParses()
    ensures RangeTextAgrees(Monocytes())
  {
    assert NatToString(2) == "2" && NatToString(10) == "10";
    WholeRangeAgrees(Monocytes(), 2, 10);
  }

  lemma EosinophilsRangeParses()
    ensures RangeTextAgrees(Eosinophils())
  {
    assert NatToString(1) == "1" && NatToString(4) == "4";
    WholeRangeAgrees(Eosinophils(), 1, 4);
  }

  lemma TotalProteinToAltParse()
    ensures RangeTextAgrees(TotalProtein()) && RangeTextAgrees(Albumin()) && RangeTextAgrees(Bilirubin()) && RangeTextAgrees(Alt())
  {
    TotalProteinRangeParses();
    AlbuminRangeParses();
    BilirubinRangeParses();
    AltRangeParses();
  }

  lemma TotalProteinRangeParses()
    ensures RangeTextAgrees(TotalProtein())
  {
    assert DecimalText(6, 0) == "6.0" && DecimalText(8, 3) == "8.3";
    DecimalRangeAgrees(TotalProtein(), 6, 0, 8, 3);
  }

  lemma AlbuminRangeParses()
    ensures RangeTextAgrees(Albumin())
  {
    assert DecimalText(3, 5) == "3.5" && DecimalText(5, 0) == "5.0";
    DecimalRangeAgrees(Albumin(), 3, 5, 5, 0);
  }

  lemma BilirubinRangeParses()
    ensures RangeTextAgrees(Bilirubin())
  {
    assert DecimalText(0, 3) == "0.3" && DecimalText(1, 2) == "1.2";
    DecimalRangeAgrees(Bilirubin(), 0, 3, 1, 2);
  }

  lemma AltRangeParses()
    ensures RangeTextAgrees(Alt())
  {
    assert NatToString(7) == "7" && NatToString(56) == "56";
    WholeRangeAgrees(Alt(), 7, 56);
  }

  lemma AstToTshParse()
    ensures RangeTextAgrees(Ast()) && RangeTextAgrees(Hdl()) && RangeTextAgrees(Ldl()) && RangeTextAgrees(Triglycerides()) && RangeTextAgrees(Tsh())
  {
    AstRangeParses();
    HdlRangeParses();
    LdlRangeParses();
    TriglyceridesRangeParses();
    TshRangeParses();
  }

  lemma AstRangeParses()
    ensures RangeTextAgrees(Ast())
  {
    assert NatToString(10) == "10" && NatToString(40) == "40";
    WholeRangeAgrees(Ast(), 10, 40);
  }

  lemma HdlRangeParses()
    ensures RangeTextAgrees(Hdl())
  {
    assert NatToString(40) == "40" && NatToString(60) == "60";
    WholeRangeAgrees(Hdl(), 40, 60);
  }

  lemma LdlRangeParses()
    ensures RangeTextAgrees(Ldl())
  {
    assert NatToString(100) == "100" && NatToString(130) == "130";
    WholeRangeAgrees(Ldl(), 100, 130);
  }

  lemma TriglyceridesRangeParses()
    ensures RangeTextAgrees(Triglycerides())
  {
    assert NatToString(150) == "150" && NatToString(200) == "200";
    WholeRangeAgrees(Triglycerides(), 150, 200);
  }

  lemma TshRangeParses()
    ensures RangeTextAgrees(Tsh())
  {
    assert DecimalText(0, 4) == "0.4" && DecimalText(4, 0) == "4.0";
    DecimalRangeAgrees(Tsh(), 0, 4, 4, 0);
  }

  // ---------------------------------------------------------------------------
  // Classification

  /** `determineStatus`: low below the range, high above it, normal on it (both ends included). */
  function DetermineStatus(value: real, range: Range): (s: Status)
    ensures s == Status.Low <==> value < range.min
    ensures s == Status.High <==> range.min <= value && range.max < value
    ensures s == Status.Normal <==> range.min <= value <= range.max
  {
    if value < range.min then Status.Low
    else if value > range.max then Status.High
    else Status.Normal
  }

  /** Distance of an out-of-range value from the range end it crossed, in units of the
      range's width. */
  function Deviation(status: Status, value: real, range: Range): real
    requires range.min < range.max
  {
    (if status == Status.High then value - range.max else range.min - value) / (range.max - range.min)
  }

  /** `determineSeverity`: normal exactly when the status is, never 'monitor'. The TypeScript service
      divides the distance past the crossed end by the range's width and compares the
      quotient with 0.5 and 0.2; since the width is positive, the distance is compared with
      those fractions of the width instead, and `SeverityTiers` states the tiers in terms of
      the quotient. */
  function DetermineSeverity(status: Status, value: real, range: Range): (s: Severity)
    requires range.min < range.max
    ensures s == Severity.Normal <==> status == Status.Normal
    ensures s != Severity.Monitor
  {
    if status == Status.Normal then Severity.Normal
    else
      var width := range.max - range.min;
      var distance := if status == Status.High then value - range.max else range.min - value;
      if distance > 0.5 * width then Severity.Critical
      else if distance > 0.2 * width then Severity.Moderate
      else Severity.Mild
  }

  /** A positive divisor keeps the order of a quotient against a bound. */
  lemma QuotientAbove(d: real, w: real, t: real)
    requires w > 0.0
    ensures d / w > t <==> d > t * w
  {
    if d / w > t {
      assert d == (d / w) * w;
    }
    if d > t * w {
      assert d / w == d * (1.0 / w);
    }
  }

  /** An out-of-range value is critical above a deviation of 0.5, moderate above 0.2 and
      mild up to and including 0.2. */
  lemma SeverityTiers(status: Status, value: real, range: Range)
    requires range.min < range.max && status != Status.Normal
    ensures var s := DetermineSeverity(status, value, range);
            && (s == Severity.Critical <==> Deviation(status, value, range) > 0.5)
            && (s == Severity.Moderate <==> 0.2 < Deviation(status, value, range) <= 0.5)
            && (s == Severity.Mild <==> Deviation(status, value, range) <= 0.2)
  {
    var width := range.max - range.min;
    var distance := if status == Status.High then value - range.max else range.min - value;
    assert Deviation(status, value, range) == distance / width;
    QuotientAbove(distance, width, 0.5);
    QuotientAbove(distance, width, 0.2);
  }

  /** The severity of a value classified against a range. */
  function Classify(value: real, range: Range): Severity
    requires range.min < range.max
  {
    DetermineSeverity(DetermineStatus(value, range), value, range)
  }

  /** Severity never decreases as the deviation grows: the two thresholds are the only steps. */
  lemma SeverityMonotoneInDeviation(status: Status, v1: real, v2: real, range: Range)
    requires range.min < range.max && status != Status.Normal
    requires Deviation(status, v1, range) <= Deviation(status, v2, range)
    ensures SeverityRank(DetermineSeverity(status, v1, range)) <= SeverityRank(DetermineSeverity(status, v2, range))
  {
    SeverityTiers(status, v1, range);
    SeverityTiers(status, v2, range);
  }

  lemma DivideMonotone(a: real, b: real, w: real)
    requires w > 0.0 && a <= b
    ensures a / w <= b / w
  {
  }

  /** Moving a value further away from its range, on either side, never lowers its severity. */
  lemma SeverityMonotoneInDistance(v1: real, v2: real, range: Range)
    requires range.min < range.max
    requires (range.max <= v1 <= v2) || (v2 <= v1 <= range.min)
    ensures SeverityRank(Classify(v1, range)) <= SeverityRank(Classify(v2, range))
  {
    var w := range.max - range.min;
    if range.max < v1 {
      DivideMonotone(v1 - range.max, v2 - range.max, w);
    } else if v1 < range.min {
      DivideMonotone(range.min - v1, range.min - v2, w);
    }
  }

  /** The thresholds are strict: a deviation of exactly 0.2 is mild and of exactly 0.5 moderate. */
  lemma ThresholdsAreExclusive(status: Status, value: real, range: Range)
    requires range.min < range.max && status != Status.Normal
    ensures Deviation(status, value, range) == 0.2 ==> DetermineSeverity(status, value, range) == Severity.Mild
    ensures Deviation(status, value, range) == 0.5 ==> DetermineSeverity(status, value, range) == Severity.Moderate
  {
  }

  /** Hemoglobin 10.5 against 13.0-17.0: low, deviation 2.5 / 4.0 = 0.625, critical. */
  lemma HemoglobinScenario()
    ensures DetermineStatus(10.5, Range(13.0, 17.0)) == Status.Low
    ensures Classify(10.5, Range(13.0, 17.0)) == Severity.Critical
  {
  }

  /** 17.8 against 13.0-17.0 deviates by exactly 0.2 in exact arithmetic, so it is mild. */
  lemma UpperBoundaryScenario()
    ensures Classify(17.8, Range(13.0, 17.0)) == Severity.Mild
  {
    assert Deviation(Status.High, 17.8, Range(13.0, 17.0)) == 0.2;
  }

  // ---------------------------------------------------------------------------
  // Matching

  /** The three pattern shapes, tried in this order:
      `(name)\s*[:\-]?\s*(number)\s*(?:unit)?`, `(name).*?(number)` and
      `(number)\s*(?:unit)?\s*.*?(name)`, all case-insensitive. */
  datatype Shape = NameColonValue | NameThenValue | ValueThenName

  const Shapes: seq<Shape> := [NameColonValue, NameThenValue, ValueThenName]

  /** The two capture groups of a match, `match[1]` and `match[2]`. */
  datatype Groups = Groups(first: string, second: string)

  /** The regular-expression engine: the groups of the first match of the shape built for
      an entry in a line, or None when the line does not match. */
  type Matcher = (string, CatalogEntry, Shape) -> Option<Groups>

  /** `text` is one of the entry's synonyms, up to case (the patterns carry the `i` flag). */
  predicate IsSynonymText(e: CatalogEntry, text: string) {
    exists k :: 0 <= k < |e.synonyms| && Lower(text) == Lower(e.synonyms[k])
  }

  /** What a match of each shape captures: the synonym text and a `[0-9]+\.?[0-9]*` numeral,
      in the shape's order. */
  predicate ShapeOf(e: CatalogEntry, shape: Shape, g: Groups) {
    if shape == ValueThenName then IsNumeral(g.first) && IsSynonymText(e, g.second)
    else IsSynonymText(e, g.first) && IsNumeral(g.second)
  }

  /** A matcher that captures what its patterns can capture. */
  ghost predicate SoundMatcher(m: Matcher) {
    forall line, e, shape :: m(line, e, shape).Some? ==> ShapeOf(e, shape, m(line, e, shape).value)
  }

  /** A match's raw name (used for the duplicate check) and the record built from it. */
  datatype Hit = Hit(rawName: string, record: LabParameter)

  /** Lines 47-61: the name is `match[1]` when that is present and not a number, otherwise
      `match[2]` (or the first synonym when that is empty) with the value taken from
      `match[1]`; a value that is NaN or not positive yields nothing. */
  function Candidate(e: CatalogEntry, g: Groups): (h: Option<Hit>)
    requires ValidEntry(e)
    ensures h.Some? ==> h.value.record.value > 0.0
  {
    var nameFirst := g.first != "" && ParseFloat(g.first).None?;
    var name := if nameFirst then g.first else if g.second != "" then g.second else e.synonyms[0];
    var value := ParseFloat(if nameFirst then g.second else g.first);
    if value.Some? && value.value > 0.0 then
      var status := DetermineStatus(value.value, e.range);
      var severity := DetermineSeverity(status, value.value, e.range);
      Some(Hit(name, LabParameter(Trim(name), value.value, e.unit, e.rangeText, status, severity)))
    else
      None
  }

  lemma SameLetterCase(c: char, d: char)
    requires LowerChar(c) == LowerChar(d)
    ensures IsAsciiLetter(c) <==> IsAsciiLetter(d)
    ensures IsWhitespace(c) <==> IsWhitespace(d)
    ensures IsDigit(c) <==> IsDigit(d)
  {
  }

  /** The synonym text starts with a letter and is its own trim. */
  lemma SynonymTextShape(e: CatalogEntry, text: string)
    requires ValidEntry(e) && IsSynonymText(e, text)
    ensures text != [] && !IsWhitespace(text[0]) && !IsDigit(text[0])
    ensures Trim(text) == text
  {
    var k :| 0 <= k < |e.synonyms| && Lower(text) == Lower(e.synonyms[k]);
    var syn := e.synonyms[k];
    assert WellFormedSynonym(syn);
    var n := |text|;
    assert n == |Lower(text)| == |syn|;
    assert Lower(text)[0] == Lower(syn)[0];
    SameLetterCase(text[0], syn[0]);
    assert Lower(text)[n - 1] == Lower(syn)[n - 1];
    SameLetterCase(text[n - 1], syn[n - 1]);
    TrimOfTrimmed(text);
  }

  /** The disambiguation reads a sound match the right way round: the name is the synonym
      group, whichever side it is on, and the value is the numeral's exact value. */
  lemma CandidateOfSoundMatch(e: CatalogEntry, shape: Shape, g: Groups)
    requires ValidEntry(e) && ShapeOf(e, shape, g)
    ensures var name := if shape == ValueThenName then g.second else g.first;
            var numeral := if shape == ValueThenName then g.first else g.second;
            && IsNumeral(numeral)
            && (NumeralValue(numeral) > 0.0 ==>
                  Candidate(e, g).Some?
                  && Candidate(e, g).value.rawName == name
                  && Candidate(e, g).value.record.name == name
                  && Candidate(e, g).value.record.value == NumeralValue(numeral))
            && (NumeralValue(numeral) <= 0.0 ==> Candidate(e, g).None?)
  {
    if shape == ValueThenName {
      SynonymTextShape(e, g.second);
      ParseFloatNumeral(g.first);
    } else {
      SynonymTextShape(e, g.first);
      ParseFloatNonNumeric(g.first);
      ParseFloatNumeral(g.second);
    }
  }

  /** `parameters.some(...)` at lines 64-67: a collected name contains the new name or the
      new name contains it, ignoring case. */
  predicate IsDuplicate(ps: seq<LabParameter>, name: string) {
    exists i | 0 <= i < |ps| ::
      Contains(Lower(ps[i].name), Lower(name)) || Contains(Lower(name), Lower(ps[i].name))
  }

  // ---------------------------------------------------------------------------
  // The scan, as a specification of the loops in `extractParameters`

  /** The inner loop over the shapes for one entry and one line: the first shape whose match
      gives a fresh, valid record appends it and ends the loop (`break`); a missing match,
      an invalid value or a duplicate falls through to the next shape. */
  function EntryScan(ps: seq<LabParameter>, line: string, e: CatalogEntry, shapes: seq<Shape>, m: Matcher): seq<LabParameter>
    requires ValidEntry(e)
  {
    if shapes == [] then ps
    else
      var found := m(line, e, shapes[0]);
      var hit := if found.Some? then Candidate(e, found.value) else None;
      if hit.Some? && !IsDuplicate(ps, hit.value.rawName) then ps + [hit.value.record]
      else EntryScan(ps, line, e, shapes[1..], m)
  }

  predicate AllValid(entries: seq<CatalogEntry>) {
    forall k :: 0 <= k < |entries| ==> ValidEntry(entries[k])
  }

  /** The loop over the catalog for one line: every entry is tried, in catalog order, even
      after an earlier entry appended (the `break` leaves only the loop over the shapes). */
  function LineScan(ps: seq<LabParameter>, line: string, entries: seq<CatalogEntry>, m: Matcher): seq<LabParameter>
    requires AllValid(entries)
    decreases |entries|
  {
    if entries == [] then ps
    else LineScan(EntryScan(ps, line, entries[0], Shapes, m), line, entries[1..], m)
  }

  /** The loop over the lines. */
  function TextScan(ps: seq<LabParameter>, lines: seq<string>, entries: seq<CatalogEntry>, m: Matcher): seq<LabParameter>
    requires AllValid(entries)
    decreases |lines|
  {
    if lines == [] then ps
    else TextScan(LineScan(ps, lines[0], entries, m), lines[1..], entries, m)
  }

  /** The records `extractParameters` returns for a text. */
  function Extract(text: string, m: Matcher): seq<LabParameter> {
    CatalogValid();
    TextScan([], Split(text, '\n'), Catalog(), m)
  }

  // ---------------------------------------------------------------------------
  // Properties of the scan

  /** A record built from a catalog entry: positive value, the entry's unit and range text,
      and status and severity computed from the value and the entry's range. */
  predicate RecordOf(p: LabParameter, e: CatalogEntry)
    requires e.range.min < e.range.max
  {
    && p.value > 0.0
    && p.unit == e.unit
    && p.normalRange == e.rangeText
    && p.status == DetermineStatus(p.value, e.range)
    && p.severity == DetermineSeverity(p.status, p.value, e.range)
  }

  /** Every record was built from one of the entries. */
  predicate AllRecordsFrom(ps: seq<LabParameter>, entries: seq<CatalogEntry>) {
    forall i :: 0 <= i < |ps| ==>
      exists e :: e in entries && e.range.min < e.range.max && RecordOf(ps[i], e)
  }

  /** No record's name contains, ignoring case, the name of a record collected before it. */
  predicate LaterNamesFresh(ps: seq<LabParameter>) {
    forall i, j :: 0 <= i < j < |ps| ==> !Contains(Lower(ps[j].name), Lower(ps[i].name))
  }

  /** No two records' names contain one another, ignoring case. */
  predicate NamesSeparate(ps: seq<LabParameter>) {
    forall i, j :: 0 <= i < |ps| && 0 <= j < |ps| && i != j ==> !Contains(Lower(ps[i].name), Lower(ps[j].name))
  }

  /** Every record's name is a synonym of some entry, up to case. */
  predicate NamesAreSynonyms(ps: seq<LabParameter>, entries: seq<CatalogEntry>) {
    forall i :: 0 <= i < |ps| ==> exists e :: e in entries && IsSynonymText(e, ps[i].name)
  }

  /** What one step of the inner loop may append keeps the collected records' invariants:
      the new name does not contain an earlier one, and for a trimmed name neither does an
      earlier name contain it. */
  lemma {:induction false} AppendFresh(ps: seq<LabParameter>, h: Hit)
    requires !IsDuplicate(ps, h.rawName) && h.record.name == Trim(h.rawName)
    ensures forall i :: 0 <= i < |ps| ==> !Contains(Lower(h.record.name), Lower(ps[i].name))
    ensures Trim(h.rawName) == h.rawName ==>
      forall i :: 0 <= i < |ps| ==> !Contains(Lower(ps[i].name), Lower(h.record.name))
  {
    ContainsLower(h.rawName, h.record.name);
    forall i | 0 <= i < |ps|
      ensures !Contains(Lower(h.record.name), Lower(ps[i].name))
    {
      assert !Contains(Lower(h.rawName), Lower(ps[i].name));
      ContainsTransitive(Lower(h.rawName), Lower(h.record.name), Lower(ps[i].name));
    }
  }

  /** Appending a record built from an entry of `all`, whose name contains no earlier name,
      keeps both invariants of the collected records. */
  lemma AppendKeeps(ps: seq<LabParameter>, p: LabParameter, e: CatalogEntry, all: seq<CatalogEntry>)
    requires e in all && e.range.min < e.range.max && RecordOf(p, e)
    requires AllRecordsFrom(ps, all) && LaterNamesFresh(ps)
    requires forall i :: 0 <= i < |ps| ==> !Contains(Lower(p.name), Lower(ps[i].name))
    ensures AllRecordsFrom(ps + [p], all) && LaterNamesFresh(ps + [p])
  {
    var r := ps + [p];
    forall i | 0 <= i < |r|
      ensures exists e' :: e' in all && e'.range.min < e'.range.max && RecordOf(r[i], e')
    {
      if i == |ps| { assert r[i] == p; } else { assert r[i] == ps[i]; }
    }
  }

  /** One entry's scan appends at most one record, built from that entry, whose name
      does not contain any earlier one. */
  lemma {:induction false} EntryScanAppendsOne(ps: seq<LabParameter>, line: string, e: CatalogEntry, shapes: seq<Shape>, m: Matcher)
    requires ValidEntry(e)
    ensures var r := EntryScan(ps, line, e, shapes, m);
            && (r == ps || (|r| == |ps| + 1 && r[..|ps|] == ps))
            && (|r| == |ps| + 1 ==>
                  && RecordOf(r[|ps|], e)
                  && (forall i :: 0 <= i < |ps| ==> !Contains(Lower(r[|ps|].name), Lower(ps[i].name))))
    decreases |shapes|
  {
    if shapes != [] {
      var found := m(line, e, shapes[0]);
      var hit := if found.Some? then Candidate(e, found.value) else None;
      if hit.Some? && !IsDuplicate(ps, hit.value.rawName) {
        AppendFresh(ps, hit.value);
        assert (ps + [hit.value.record])[..|ps|] == ps;
      } else {
        EntryScanAppendsOne(ps, line, e, shapes[1..], m);
      }
    }
  }

  /** A record built from a match of the right shape is named by a synonym of its entry,
      and that name is contained in no earlier name unless it is a duplicate. */
  lemma SoundHit(ps: seq<LabParameter>, e: CatalogEntry, shape: Shape, g: Groups)
    requires ValidEntry(e) && ShapeOf(e, shape, g)
    requires Candidate(e, g).Some? && !IsDuplicate(ps, Candidate(e, g).value.rawName)
    ensures AppendedSound(ps, ps + [Candidate(e, g).value.record], e)
  {
    CandidateOfSoundMatch(e, shape, g);
    var name := if shape == ValueThenName then g.second else g.first;
    SynonymTextShape(e, name);
    AppendFresh(ps, Candidate(e, g).value);
    assert (ps + [Candidate(e, g).value.record])[|ps|] == Candidate(e, g).value.record;
  }

  /** What a scan appended to `ps`, if anything, is named by a synonym of `e` and contained
      in no earlier name. */
  predicate AppendedSound(ps: seq<LabParameter>, r: seq<LabParameter>, e: CatalogEntry) {
    |r| == |ps| + 1 ==>
      && IsSynonymText(e, r[|ps|].name)
      && (forall i :: 0 <= i < |ps| ==> !Contains(Lower(ps[i].name), Lower(r[|ps|].name)))
  }

  /** With a sound matcher, what one entry's scan appends keeps the names pairwise separate
      and is named by a synonym of that entry. */
  lemma {:induction false} EntryScanSound(ps: seq<LabParameter>, line: string, e: CatalogEntry, shapes: seq<Shape>, m: Matcher)
    requires ValidEntry(e) && SoundMatcher(m)
    ensures AppendedSound(ps, EntryScan(ps, line, e, shapes, m), e)
    decreases |shapes|
  {
    if shapes != [] {
      var found := m(line, e, shapes[0]);
      var hit := if found.Some? then Candidate(e, found.value) else None;
      if hit.Some? && !IsDuplicate(ps, hit.value.rawName) {
        assert ShapeOf(e, shapes[0], found.value);
        SoundHit(ps, e, shapes[0], found.value);
      } else {
        EntryScanSound(ps, line, e, shapes[1..], m);
      }
    }
  }

  /** The catalog loop for one line keeps every invariant of the collected records and
      adds at most one record per entry; the records already collected stay as they are. */
  lemma {:induction false} LineScanKeeps(ps: seq<LabParameter>, line: string, entries: seq<CatalogEntry>, all: seq<CatalogEntry>, m: Matcher)
    requires AllValid(entries) && forall e :: e in entries ==> e in all
    requires AllRecordsFrom(ps, all) && LaterNamesFresh(ps)
    ensures var r := LineScan(ps, line, entries, m);
            && |ps| <= |r| <= |ps| + |entries|
            && r[..|ps|] == ps
            && AllRecordsFrom(r, all)
            && LaterNamesFresh(r)
    decreases |entries|
  {
    if entries != [] {
      var e := entries[0];
      var next := EntryScan(ps, line, e, Shapes, m);
      EntryScanAppendsOne(ps, line, e, Shapes, m);
      if |next| == |ps| + 1 {
        assert next == ps + [next[|ps|]];
        AppendKeeps(ps, next[|ps|], e, all);
      }
      assert AllValid(entries[1..]);
      LineScanKeeps(next, line, entries[1..], all, m);
      var r := LineScan(next, line, entries[1..], m);
      assert r == LineScan(ps, line, entries, m);
      assert r[..|ps|] == r[..|next|][..|ps|];
    }
  }

  /** Scanning the lines keeps every invariant, never changes what was collected before,
      and adds at most one record per line and entry. */
  lemma {:induction false} TextScanKeeps(ps: seq<LabParameter>, lines: seq<string>, entries: seq<CatalogEntry>, m: Matcher)
    requires AllValid(entries)
    requires AllRecordsFrom(ps, entries) && LaterNamesFresh(ps)
    ensures var r := TextScan(ps, lines, entries, m);
            && |ps| <= |r| <= |ps| + |lines| * |entries|
            && r[..|ps|] == ps
            && AllRecordsFrom(r, entries)
            && LaterNamesFresh(r)
    decreases |lines|
  {
    if lines != [] {
      var next := LineScan(ps, lines[0], entries, m);
      LineScanKeeps(ps, lines[0], entries, entries, m);
      TextScanKeeps(next, lines[1..], entries, m);
      var r := TextScan(next, lines[1..], entries, m);
      assert r[..|ps|] == r[..|next|][..|ps|];
      assert |lines| * |entries| == |entries| + (|lines| - 1) * |entries|;
    }
  }

  /** With a sound matcher, the catalog loop for one line keeps the names pairwise separate
      and each one a synonym of an entry. */
  lemma {:induction false} LineScanSound(ps: seq<LabParameter>, line: string, entries: seq<CatalogEntry>, all: seq<CatalogEntry>, m: Matcher)
    requires AllValid(entries) && (forall e :: e in entries ==> e in all) && SoundMatcher(m)
    requires NamesSeparate(ps) && NamesAreSynonyms(ps, all)
    ensures var r := LineScan(ps, line, entries, m);
            NamesSeparate(r) && NamesAreSynonyms(r, all)
    decreases |entries|
  {
    if entries != [] {
      var e := entries[0];
      var next := EntryScan(ps, line, e, Shapes, m);
      EntryScanAppendsOne(ps, line, e, Shapes, m);
      EntryScanSound(ps, line, e, Shapes, m);
      if |next| == |ps| + 1 {
        assert next == ps + [next[|ps|]];
        AppendSeparate(ps, next[|ps|]);
        AppendSynonym(ps, next[|ps|], e, all);
      }
      assert AllValid(entries[1..]);
      LineScanSound(next, line, entries[1..], all, m);
    }
  }

  /** A new name that neither contains nor is contained in an earlier one keeps the names
      pairwise separate. */
  lemma AppendSeparate(ps: seq<LabParameter>, p: LabParameter)
    requires NamesSeparate(ps)
    requires forall i :: 0 <= i < |ps| ==> !Contains(Lower(p.name), Lower(ps[i].name))
    requires forall i :: 0 <= i < |ps| ==> !Contains(Lower(ps[i].name), Lower(p.name))
    ensures NamesSeparate(ps + [p])
  {
    var r := ps + [p];
    forall i, j | 0 <= i < |r| && 0 <= j < |r| && i != j
      ensures !Contains(Lower(r[i].name), Lower(r[j].name))
    {
      if i < |ps| && j < |ps| { assert r[i] == ps[i] && r[j] == ps[j]; }
      else if i < |ps| { assert r[i] == ps[i] && r[j] == p; }
      else { assert r[i] == p && r[j] == ps[j]; }
    }
  }

  lemma AppendSynonym(ps: seq<LabParameter>, p: LabParameter, e: CatalogEntry, all: seq<CatalogEntry>)
    requires NamesAreSynonyms(ps, all) && e in all && IsSynonymText(e, p.name)
    ensures NamesAreSynonyms(ps + [p], all)
  {
    var r := ps + [p];
    forall i | 0 <= i < |r|
      ensures exists e' :: e' in all && IsSynonymText(e', r[i].name)
    {
      if i == |ps| { assert r[i] == p; } else { assert r[i] == ps[i]; }
    }
  }

  /** The loop over the lines keeps, with a sound matcher, the names pairwise separate and
      each one a synonym of an entry. */
  lemma {:induction false} TextScanSound(ps: seq<LabParameter>, lines: seq<string>, entries: seq<CatalogEntry>, m: Matcher)
    requires AllValid(entries) && SoundMatcher(m)
    requires NamesSeparate(ps) && NamesAreSynonyms(ps, entries)
    ensures var r := TextScan(ps, lines, entries, m);
            NamesSeparate(r) && NamesAreSynonyms(r, entries)
    decreases |lines|
  {
    if lines != [] {
      LineScanSound(ps, lines[0], entries, entries, m);
      TextScanSound(LineScan(ps, lines[0], entries, m), lines[1..], entries, m);
    }
  }

  /** Scanning two runs of lines is scanning the first, then the second from where the
      first left off. */
  lemma {:induction false} TextScanAppend(ps: seq<LabParameter>, l1: seq<string>, l2: seq<string>, entries: seq<CatalogEntry>, m: Matcher)
    requires AllValid(entries)
    ensures TextScan(ps, l1 + l2, entries, m) == TextScan(TextScan(ps, l1, entries, m), l2, entries, m)
    decreases |l1|
  {
    if l1 == [] {
      assert l1 + l2 == l2;
    } else {
      assert (l1 + l2)[0] == l1[0];
      assert (l1 + l2)[1..] == l1[1..] + l2;
      TextScanAppend(LineScan(ps, l1[0], entries, m), l1[1..], l2, entries, m);
    }
  }

  // ---------------------------------------------------------------------------
  // extractParameters

  /** `extractParameters`: the text split into lines, each scanned against the catalog. */
  method ExtractParameters(text: string, m: Matcher) returns (parameters: seq<LabParameter>)
    ensures parameters == Extract(text, m)
  {
    CatalogValid();
    var lines := Split(text, '\n');
    parameters := ScanLines(lines, Catalog(), m);
  }

  /** The loops of `extractParameters`: every line against every entry with the three
      shapes in turn, the first fresh valid record of an entry ending that entry's shape
      loop. */
  method ScanLines(lines: seq<string>, entries: seq<CatalogEntry>, m: Matcher) returns (parameters: seq<LabParameter>)
    requires AllValid(entries)
    ensures parameters == TextScan([], lines, entries, m)
  {
    parameters := [];
    var i := 0;
    while i < |lines|
      invariant 0 <= i <= |lines|
      invariant TextScan(parameters, lines[i..], entries, m) == TextScan([], lines, entries, m)
    {
      var line := lines[i];
      var k := 0;
      assert lines[i..][1..] == lines[i + 1..];
      while k < |entries|
        invariant 0 <= k <= |entries|
        invariant TextScan(LineScan(parameters, line, entries[k..], m), lines[i + 1..], entries, m) == TextScan([], lines, entries, m)
      {
        var entry := entries[k];
        ghost var atEntry := parameters;
        var j := 0;
        while j < |Shapes|
          invariant 0 <= j <= |Shapes|
          invariant parameters == atEntry
          invariant EntryScan(atEntry, line, entry, Shapes[j..], m) == EntryScan(atEntry, line, entry, Shapes, m)
        {
          var found := m(line, entry, Shapes[j]);
          if found.Some? {
            var hit := Candidate(entry, found.value);
            if hit.Some? && !IsDuplicate(parameters, hit.value.rawName) {
              parameters := parameters + [hit.value.record];
              break;
            }
          }
          assert Shapes[j..][1..] == Shapes[j + 1..];
          j := j + 1;
        }
        assert parameters == EntryScan(atEntry, line, entry, Shapes, m);
        assert entries[k..][1..] == entries[k + 1..];
        k := k + 1;
      }
      i := i + 1;
    }
  }

  /** What `extractParameters` returns, for any matcher: positive values classified against
      the range of the catalog entry they were found for, no name containing an earlier one,
      and at most one record per line and entry. */
  lemma ExtractKeeps(text: string, m: Matcher)
    ensures var r := Extract(text, m);
            && |r| <= |Split(text, '\n')| * |Catalog()|
            && AllRecordsFrom(r, Catalog())
            && LaterNamesFresh(r)
  {
    CatalogValid();
    TextScanKeeps([], Split(text, '\n'), Catalog(), m);
  }

  /** With a matcher that captures what its patterns can, no two extracted names contain one
      another and each is a catalog synonym up to case. */
  lemma ExtractSound(text: string, m: Matcher)
    requires SoundMatcher(m)
    ensures NamesSeparate(Extract(text, m)) && NamesAreSynonyms(Extract(text, m), Catalog())
  {
    CatalogValid();
    TextScanSound([], Split(text, '\n'), Catalog(), m);
  }

  /** Appending lines to a report never changes or removes the parameters found in the
      lines before them. */
  lemma ExtractPrefix(a: string, b: string, m: Matcher)
    ensures var r := Extract(a + "\n" + b, m);
            |Extract(a, m)| <= |r| && r[..|Extract(a, m)|] == Extract(a, m)
  {
    ExtractAppend(a, b, m);
    ExtractKeeps(a, m);
    CatalogValid();
    TextScanKeeps(Extract(a, m), Split(b, '\n'), Catalog(), m);
  }

  /** The lines after a line break are scanned after the lines before it. */
  lemma ExtractAppend(a: string, b: string, m: Matcher)
    ensures AllValid(Catalog()) && Extract(a + "\n" + b, m) == TextScan(Extract(a, m), Split(b, '\n'), Catalog(), m)
  {
    CatalogValid();
    SplitAppend(a, b, '\n');
    TextScanAppend([], Split(a, '\n'), Split(b, '\n'), Catalog(), m);
  }
}
