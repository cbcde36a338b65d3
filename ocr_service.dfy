/** The earlier parsers of the OCR service: one loose pattern per catalog entry with every
    match recorded, and a patient-information reader built from one pattern per field and
    `||` defaults. Classification is the same as the lab-parameter extractor's. */
module OcrService {
  import opened Wrappers
  import opened Strings
  import opened Numbers
  import opened LabTypes
  import opened ParameterExtractor
  import opened Collections

  // ---------------------------------------------------------------------------
  // extractParameters

  /** The earlier, smaller catalog. Protein has a different range and unit here, and
      chloride appears only here. */
  function LegacyCatalog(): seq<CatalogEntry> {
    [
      CatalogEntry(["Hemoglobin", "HB", "Hb"], "13.0-17.0", Range(13.0, 17.0), "g/dL"),
      CatalogEntry(["Red Blood Cell", "RBC"], "4.5-5.5", Range(4.5, 5.5), "million/mcL"),
      CatalogEntry(["White Blood Cell", "WBC"], "4000-11000", Range(4000.0, 11000.0), "/mcL"),
      CatalogEntry(["Platelet", "PLT"], "150-450", Range(150.0, 450.0), "thousand/mcL"),
      CatalogEntry(["Glucose", "Sugar"], "70-100", Range(70.0, 100.0), "mg/dL"),
      CatalogEntry(["Creatinine"], "0.6-1.3", Range(0.6, 1.3), "mg/dL"),
      CatalogEntry(["Urea", "BUN"], "7-20", Range(7.0, 20.0), "mg/dL"),
      CatalogEntry(["Cholesterol"], "150-200", Range(150.0, 200.0), "mg/dL"),
      CatalogEntry(["Lymphocyte"], "20-40", Range(20.0, 40.0), "%"),
      CatalogEntry(["Neutrophil"], "50-70", Range(50.0, 70.0), "%"),
      CatalogEntry(["Monocyte"], "2-10", Range(2.0, 10.0), "%"),
      CatalogEntry(["Eosinophil"], "1-4", Range(1.0, 4.0), "%"),
      CatalogEntry(["Protein"], "20-45", Range(20.0, 45.0), "mg/dL"),
      CatalogEntry(["Chloride"], "98-107", Range(98.0, 107.0), "mg/dL")
    ]
  }

  /** Every range of the earlier catalog is non-empty and starts above zero. */
  lemma LegacyCatalogRanges()
    ensures RangesValid(LegacyCatalog()) && RangesPositive(LegacyCatalog())
  {
  }

  /** Every range starts above zero. */
  predicate RangesPositive(entries: seq<CatalogEntry>) {
    forall k :: 0 <= k < |entries| ==> 0.0 < entries[k].range.min
  }

  /** Text that `[0-9]+\.?[0-9]*` matches; the second group of the loose pattern is one. */
  type Numeral = s: string | IsNumeral(s) witness "0"

  /** The groups of a match of `(name).*?(number)`. */
  datatype LegacyMatch = LegacyMatch(name: string, number: Numeral)

  /** The regular-expression engine for the loose pattern built from an entry. */
  type LegacyMatcher = (string, CatalogEntry) -> Option<LegacyMatch>

  /** The record pushed for a match: the captured name as it is, `parseFloat` of the
      number, the entry's unit and range text, and the classification. */
  function LegacyRecord(e: CatalogEntry, g: LegacyMatch): LabParameter
    requires e.range.min < e.range.max
  {
    ParseFloatNumeral(g.number);
    var value := ParseFloat(g.number).value;
    var status := DetermineStatus(value, e.range);
    LabParameter(g.name, value, e.unit, e.rangeText, status, DetermineSeverity(status, value, e.range))
  }

  /** A record built from an entry, whatever its value: the entry's unit and range text and
      the classification of the value against the entry's range. */
  predicate RecordOfAnyValue(p: LabParameter, e: CatalogEntry)
    requires e.range.min < e.range.max
  {
    && p.unit == e.unit
    && p.normalRange == e.rangeText
    && p.status == DetermineStatus(p.value, e.range)
    && p.severity == DetermineSeverity(p.status, p.value, e.range)
  }

  /** The record pushed for a match holds the captured name, the exact value of the
      captured number (zero included) and that value's classification against the entry's
      range, with the entry's unit and range text. */
  lemma LegacyRecordClassified(e: CatalogEntry, g: LegacyMatch)
    requires e.range.min < e.range.max
    ensures var p := LegacyRecord(e, g);
            && p.name == g.name && p.value == NumeralValue(g.number) && p.value >= 0.0
            && RecordOfAnyValue(p, e)
  {
    ParseFloatNumeral(g.number);
    NumeralNonNegative(g.number);
  }

  /** A value of 0 is recorded as low against every entry of the earlier catalog. */
  lemma LegacyZeroIsLow(e: CatalogEntry)
    requires e in LegacyCatalog()
    ensures e.range.min < e.range.max && DetermineStatus(0.0, e.range) == Status.Low
  {
    LegacyCatalogRanges();
    var k :| 0 <= k < |LegacyCatalog()| && LegacyCatalog()[k] == e;
  }

  predicate RangesValid(entries: seq<CatalogEntry>) {
    forall k :: 0 <= k < |entries| ==> entries[k].range.min < entries[k].range.max
  }

  // ---------------------------------------------------------------------------
  // The loops of extractParameters, as the sequence of matches they record

  /** A match of an entry's loose pattern on a line: what one `push` is built from. */
  datatype Found = Found(entry: CatalogEntry, groups: LegacyMatch)

  /** The loop over the entries for one line: every matching entry adds its match, after
      those found before. */
  function LineFinds(fs: seq<Found>, line: string, entries: seq<CatalogEntry>, m: LegacyMatcher): seq<Found>
    decreases |entries|
  {
    if entries == [] then fs
    else
      var found := m(line, entries[0]);
      LineFinds(fs + (if found.Some? then [Found(entries[0], found.value)] else []), line, entries[1..], m)
  }

  /** The loop over the lines. */
  function TextFinds(fs: seq<Found>, lines: seq<string>, entries: seq<CatalogEntry>, m: LegacyMatcher): seq<Found>
    decreases |lines|
  {
    if lines == [] then fs else TextFinds(LineFinds(fs, lines[0], entries, m), lines[1..], entries, m)
  }

  /** Every match was found against an entry with a non-empty range. */
  predicate ValidFinds(fs: seq<Found>) {
    forall i :: 0 <= i < |fs| ==> fs[i].entry.range.min < fs[i].entry.range.max
  }

  /** The records pushed for a sequence of matches, one each, in order. */
  function LegacyRecords(fs: seq<Found>): seq<LabParameter>
    requires ValidFinds(fs)
  {
    seq(|fs|, i requires 0 <= i < |fs| => LegacyRecord(fs[i].entry, fs[i].groups))
  }

  lemma LegacyRecordsAppend(a: seq<Found>, b: seq<Found>)
    requires ValidFinds(a) && ValidFinds(b)
    ensures ValidFinds(a + b) && LegacyRecords(a + b) == LegacyRecords(a) + LegacyRecords(b)
  {
    var ab := a + b;
    assert ValidFinds(ab) by {
      forall i | 0 <= i < |ab| ensures ab[i].entry.range.min < ab[i].entry.range.max {
        if i >= |a| { assert ab[i] == b[i - |a|]; }
      }
    }
    LegacyRecordsFront(a, b);
    LegacyRecordsBack(a, b);
    TakeDropJoin(LegacyRecords(ab), |a|);
  }

  lemma LegacyRecordsFront(a: seq<Found>, b: seq<Found>)
    requires ValidFinds(a) && ValidFinds(a + b)
    ensures LegacyRecords(a + b)[..|a|] == LegacyRecords(a)
  {
    var r := LegacyRecords(a + b);
    forall i | 0 <= i < |a| ensures r[i] == LegacyRecords(a)[i] {
      assert (a + b)[i] == a[i];
    }
  }

  lemma LegacyRecordsBack(a: seq<Found>, b: seq<Found>)
    requires ValidFinds(b) && ValidFinds(a + b)
    ensures LegacyRecords(a + b)[|a|..] == LegacyRecords(b)
  {
    var r := LegacyRecords(a + b);
    forall i | 0 <= i < |b| ensures r[|a| + i] == LegacyRecords(b)[i] {
      assert (a + b)[|a| + i] == b[i];
    }
  }

  lemma LegacyRecordsSnoc(fs: seq<Found>, f: Found)
    requires ValidFinds(fs) && f.entry.range.min < f.entry.range.max
    ensures ValidFinds(fs + [f])
    ensures LegacyRecords(fs + [f]) == LegacyRecords(fs) + [LegacyRecord(f.entry, f.groups)]
  {
    LegacyRecordsAppend(fs, [f]);
    assert LegacyRecords([f]) == [LegacyRecord(f.entry, f.groups)];
  }

  lemma {:induction false} LineFindsValid(fs: seq<Found>, line: string, entries: seq<CatalogEntry>, m: LegacyMatcher)
    requires ValidFinds(fs) && RangesValid(entries)
    ensures ValidFinds(LineFinds(fs, line, entries, m))
    decreases |entries|
  {
    if entries != [] {
      var found := m(line, entries[0]);
      var next := fs + (if found.Some? then [Found(entries[0], found.value)] else []);
      assert ValidFinds(next);
      assert RangesValid(entries[1..]);
      LineFindsValid(next, line, entries[1..], m);
    }
  }

  lemma {:induction false} TextFindsValid(fs: seq<Found>, lines: seq<string>, entries: seq<CatalogEntry>, m: LegacyMatcher)
    requires ValidFinds(fs) && RangesValid(entries)
    ensures ValidFinds(TextFinds(fs, lines, entries, m))
    decreases |lines|
  {
    if lines != [] {
      LineFindsValid(fs, lines[0], entries, m);
      TextFindsValid(LineFinds(fs, lines[0], entries, m), lines[1..], entries, m);
    }
  }

  /** The records the earlier `extractParameters` returns for a text. */
  function LegacyExtract(text: string, m: LegacyMatcher): seq<LabParameter> {
    LegacyCatalogRanges();
    TextFindsValid([], Split(text, '\n'), LegacyCatalog(), m);
    LegacyRecords(TextFinds([], Split(text, '\n'), LegacyCatalog(), m))
  }

  /** The earlier `extractParameters`: the text split into lines, each read against the
      earlier catalog. */
  method LegacyExtractParameters(text: string, m: LegacyMatcher) returns (parameters: seq<LabParameter>)
    ensures parameters == LegacyExtract(text, m)
  {
    LegacyCatalogRanges();
    var lines := Split(text, '\n');
    parameters := LegacyScanLines(lines, LegacyCatalog(), m);
  }

  /** The loops of the earlier `extractParameters`: every line against every entry, one
      record pushed per match, with neither a duplicate check nor a filter on the value. */
  method LegacyScanLines(lines: seq<string>, entries: seq<CatalogEntry>, m: LegacyMatcher) returns (parameters: seq<LabParameter>)
    requires RangesValid(entries)
    ensures ValidFinds(TextFinds([], lines, entries, m))
    ensures parameters == LegacyRecords(TextFinds([], lines, entries, m))
  {
    parameters := [];
    ghost var finds: seq<Found> := [];
    var i := 0;
    while i < |lines|
      invariant 0 <= i <= |lines|
      invariant ValidFinds(finds) && parameters == LegacyRecords(finds)
      invariant TextFinds(finds, lines[i..], entries, m) == TextFinds([], lines, entries, m)
    {
      var line := lines[i];
      var k := 0;
      TextFindsStep(finds, lines, i, entries, m);
      while k < |entries|
        invariant 0 <= k <= |entries|
        invariant ValidFinds(finds) && parameters == LegacyRecords(finds)
        invariant TextFinds(LineFinds(finds, line, entries[k..], m), lines[i + 1..], entries, m)
                  == TextFinds([], lines, entries, m)
      {
        var entry := entries[k];
        var found := m(line, entry);
        LineFindsStep(finds, line, entries, k, m);
        if found.Some? {
          var record := LegacyRecord(entry, found.value);
          ghost var f := Found(entry, found.value);
          LegacyRecordsSnoc(finds, f);
          parameters := parameters + [record];
          finds := finds + [f];
        }
        k := k + 1;
      }
      LineFindsDone(finds, line, entries, m);
      i := i + 1;
    }
    TextFindsDone(finds, lines, entries, m);
    TextFindsValid([], lines, entries, m);
  }

  /** The loop over the lines has nothing left to add once every line is read. */
  lemma TextFindsDone(fs: seq<Found>, lines: seq<string>, entries: seq<CatalogEntry>, m: LegacyMatcher)
    ensures TextFinds(fs, lines[|lines|..], entries, m) == fs
  {
    assert lines[|lines|..] == [];
  }

  /** The loop over the entries has nothing left to add once every entry is tried. */
  lemma LineFindsDone(fs: seq<Found>, line: string, entries: seq<CatalogEntry>, m: LegacyMatcher)
    ensures LineFinds(fs, line, entries[|entries|..], m) == fs
  {
    assert entries[|entries|..] == [];
  }

  /** One turn of the loop over the lines. */
  lemma TextFindsStep(fs: seq<Found>, lines: seq<string>, i: nat, entries: seq<CatalogEntry>, m: LegacyMatcher)
    requires i < |lines|
    ensures TextFinds(fs, lines[i..], entries, m) == TextFinds(LineFinds(fs, lines[i], entries, m), lines[i + 1..], entries, m)
  {
    assert lines[i..][1..] == lines[i + 1..];
  }

  /** One turn of the loop over the entries: a match appends its find, no match nothing. */
  lemma LineFindsStep(fs: seq<Found>, line: string, entries: seq<CatalogEntry>, k: nat, m: LegacyMatcher)
    requires k < |entries|
    ensures var found := m(line, entries[k]);
      LineFinds(fs, line, entries[k..], m)
      == LineFinds(if found.Some? then fs + [Found(entries[k], found.value)] else fs, line, entries[k + 1..], m)
  {
    assert entries[k..][1..] == entries[k + 1..];
    assert fs + [] == fs;
  }

  // ---------------------------------------------------------------------------
  // Properties of the earlier extractParameters

  /** What the loops append does not depend on what was found before. */
  lemma {:induction false} LineFindsFrom(fs: seq<Found>, line: string, entries: seq<CatalogEntry>, m: LegacyMatcher)
    ensures LineFinds(fs, line, entries, m) == fs + LineFinds([], line, entries, m)
    decreases |entries|
  {
    if entries == [] {
      assert fs + [] == fs;
    } else {
      var found := m(line, entries[0]);
      var own := if found.Some? then [Found(entries[0], found.value)] else [];
      assert [] + own == own;
      LineFindsFrom(fs + own, line, entries[1..], m);
      LineFindsFrom(own, line, entries[1..], m);
      assert (fs + own) + LineFinds([], line, entries[1..], m) == fs + (own + LineFinds([], line, entries[1..], m));
    }
  }

  lemma {:induction false} TextFindsFrom(fs: seq<Found>, lines: seq<string>, entries: seq<CatalogEntry>, m: LegacyMatcher)
    ensures TextFinds(fs, lines, entries, m) == fs + TextFinds([], lines, entries, m)
    decreases |lines|
  {
    if lines == [] {
      assert fs + [] == fs;
    } else {
      var own := LineFinds([], lines[0], entries, m);
      LineFindsFrom(fs, lines[0], entries, m);
      TextFindsFrom(fs + own, lines[1..], entries, m);
      TextFindsFrom(own, lines[1..], entries, m);
      assert (fs + own) + TextFinds([], lines[1..], entries, m) == fs + (own + TextFinds([], lines[1..], entries, m));
    }
  }

  lemma {:induction false} TextFindsAppend(fs: seq<Found>, l1: seq<string>, l2: seq<string>, entries: seq<CatalogEntry>, m: LegacyMatcher)
    ensures TextFinds(fs, l1 + l2, entries, m) == TextFinds(TextFinds(fs, l1, entries, m), l2, entries, m)
    decreases |l1|
  {
    if l1 == [] {
      assert l1 + l2 == l2;
    } else {
      assert (l1 + l2)[0] == l1[0];
      assert (l1 + l2)[1..] == l1[1..] + l2;
      TextFindsAppend(LineFinds(fs, l1[0], entries, m), l1[1..], l2, entries, m);
    }
  }

  /** Every match found on a line is a match of one of the entries on that line, and there
      is at most one per entry. */
  lemma {:induction false} LineFindsSound(line: string, entries: seq<CatalogEntry>, m: LegacyMatcher)
    ensures var r := LineFinds([], line, entries, m);
            && |r| <= |entries|
            && forall f :: f in r ==> f.entry in entries && m(line, f.entry) == Some(f.groups)
    decreases |entries|
  {
    if entries != [] {
      var found := m(line, entries[0]);
      var own := if found.Some? then [Found(entries[0], found.value)] else [];
      assert [] + own == own;
      LineFindsFrom(own, line, entries[1..], m);
      LineFindsSound(line, entries[1..], m);
      assert forall e :: e in entries[1..] ==> e in entries;
    }
  }

  /** Every entry whose pattern matches the line has its match found: no duplicate check
      and no filter on the value. */
  lemma {:induction false} LineFindsComplete(line: string, entries: seq<CatalogEntry>, k: nat, m: LegacyMatcher)
    requires k < |entries| && m(line, entries[k]).Some?
    ensures Found(entries[k], m(line, entries[k]).value) in LineFinds([], line, entries, m)
    decreases k
  {
    var found := m(line, entries[0]);
    var own := if found.Some? then [Found(entries[0], found.value)] else [];
    assert [] + own == own;
    LineFindsFrom(own, line, entries[1..], m);
    if k > 0 {
      assert entries[1..][k - 1] == entries[k];
      LineFindsComplete(line, entries[1..], k - 1, m);
    }
  }

  /** Every match found in a text is a match of one of the entries on one of its lines. */
  lemma {:induction false} TextFindsSound(lines: seq<string>, entries: seq<CatalogEntry>, m: LegacyMatcher)
    ensures forall f :: f in TextFinds([], lines, entries, m) ==>
              f.entry in entries && exists line :: line in lines && m(line, f.entry) == Some(f.groups)
    decreases |lines|
  {
    if lines != [] {
      var own := LineFinds([], lines[0], entries, m);
      TextFindsFrom(own, lines[1..], entries, m);
      LineFindsSound(lines[0], entries, m);
      TextFindsSound(lines[1..], entries, m);
      forall f | f in TextFinds([], lines, entries, m)
        ensures f.entry in entries && exists line :: line in lines && m(line, f.entry) == Some(f.groups)
      {
        if f in own {
          assert lines[0] in lines;
        } else {
          var line :| line in lines[1..] && m(line, f.entry) == Some(f.groups);
          assert line in lines;
        }
      }
    }
  }

  /** Every match of an entry on a line of the text is found. */
  lemma {:induction false} TextFindsComplete(lines: seq<string>, entries: seq<CatalogEntry>, j: nat, k: nat, m: LegacyMatcher)
    requires j < |lines| && k < |entries| && m(lines[j], entries[k]).Some?
    ensures Found(entries[k], m(lines[j], entries[k]).value) in TextFinds([], lines, entries, m)
    decreases j
  {
    var own := LineFinds([], lines[0], entries, m);
    TextFindsFrom(own, lines[1..], entries, m);
    if j == 0 {
      LineFindsComplete(lines[0], entries, k, m);
    } else {
      assert lines[1..][j - 1] == lines[j];
      TextFindsComplete(lines[1..], entries, j - 1, k, m);
    }
  }

  /** The record is the one pushed for a match of the entry on the line. */
  predicate MatchGives(p: LabParameter, e: CatalogEntry, line: string, g: LegacyMatch, m: LegacyMatcher)
    requires e.range.min < e.range.max
  {
    m(line, e) == Some(g) && p == LegacyRecord(e, g)
  }

  /** The record is the one pushed for a match of one of the entries on one of the lines. */
  ghost predicate FromMatch(p: LabParameter, lines: seq<string>, entries: seq<CatalogEntry>, m: LegacyMatcher) {
    exists e, line, g | e in entries && line in lines && e.range.min < e.range.max :: MatchGives(p, e, line, g, m)
  }

  /** Every record comes from a match of one of the entries on one of the lines. */
  lemma RecordsSound(lines: seq<string>, entries: seq<CatalogEntry>, m: LegacyMatcher)
    requires RangesValid(entries)
    ensures ValidFinds(TextFinds([], lines, entries, m))
    ensures var r := LegacyRecords(TextFinds([], lines, entries, m));
            forall i :: 0 <= i < |r| ==> FromMatch(r[i], lines, entries, m)
  {
    var fs := TextFinds([], lines, entries, m);
    TextFindsValid([], lines, entries, m);
    TextFindsSound(lines, entries, m);
    var r := LegacyRecords(fs);
    forall i | 0 <= i < |r|
      ensures FromMatch(r[i], lines, entries, m)
    {
      var f := fs[i];
      assert f in fs;
      var line :| line in lines && m(line, f.entry) == Some(f.groups);
      assert r[i] == LegacyRecord(f.entry, f.groups);
      assert f.entry.range.min < f.entry.range.max && MatchGives(r[i], f.entry, line, f.groups, m);
    }
  }

  /** Every record of the earlier reader comes from a match of a catalog entry on a line of
      the text. */
  lemma LegacyExtractSound(text: string, m: LegacyMatcher)
    ensures var r := LegacyExtract(text, m);
            forall i :: 0 <= i < |r| ==> FromMatch(r[i], Split(text, '\n'), LegacyCatalog(), m)
  {
    var lines, entries := Split(text, '\n'), LegacyCatalog();
    LegacyCatalogRanges();
    RecordsSound(lines, entries, m);
    assert LegacyExtract(text, m) == LegacyRecords(TextFinds([], lines, entries, m));
  }

  /** Every match of an entry on a line is recorded. */
  lemma RecordsComplete(lines: seq<string>, entries: seq<CatalogEntry>, j: nat, k: nat, m: LegacyMatcher)
    requires RangesValid(entries)
    requires j < |lines| && k < |entries| && m(lines[j], entries[k]).Some?
    ensures ValidFinds(TextFinds([], lines, entries, m))
    ensures LegacyRecord(entries[k], m(lines[j], entries[k]).value) in LegacyRecords(TextFinds([], lines, entries, m))
  {
    var fs := TextFinds([], lines, entries, m);
    TextFindsValid([], lines, entries, m);
    TextFindsComplete(lines, entries, j, k, m);
    var f := Found(entries[k], m(lines[j], entries[k]).value);
    var i :| 0 <= i < |fs| && fs[i] == f;
    assert LegacyRecords(fs)[i] == LegacyRecord(f.entry, f.groups);
  }

  /** Every match of a catalog entry on a line of the text is recorded, a captured "0" and
      a repeated test included. */
  lemma LegacyExtractComplete(text: string, m: LegacyMatcher, j: nat, k: nat)
    requires j < |Split(text, '\n')| && k < |LegacyCatalog()|
    requires m(Split(text, '\n')[j], LegacyCatalog()[k]).Some?
    ensures LegacyCatalog()[k].range.min < LegacyCatalog()[k].range.max
    ensures LegacyRecord(LegacyCatalog()[k], m(Split(text, '\n')[j], LegacyCatalog()[k]).value) in LegacyExtract(text, m)
  {
    LegacyCatalogRanges();
    RecordsComplete(Split(text, '\n'), LegacyCatalog(), j, k, m);
  }

  /** Reading lines joined together gives the records of each part, one after the other. */
  lemma RecordsAppend(la: seq<string>, lb: seq<string>, entries: seq<CatalogEntry>, m: LegacyMatcher)
    requires RangesValid(entries)
    ensures ValidFinds(TextFinds([], la, entries, m)) && ValidFinds(TextFinds([], lb, entries, m))
    ensures ValidFinds(TextFinds([], la + lb, entries, m))
    ensures LegacyRecords(TextFinds([], la + lb, entries, m))
            == LegacyRecords(TextFinds([], la, entries, m)) + LegacyRecords(TextFinds([], lb, entries, m))
  {
    var fa := TextFinds([], la, entries, m);
    var fb := TextFinds([], lb, entries, m);
    TextFindsAppend([], la, lb, entries, m);
    TextFindsFrom(fa, lb, entries, m);
    TextFindsValid([], la, entries, m);
    TextFindsValid([], lb, entries, m);
    LegacyRecordsAppend(fa, fb);
  }

  /** Text joined at a line break is read as its two parts, one after the other: records
      are only appended, line by line. */
  lemma LegacyExtractAppend(a: string, b: string, m: LegacyMatcher)
    ensures LegacyExtract(a + "\n" + b, m) == LegacyExtract(a, m) + LegacyExtract(b, m)
  {
    LegacyCatalogRanges();
    SplitAppend(a, b, '\n');
    RecordsAppend(Split(a, '\n'), Split(b, '\n'), LegacyCatalog(), m);
  }

  // ---------------------------------------------------------------------------
  // extractPatientInfo

  /** The five patterns of the earlier reader, one per field. */
  datatype LegacyPattern = NamePattern | AgePattern | GenderPattern | DatePattern | LabPattern

  /** `text.match(pattern)`: the whole match and its groups, or None for `null`. */
  type LegacyPatientMatcher = (string, LegacyPattern) -> Option<seq<string>>

  /** `match?.[i]`: element i of the match array, None when there is no match or no such
      element (`undefined`). */
  function Element(r: Option<seq<string>>, i: nat): (g: Option<string>)
    ensures g.Some? <==> r.Some? && i < |r.value|
  {
    if r.Some? && i < |r.value| then Some(r.value[i]) else None
  }

  /** `replace(/[^\d]/g, '')`: the digits of `s`, in order. */
  function KeepDigits(s: string): (r: string)
    ensures AllDigits(r) && |r| <= |s|
    ensures AllDigits(s) ==> r == s
  {
    if s == [] then []
    else (if IsDigit(s[0]) then [s[0]] else []) + KeepDigits(s[1..])
  }

  /** `charAt(0).toUpperCase()`: the first character upper-cased, or "" for "". */
  function FirstCharUpper(s: string): (r: string)
    ensures |r| <= 1 && (r == "" <==> s == "")
  {
    if s == [] then "" else [UpperChar(s[0])]
  }

  /** The earlier `extractPatientInfo`. Each field is the pattern's result or its `||`
      default; the age's default is out of reach, since `undefined + " YRS"` is the
      non-empty text "undefined YRS". The current date is a parameter. */
  function LegacyPatientInfo(text: string, today: string, m: LegacyPatientMatcher): PatientInfo {
    var name := Element(m(text, NamePattern), 1);
    var age := Element(m(text, AgePattern), 1);
    var gender := Element(m(text, GenderPattern), 1);
    var date := Element(m(text, DatePattern), 0);
    var lab := Element(m(text, LabPattern), 0);
    PatientInfo(
      if name.Some? && Trim(name.value) != "" then Trim(name.value) else "Patient",
      (if age.Some? then KeepDigits(age.value) else "undefined") + " YRS",
      if gender.Some? && FirstCharUpper(gender.value) != "" then FirstCharUpper(gender.value) else "Unknown",
      if date.Some? && date.value != "" then date.value else today,
      if lab.Some? then Some(Trim(lab.value)) else None)
  }

  /** The name is "Patient" or a non-empty trimmed capture. */
  lemma LegacyNameShape(text: string, today: string, m: LegacyPatientMatcher)
    ensures var name := LegacyPatientInfo(text, today, m).name;
            name == "Patient" || (name != "" && Trim(name) == name)
  {
    var g := Element(m(text, NamePattern), 1);
    if g.Some? { TrimIdempotent(g.value); }
  }

  /** The age is never "Unknown": it is a run of digits followed by " YRS", the digits of
      the capture when there is one and otherwise the word "undefined". */
  lemma LegacyAgeNeverUnknown(text: string, today: string, m: LegacyPatientMatcher)
    ensures var age := LegacyPatientInfo(text, today, m).age;
            && age != "Unknown"
            && (Element(m(text, AgePattern), 1).None? ==> age == "undefined YRS")
            && (Element(m(text, AgePattern), 1).Some? ==>
                  exists digits :: AllDigits(digits) && age == digits + " YRS")
  {
    var age := LegacyPatientInfo(text, today, m).age;
    assert age[|age| - 4..] == " YRS";
  }

  /** The gender is "Unknown" or one character, the upper-cased first character of the
      capture; a capture of a male or female token, in any case, gives "M" or "F". */
  lemma LegacyGenderShape(text: string, today: string, m: LegacyPatientMatcher)
    ensures var gender := LegacyPatientInfo(text, today, m).gender;
            var g := Element(m(text, GenderPattern), 1);
            && (gender == "Unknown" || |gender| == 1)
            && (g.Some? && Upper(g.value) in {"M", "MALE"} ==> gender == "M")
            && (g.Some? && Upper(g.value) in {"F", "FEMALE"} ==> gender == "F")
  {
    var g := Element(m(text, GenderPattern), 1);
    if g.Some? && g.value != [] {
      assert Upper(g.value)[0] == UpperChar(g.value[0]);
    }
  }

  /** The report date is the whole first date match, or the current date without one; the
      lab name is absent exactly when the lab pattern does not match. */
  lemma LegacyDateAndLab(text: string, today: string, m: LegacyPatientMatcher)
    ensures var info := LegacyPatientInfo(text, today, m);
            && (m(text, DatePattern).None? ==> info.reportDate == today)
            && ((m(text, DatePattern).Some? && |m(text, DatePattern).value| > 0 && m(text, DatePattern).value[0] != "")
                  ==> info.reportDate == m(text, DatePattern).value[0])
            && (info.labName.None? <==> Element(m(text, LabPattern), 0).None?)
  {
  }

  /** The earlier `parseLabReport`: patient information and parameters from the same text. */
  function LegacyParseLabReport(text: string, today: string, pm: LegacyPatientMatcher, m: LegacyMatcher): (r: ExtractedData)
    ensures r.patientInfo == LegacyPatientInfo(text, today, pm) && r.parameters == LegacyExtract(text, m)
  {
    ExtractedData(LegacyPatientInfo(text, today, pm), LegacyExtract(text, m))
  }
}
