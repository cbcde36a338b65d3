# Lab report triage, modelled in Dafny

The application reads the OCR text of a blood-test report and turns it into advice:

- **Parameter extraction.** It scans every line against a catalog of 21 lab tests. Each test has synonyms, a reference range written as `min-max` and a unit. Up to three pattern shapes are tried per test. The first fresh, positive value found is kept and classified:
  - status: `low`, `normal` or `high`;
  - severity: `normal`, `mild`, `moderate` or `critical`, from how far the value lies past the range, measured in range widths.
- **Patient information.** It reads name, age, gender, report date and lab name, each from an ordered cascade of patterns with a plausibility filter and a default.
- **Explanation.** It explains each result, either from a small table keyed by a cleaned parameter name or with a template sentence.
- **Doctor visit.** It recommends a visit in two versions:
  - a basic one: urgency tiers and next steps;
  - an advanced one: urgency level, key abnormalities, specific and condition-based recommendations, critical notes, specialty, severity, timeframe, reason, immediate actions, investigations, lifestyle adjustments and patient education, each list de-duplicated.
- **PDF helpers.** The PDF export uses three helpers: the normal/abnormal/critical summary, the urgency label and icon, and the download file name.
- **Earlier reader.** An earlier OCR service holds a smaller catalog, one loose pattern per test with no duplicate check and no value filter, and a simpler one-pattern-per-field patient reader.

Each project file is one Dafny module:

- `lab_types.dfy`, module `LabTypes`: the records passed between the stages
- `strings.dfy`, module `Strings`: JavaScript `trim`, case mapping, `includes`, `split`, `replace(/\s+/g, '-')`
- `numbers.dfy`, module `Numbers`: `parseInt`, `parseFloat`, `String(n)`
- `collections.dfy`, module `Collections`: `filter`, `map`, push-in-`forEach`, `[...new Set(xs)]`
- `parameter_extractor.dfy`, module `ParameterExtractor`: the catalog, `determineStatus`, `determineSeverity`, `extractParameters`
- `patient_info_extractor.dfy`, module `PatientInfoExtractor`: `extractPatientInfo`
- `explanation_generator.dfy`, module `ExplanationGenerator`: `generateExplanation`, `cleanParameterName` and the explanation table
- `doctor_recommendation.dfy`, module `DoctorRecommendation`: `generateDoctorRecommendation`, `getNextSteps`
- `advanced_recommendation.dfy`, module `AdvancedRecommendation`: the advanced recommendation service
- `pdf_utilities.dfy`, module `PdfUtilities`: `calculateSummaryStats`, `getUrgencyIcon`, `getUrgencyLabel`, `formatFileName`
- `ocr_service.dfy`, module `OcrService`: the earlier `parseLabReport`, `extractPatientInfo`, `extractParameters`
- `lab_report.dfy`, module `LabReport`: the current `parseLabReport`, which combines the two extractors

Modelling choices:

- **Patterns.** Every regular expression is a function parameter, a *matcher*: it takes the text (and the pattern) and returns the pattern's capture groups, or `None` for no match. What is verified is the logic around the matches:
  - the cascade order and the `break`s;
  - the name/value disambiguation;
  - the duplicate check and the filters;
  - the defaults.

  Where a property needs to know what a pattern can capture, it says so in a precondition. `SoundMatcher` is such a precondition: the name group is a synonym up to case and the number group is a numeral.
- **Numbers.** Values and range ends are exact reals.
- **Loops.** Each loop the TypeScript code writes with `forEach`/`for` and `push` is a `method` with a `while` or `for` loop. The method is proved equal to a left fold, which the lemmas are about.
- **Clock.** The current date is a parameter.

## Model

| member | source | states |
|---|---|---|
| ParameterExtractor.CatalogValid | src/services/parameterExtractor.ts:5-27 | every catalog entry has a synonym, every synonym starts and ends with a letter, and every range has min < max, so the deviation's divisor is never zero |
| ParameterExtractor.RangeOfNumerals | src/services/parameterExtractor.ts:93 | two numerals joined by a hyphen split, at the hyphen, into exactly those two numerals and parse to their exact values |
| ParameterExtractor.CatalogRangesParse | src/services/parameterExtractor.ts:6-26 | for every catalog entry, `normalRange.split('-').map(parseFloat)` gives back exactly the range the value is classified against |
| ParameterExtractor.DetermineStatus | src/services/parameterExtractor.ts:92-98 | low iff value < min, high iff value > max, normal iff min <= value <= max: both ends of the range count as normal |
| ParameterExtractor.DetermineSeverity | src/services/parameterExtractor.ts:100-117 | severity is normal exactly when the status is normal, and is never `monitor` |
| ParameterExtractor.SeverityTiers | src/services/parameterExtractor.ts:104-116 | for an out-of-range value: critical iff deviation > 0.5, moderate iff 0.2 < deviation <= 0.5, mild iff deviation <= 0.2; the deviation is (v - max)/(max - min) above the range and (min - v)/(max - min) below it |
| ParameterExtractor.ThresholdsAreExclusive | src/services/parameterExtractor.ts:108-115 | a deviation of exactly 0.2 is mild and of exactly 0.5 is moderate |
| ParameterExtractor.SeverityMonotoneInDeviation | src/services/parameterExtractor.ts:104-116 | a larger deviation never gives a lower severity |
| ParameterExtractor.SeverityMonotoneInDistance | src/services/parameterExtractor.ts:92-116 | moving a value further from its range, on either side, never lowers its severity |
| ParameterExtractor.HemoglobinScenario | src/services/parameterExtractor.ts:92-116 | hemoglobin 10.5 against 13.0-17.0 is low and critical (deviation 0.625) |
| ParameterExtractor.UpperBoundaryScenario | src/services/parameterExtractor.ts:106-110 | 17.8 against 13.0-17.0 deviates by exactly 0.2 and is mild |
| ParameterExtractor.Candidate | src/services/parameterExtractor.ts:47-61 | a match yields a record only when its value is a number > 0 |
| ParameterExtractor.CandidateOfSoundMatch | src/services/parameterExtractor.ts:47-57 | for a match of any of the three shapes, the name is the synonym group, whichever side it is on, and the value is the exact value of the numeral group; a zero value yields no record |
| ParameterExtractor.SynonymTextShape | src/services/parameterExtractor.ts:48-49 | a synonym captured in any letter case is not a number (`isNaN(parseFloat(...))`) and is its own trim |
| ParameterExtractor.EntryScanAppendsOne | src/services/parameterExtractor.ts:44-83 | one entry's pattern loop appends at most one record, built from that entry, and leaves the earlier records unchanged; a duplicate or an invalid match falls through to the next pattern |
| ParameterExtractor.EntryScanSound | src/services/parameterExtractor.ts:64-74 | with a sound matcher, the appended name is a synonym of the entry and no earlier name contains it |
| ParameterExtractor.AppendFresh | src/services/parameterExtractor.ts:64-70 | a name that passes the duplicate check contains no collected name, and is contained in none once trimmed |
| ParameterExtractor.LineScanKeeps | src/services/parameterExtractor.ts:35-84 | the catalog loop for one line keeps the records already collected, adds at most one per entry, and keeps every record classified against its entry's range |
| ParameterExtractor.TextScanKeeps | src/services/parameterExtractor.ts:35-85 | the line loop only appends, at most one record per line and entry, and keeps every invariant of the records |
| ParameterExtractor.LineScanSound | src/services/parameterExtractor.ts:64-70 | with a sound matcher, one line's scan keeps the names pairwise non-containing and each a catalog synonym |
| ParameterExtractor.TextScanSound | src/services/parameterExtractor.ts:35-85 | with a sound matcher, the whole scan keeps the names pairwise non-containing and each a catalog synonym |
| ParameterExtractor.TextScanAppend | src/services/parameterExtractor.ts:35-85 | scanning two runs of lines is scanning the first and then the second from where the first stopped |
| ParameterExtractor.ExtractParameters | src/services/parameterExtractor.ts:29-90 | `extractParameters` returns the left fold of the scan over the text's lines |
| ParameterExtractor.ScanLines | src/services/parameterExtractor.ts:35-85 | the three nested loops with `break` compute the scan: per line, every entry in catalog order, the three shapes in order |
| ParameterExtractor.ExtractKeeps | src/services/parameterExtractor.ts:29-90 | every extracted record has a positive value, its entry's unit and range text, and the status and severity of its value against that range; no name contains an earlier one; at most lines × entries records |
| ParameterExtractor.ExtractSound | src/services/parameterExtractor.ts:64-74 | with a sound matcher, no two extracted names contain one another (case-insensitively) and each is a catalog synonym |
| ParameterExtractor.ExtractPrefix | src/services/parameterExtractor.ts:35-36 | appending lines to a report never changes or removes the parameters found in the earlier lines |
| PatientInfoExtractor.Cascade | src/services/patientInfoExtractor.ts:9-40 | each field's cascade lists its patterns in order: 4 name, 3 age, 2 gender, 3 date, 2 lab patterns |
| PatientInfoExtractor.Group1 | src/services/patientInfoExtractor.ts:52 | `match && match[1]` holds exactly when there is a match whose element 1 exists and is non-empty |
| PatientInfoExtractor.AcceptName | src/services/patientInfoExtractor.ts:53-54 | a name capture is accepted iff its trim has length strictly between 2 and 40, and the trim is kept |
| PatientInfoExtractor.AcceptAge | src/services/patientInfoExtractor.ts:65-67 | an age capture is accepted iff `parseInt` gives n with 0 < n < 150, kept as `"<n> YRS"` |
| PatientInfoExtractor.AcceptGender | src/services/patientInfoExtractor.ts:77-84 | a gender capture gives "M" iff it upper-cases to M/MALE, "F" iff to F/FEMALE, and is rejected otherwise |
| PatientInfoExtractor.ExtractPatientInfo | src/services/patientInfoExtractor.ts:5-115 | the five loops return each field's first accepted capture, or its default |
| PatientInfoExtractor.ExtractName | src/services/patientInfoExtractor.ts:50-59 | the name loop returns the first accepted name capture, else "Patient" |
| PatientInfoExtractor.ExtractAge | src/services/patientInfoExtractor.ts:62-71 | the age loop returns the first accepted age, else "Unknown" |
| PatientInfoExtractor.ExtractGender | src/services/patientInfoExtractor.ts:74-86 | the gender loop returns the first accepted gender, else "Unknown" |
| PatientInfoExtractor.ExtractDate | src/services/patientInfoExtractor.ts:89-95 | the date loop returns the first capture, else the current date |
| PatientInfoExtractor.ExtractLabName | src/services/patientInfoExtractor.ts:98-104 | the lab loop returns the first capture, trimmed, else no lab name |
| PatientInfoExtractor.FirstAcceptedIsFirst | src/services/patientInfoExtractor.ts:50-104 | a cascade yields nothing iff no pattern's capture is accepted, and otherwise the capture of an accepted pattern all of whose predecessors were rejected |
| PatientInfoExtractor.FirstWins | src/services/patientInfoExtractor.ts:50-104 | the first accepted pattern decides, whatever later patterns would give |
| PatientInfoExtractor.NameShape | src/services/patientInfoExtractor.ts:43-59 | the name is "Patient" or a trimmed capture of length 3 to 39 |
| PatientInfoExtractor.AgeShape | src/services/patientInfoExtractor.ts:44-71 | the age is "Unknown" or `"<n> YRS"` with 0 < n < 150 |
| PatientInfoExtractor.GenderShape | src/services/patientInfoExtractor.ts:45-86 | the gender is always "M", "F" or "Unknown" |
| PatientInfoExtractor.LabNameShape | src/services/patientInfoExtractor.ts:47-104 | the lab name is absent iff no lab pattern has a capture, and otherwise is a trimmed capture |
| PatientInfoExtractor.FieldsIndependent | src/services/patientInfoExtractor.ts:49-104 | a field's value depends only on the matches of its own patterns |
| PatientInfoExtractor.CascadeAgrees | src/services/patientInfoExtractor.ts:50-104 | two matchers that agree on a cascade's patterns give the same result for it |
| PatientInfoExtractor.GlobalDateNeedsTwo | src/services/patientInfoExtractor.ts:89-95 | the `g`-flagged date pattern (line 32) contributes only when at least two date-shaped substrings exist |
| PatientInfoExtractor.GlobalDateTakesSecond | src/services/patientInfoExtractor.ts:89-95 | with no labelled date and two or more date-shaped substrings matched by the `g`-flagged pattern of line 32, the report date is the second of them |
| ExplanationGenerator.TableKeys | src/data/explanationDatabase.ts:4-41 | the table holds Hemoglobin low/high, Glucose low/high and Creatinine high, and nothing else |
| ExplanationGenerator.TableTextsNonEmpty | src/data/explanationDatabase.ts:4-41 | every explanation text of the table is non-empty |
| ExplanationGenerator.WordThenSpace | src/services/explanationGenerator.ts:17 | measures a leading word, in any case, followed by a white-space run, and is 0 when there is none |
| ExplanationGenerator.StripQualifier | src/services/explanationGenerator.ts:17 | removing the leading qualifier leaves a suffix of the name |
| ExplanationGenerator.StripCount | src/services/explanationGenerator.ts:18 | a final "count", in any case, is removed exactly when white space precedes it, and only a suffix is removed |
| ExplanationGenerator.FirstCellMatch | src/services/explanationGenerator.ts:19 | finds the leftmost position where `\s+Cell.*$` matches |
| ExplanationGenerator.StripCell | src/services/explanationGenerator.ts:19 | the name is cut at the leftmost match of `\s+Cell.*$`, and nothing is cut without one |
| ExplanationGenerator.StrippedIsInfix | src/services/explanationGenerator.ts:17-20 | cleaning only removes text from the ends: the result is a trimmed infix of the name |
| ExplanationGenerator.CleanedNameShape | src/services/explanationGenerator.ts:16-26 | the cleaned name is "Cholesterol", "Liver", or a trimmed infix mentioning neither alias word |
| ExplanationGenerator.CholesterolSynonymsClean | src/services/explanationGenerator.ts:16-22 | every cholesterol, HDL-cholesterol and LDL-cholesterol synonym of the catalog that names cholesterol, captured in any letter case, cleans to "Cholesterol"; "Total Cholesterol" loses its qualifier first |
| ExplanationGenerator.LiverAbbreviationsClean | src/services/explanationGenerator.ts:16-23 | the catalog's "ALT" and "AST", in any letter case, clean to "Liver" |
| ExplanationGenerator.EnzymeCodesKeepName | src/services/explanationGenerator.ts:16-25 | "SGPT" and "SGOT", the other abbreviations of the same two tests, mention no alias word and keep their own name |
| ExplanationGenerator.ExplanationNonEmpty | src/services/explanationGenerator.ts:5-14 | the explanation is never empty |
| ExplanationGenerator.ExplanationIgnoresValue | src/services/explanationGenerator.ts:5-14 | the explanation does not depend on the value |
| ExplanationGenerator.TemplateMentions | src/services/explanationGenerator.ts:13 | the template names the cleaned name and the range, and reads "above" iff the status is "high" |
| ExplanationGenerator.AliasesGetTemplate | src/services/explanationGenerator.ts:7-23 | names folded into "Liver" or "Cholesterol" always get the template |
| ExplanationGenerator.WhiteBloodCellCount | src/services/explanationGenerator.ts:17-20 | "White Blood Cell Count" is stripped to "White Blood" |
| ExplanationGenerator.CleanOfPlainName | src/services/explanationGenerator.ts:16-26 | a name with no white space that mentions no alias word is its own cleaned form |
| ExplanationGenerator.UpperCaseMissesTable | src/services/explanationGenerator.ts:7 | the lookup is case-sensitive: "HEMOGLOBIN" misses the "Hemoglobin" entry and gets the template |
| ExplanationGenerator.TableHitIsVerbatim | src/services/explanationGenerator.ts:5-11 | every table entry is reachable: a parameter named like a table key gets that entry's text verbatim, for every status the table holds for it |
| DoctorRecommendation.NextSteps | src/services/doctorRecommendationService.ts:45-66 | three distinct steps, chosen by the urgency alone |
| DoctorRecommendation.GenerateRecommendation | src/services/doctorRecommendationService.ts:5-43 | the urgency is never "critical", and the next steps are those of the urgency |
| DoctorRecommendation.CriticalCountIsFilter | src/services/doctorRecommendationService.ts:6-7 | the critical count counts exactly the abnormal parameters of critical severity |
| DoctorRecommendation.AbnormalCountZero | src/services/doctorRecommendationService.ts:6 | the abnormal count is zero iff every parameter is normal |
| DoctorRecommendation.CriticalTier | src/services/doctorRecommendationService.ts:14-18 | urgent iff some abnormal parameter is critical, and then Emergency Medicine within 24-48 hours |
| DoctorRecommendation.MultipleTier | src/services/doctorRecommendationService.ts:19-23 | moderate iff no critical and more than 3 abnormal, within 1-2 weeks, with the count readable back from the reason |
| DoctorRecommendation.MonitoringTier | src/services/doctorRecommendationService.ts:24-28 | within 2-4 weeks iff no critical and 1 to 3 abnormal, and then routine |
| DoctorRecommendation.AllNormalTier | src/services/doctorRecommendationService.ts:14-32 | annual check-up iff every parameter is normal (the empty list included), and then routine with a General Physician |
| DoctorRecommendation.NormalNeverCounts | src/services/doctorRecommendationService.ts:6-7 | inserting a normal parameter anywhere, whatever its severity, changes nothing |
| DoctorRecommendation.CriticalMakesUrgent | src/services/doctorRecommendationService.ts:6-15 | inserting a critical abnormal parameter anywhere makes the result urgent |
| DoctorRecommendation.UrgencyMonotone | src/services/doctorRecommendationService.ts:14-32 | inserting any parameter never lowers the urgency |
| AdvancedRecommendation.UrgencyTiers | src/services/advancedMedicalRecommendationService.ts:8-16 | critical iff some abnormal parameter is critical; else urgent iff more than two abnormal parameters are moderate; else moderate iff any is abnormal; else routine |
| AdvancedRecommendation.UrgencyLevelMonotone | src/services/advancedMedicalRecommendationService.ts:8-16 | inserting a parameter never lowers the urgency level |
| AdvancedRecommendation.MapSeverity | src/services/advancedMedicalRecommendationService.ts:204-211 | critical→critical, moderate→urgent, mild→moderate, else routine, preserving order |
| AdvancedRecommendation.SignificanceEntry | src/services/advancedMedicalRecommendationService.ts:43-62 | every clinical-significance text is non-empty |
| AdvancedRecommendation.SignificanceKeys | src/services/advancedMedicalRecommendationService.ts:43-62 | the table has hemoglobin, glucose and white-cell texts for both directions, and creatinine and cholesterol for high only |
| AdvancedRecommendation.ClinicalSignificance | src/services/advancedMedicalRecommendationService.ts:42-65 | the significance is never empty, and the fallback names the parameter |
| AdvancedRecommendation.KeyAbnormalities | src/services/advancedMedicalRecommendationService.ts:33-40 | one entry per abnormal parameter, in order, with its name, value, unit, significance and mapped severity |
| AdvancedRecommendation.KeyCriticalCount | src/services/advancedMedicalRecommendationService.ts:204-211 | the critical key abnormalities are exactly as many as the critical parameters |
| AdvancedRecommendation.ParameterAdvice | src/services/advancedMedicalRecommendationService.ts:86-129 | every parameter gets at least one advice item |
| AdvancedRecommendation.ParameterAdviceFallback | src/services/advancedMedicalRecommendationService.ts:86-129 | the `Monitor <name> levels closely` fallback is used exactly for the names and statuses the table lacks |
| AdvancedRecommendation.GenerateSpecificRecommendations | src/services/advancedMedicalRecommendationService.ts:67-84 | the push/unshift loop and the Set give the specific recommendations |
| AdvancedRecommendation.SpecificRecommendationsShape | src/services/advancedMedicalRecommendationService.ts:67-84 | no repeats; critical starts with the 24-hour item and keeps the emergency item; urgent starts with the 48-72-hour item; every advice item of every abnormal parameter is in the list, and every other item is some parameter's advice |
| AdvancedRecommendation.GenerateConditionRecommendations | src/services/advancedMedicalRecommendationService.ts:131-179 | each condition's plan is present iff some abnormal parameter suggests it, with that plan, and no other key |
| AdvancedRecommendation.GenerateCriticalNotes | src/services/advancedMedicalRecommendationService.ts:181-202 | the loop pushes the standing notes, then each parameter's notes, then drops repeats |
| AdvancedRecommendation.NoteItemsMembers | src/services/advancedMedicalRecommendationService.ts:189-199 | each specific note is pushed exactly by the parameters that call for it and is not a standing note |
| AdvancedRecommendation.CriticalNotesStartWithBase | src/services/advancedMedicalRecommendationService.ts:181-202 | the critical notes have no repeats and start with the three standing notes in order |
| AdvancedRecommendation.CriticalNotesMembers | src/services/advancedMedicalRecommendationService.ts:189-199 | each specific note is present iff some parameter calls for it, and no note other than the standing and the specific ones appears |
| AdvancedRecommendation.GetImmediateActions | src/services/advancedMedicalRecommendationService.ts:281-302 | the loop computes the immediate actions |
| AdvancedRecommendation.ActionItemsMembers | src/services/advancedMedicalRecommendationService.ts:290-299 | each finding-specific action is pushed exactly by the critical glucose or hemoglobin findings |
| AdvancedRecommendation.ImmediateActionsShape | src/services/advancedMedicalRecommendationService.ts:281-302 | no repeats; the three standing actions lead when critical; each specific action is present iff some finding calls for it; no other action appears |
| AdvancedRecommendation.GetRecommendedInvestigations | src/services/advancedMedicalRecommendationService.ts:304-325 | the loop computes the investigations |
| AdvancedRecommendation.InvestigationItemsMembers | src/services/advancedMedicalRecommendationService.ts:308-322 | each test is pushed exactly by findings naming its analyte |
| AdvancedRecommendation.InvestigationsShape | src/services/advancedMedicalRecommendationService.ts:304-325 | no repeats; HbA1c and fasting glucose iff glucose is named, metabolic panel and urinalysis iff creatinine, iron studies and B12/folate iff hemoglobin; no other test appears |
| AdvancedRecommendation.GetLifestyleRecommendations | src/services/advancedMedicalRecommendationService.ts:327-349 | the loop computes the lifestyle adjustments |
| AdvancedRecommendation.LifestyleItemsMembers | src/services/advancedMedicalRecommendationService.ts:336-346 | each diet item is pushed exactly by findings naming its analyte and is not a standing item |
| AdvancedRecommendation.LifestyleShape | src/services/advancedMedicalRecommendationService.ts:327-349 | no repeats; the four standing items first in order; carbohydrate counting and regular meals iff glucose is named, low saturated fat and omega-3 iff cholesterol; no other item appears |
| AdvancedRecommendation.GetPatientEducationPoints | src/services/advancedMedicalRecommendationService.ts:351-371 | the loop computes the education points |
| AdvancedRecommendation.EducationItemsMembers | src/services/advancedMedicalRecommendationService.ts:359-368 | each specific point is pushed exactly by findings naming its analyte and is not a standing point |
| AdvancedRecommendation.EducationShape | src/services/advancedMedicalRecommendationService.ts:351-371 | no repeats; the three standing points first in order; glucose monitoring and the glycemia signs iff glucose is named, anemia symptoms iff hemoglobin; no other point appears |
| AdvancedRecommendation.PatientSummaryOf | src/services/advancedMedicalRecommendationService.ts:19-24 | the summary copies the name and gender, fixes the report names, and takes `parseInt(age) \|\| 0` as the age: the signed decimal or `0x` hexadecimal number at the start of the age text, or 0 when there is none |
| AdvancedRecommendation.SummaryAgeOfExtractedAge | src/services/advancedMedicalRecommendationService.ts:21 | an extracted age `"<n> YRS"` reads back as n, and "Unknown" as 0 |
| AdvancedRecommendation.GenerateStructuredRecommendation | src/services/advancedMedicalRecommendationService.ts:7-31 | each part of the structured recommendation is built from the same abnormal parameters and urgency level |
| AdvancedRecommendation.SeverityOf | src/services/advancedMedicalRecommendationService.ts:236-241 | the severity has the urgency's rank: critical, high, moderate, low |
| AdvancedRecommendation.SeverityOfInjective | src/services/advancedMedicalRecommendationService.ts:236-241 | distinct urgencies get distinct severities |
| AdvancedRecommendation.Timeframe | src/services/advancedMedicalRecommendationService.ts:272-279 | critical: within 24 hours; urgent: 48-72 hours; moderate: 1-2 weeks; routine: 4-6 weeks |
| AdvancedRecommendation.TimeframeInjective | src/services/advancedMedicalRecommendationService.ts:272-279 | the timeframe tells the urgency back |
| AdvancedRecommendation.SpecialtyRules | src/services/advancedMedicalRecommendationService.ts:220-233 | Nephrologist iff an abnormal creatinine; else Endocrinologist iff an abnormal glucose; else Hematologist iff an abnormal hemoglobin; else General Physician |
| AdvancedRecommendation.SpecialtyIgnoresNormal | src/services/advancedMedicalRecommendationService.ts:220-228 | normal parameters never sway the specialty |
| AdvancedRecommendation.FirstFive | src/services/advancedMedicalRecommendationService.ts:249 | `slice(0, 5)` is the prefix of length min(5, n) |
| AdvancedRecommendation.GenerateEnhancedRecommendation | src/services/advancedMedicalRecommendationService.ts:213-255 | each field of the enhanced recommendation follows the structured recommendation of the same data |
| AdvancedRecommendation.ReasonTiers | src/services/advancedMedicalRecommendationService.ts:257-270 | a critical key abnormality gives the critical text; else more than 3 give the systemic text; else any gives the attention text; else the all-normal text; each tier's count reads back from its text |
| AdvancedRecommendation.ReasonIdentifiesTier | src/services/advancedMedicalRecommendationService.ts:257-270 | conversely, a reason opening with the systemic text, one that reads as a number, and the all-normal text each come only from their own tier; with ReasonNamesCritical, each tier holds iff its text is produced |
| AdvancedRecommendation.ReasonNamesCritical | src/services/advancedMedicalRecommendationService.ts:261-262 | the reason opens with the critical text exactly when a key abnormality is critical |
| AdvancedRecommendation.ReasonCounts | src/services/advancedMedicalRecommendationService.ts:257-260 | the reason's counts are the numbers of critical and of abnormal parameters, and the critical one is positive iff the urgency level is critical |
| AdvancedRecommendation.NextStepsShape | src/services/advancedMedicalRecommendationService.ts:249 | the first five specific recommendations have no repeats and are led by the urgency item when critical or urgent |
| AdvancedRecommendation.SeverityAndTimeframe | src/services/advancedMedicalRecommendationService.ts:236-241 | critical severity (and, through `getTimeframe` at lines 272-279, a 24-hour timeframe) iff some abnormal parameter is critical; low severity and 4-6 weeks iff every parameter is normal |
| AdvancedRecommendation.ServicesAgree | src/services/doctorRecommendationService.ts:14-32 | the basic service is urgent iff the advanced one is critical, and gives the annual check-up iff the advanced one is routine |
| PdfUtilities.CalculateSummaryStats | src/services/pdf/pdfUtilities.ts:4-14 | the normal list holds normal parameters, the abnormal list abnormal ones, and the critical list abnormal ones of critical severity, each holding all such parameters |
| PdfUtilities.SummaryPartition | src/services/pdf/pdfUtilities.ts:5-6 | the normal and abnormal lists partition the parameters, element for element |
| PdfUtilities.SummaryKeepsOrder | src/services/pdf/pdfUtilities.ts:5-7 | the critical list is the abnormal-and-critical filter, and all three lists keep the input order |
| PdfUtilities.UrgencyIcon | src/services/pdf/pdfUtilities.ts:16-22 | the siren iff "urgent", the warning sign iff "moderate", otherwise the calendar |
| PdfUtilities.UrgencyLabel | src/services/pdf/pdfUtilities.ts:24-30 | "Urgent" iff "urgent", "Moderate Priority" iff "moderate", otherwise "Routine" |
| PdfUtilities.IconMatchesLabel | src/services/pdf/pdfUtilities.ts:16-30 | icon and label split the urgency texts into the same three cases |
| PdfUtilities.CriticalShownAsRoutine | src/services/pdf/pdfUtilities.ts:24-30 | "critical" is shown as routine |
| PdfUtilities.CleanName | src/services/pdf/pdfUtilities.ts:33 | the cleaned name has no white space and no upper-case letter |
| PdfUtilities.CleanNameIdempotent | src/services/pdf/pdfUtilities.ts:33 | cleaning twice is cleaning once |
| PdfUtilities.HyphenateKeepsCharacters | src/services/pdf/pdfUtilities.ts:33 | every character `replace(/\s+/g, '-')` leaves is a hyphen or a character of the input |
| PdfUtilities.DatePart | src/services/pdf/pdfUtilities.ts:34 | `split('T')[0]` is the text up to the first T, or all of it when there is none |
| PdfUtilities.FileNameOfTimestamp | src/services/pdf/pdfUtilities.ts:32-36 | for a time stamp `<date>T<time>` the file name is `lab-report-<clean name>-<date>.pdf` |
| PdfUtilities.FileNameHasNoWhitespace | src/services/pdf/pdfUtilities.ts:32-36 | a time stamp without white space gives a file name without white space |
| PdfUtilities.FileNameWithoutT | src/services/pdf/pdfUtilities.ts:32-36 | a time stamp without a T is used whole as the date part |
| OcrService.LegacyCatalogRanges | src/services/ocrService.ts:82-97 | every range of the earlier catalog is non-empty and starts above zero |
| OcrService.LegacyRecordClassified | src/services/ocrService.ts:104-117 | a pushed record holds the captured name, the exact value (zero included), the entry's unit and range, and that value's classification |
| OcrService.LegacyZeroIsLow | src/services/ocrService.ts:125-131 | a captured value of 0 (pushed as is by lines 106-107) is classified low against every entry |
| OcrService.LegacyExtractParameters | src/services/ocrService.ts:77-123 | the earlier `extractParameters` returns the records of all matches of the text's lines |
| OcrService.LegacyScanLines | src/services/ocrService.ts:99-120 | the two nested loops push one record per match, in line-major, catalog-minor order |
| OcrService.LineFindsSound | src/services/ocrService.ts:100-118 | every match found on a line is one entry's match on it, at most one per entry |
| OcrService.LineFindsComplete | src/services/ocrService.ts:100-118 | every entry matching the line has its match found |
| OcrService.TextFindsSound | src/services/ocrService.ts:99-120 | every match found in the text is one entry's match on one of its lines |
| OcrService.TextFindsComplete | src/services/ocrService.ts:99-120 | every entry matching any line has its match found |
| OcrService.TextFindsAppend | src/services/ocrService.ts:99-120 | reading two runs of lines is reading the first, then the second |
| OcrService.LegacyExtractSound | src/services/ocrService.ts:99-120 | every record comes from a match of a catalog entry on a line of the text |
| OcrService.LegacyExtractComplete | src/services/ocrService.ts:99-120 | every match of a catalog entry on a line is recorded: no duplicate check, no value filter |
| OcrService.LegacyExtractAppend | src/services/ocrService.ts:99-120 | text joined at a line break gives the records of each part, one after the other |
| OcrService.KeepDigits | src/services/ocrService.ts:70 | `replace(/[^\d]/g, '')` leaves only digits, and leaves a digit string unchanged |
| OcrService.FirstCharUpper | src/services/ocrService.ts:71 | `charAt(0).toUpperCase()` has at most one character, and none exactly for "" |
| OcrService.LegacyNameShape | src/services/ocrService.ts:62-69 | the name is "Patient" or a non-empty trimmed capture |
| OcrService.LegacyAgeNeverUnknown | src/services/ocrService.ts:63-70 | the age is never "Unknown": it is "undefined YRS" without a match and digits + " YRS" with one |
| OcrService.LegacyGenderShape | src/services/ocrService.ts:64-71 | the gender is "Unknown" or one character, "M" for male tokens and "F" for female tokens |
| OcrService.LegacyDateAndLab | src/services/ocrService.ts:65-73 | the date is the whole first date match or the current date; the lab name is absent iff the lab pattern does not match |
| OcrService.LegacyParseLabReport | src/services/ocrService.ts:43-56 | the earlier `parseLabReport` pairs the earlier patient reader and the earlier extractor on the same text |
| LabReport.ParsedClassification | src/services/ocrApiService.ts:205-223 | in a parsed report every value is positive, and severity is normal exactly when status is, never `monitor` |
| LabReport.ParsedCriticalCount | src/services/doctorRecommendationService.ts:6-7 | for a parsed report the basic service's critical count is the number of critical-severity parameters |
| LabReport.ParsedSummaryAge | src/services/advancedMedicalRecommendationService.ts:21 | the summary age of a parsed report is 0 for an unknown age, else the extracted n with 0 < n < 150 |
| Numbers.ParseFloatNumeral | src/services/parameterExtractor.ts:49-52 | `parseFloat` of a `[0-9]+\.?[0-9]*` capture is its exact value |
| Numbers.ParseIntNatToString | src/services/patientInfoExtractor.ts:65-67 | `parseInt` reads `String(n)` back as n, whatever text follows that neither continues the digits nor makes a `0x` prefix |
| Numbers.ParseIntSigned | src/services/advancedMedicalRecommendationService.ts:21 | `parseInt` reads a leading `-` or `+` before `String(n)` as the sign of the result |
| Numbers.ParseIntHex | src/services/advancedMedicalRecommendationService.ts:21 | after a `0x` or `0X` prefix, `parseInt` reads the run of hexadecimal digits in base sixteen |
| Strings.TrimIdempotent | src/services/patientInfoExtractor.ts:53 | trimming twice is trimming once |
| Strings.JoinSplit | src/services/parameterExtractor.ts:31 | `split('\n')` loses nothing: joining the lines gives the text back |
| Strings.SplitAppend | src/services/parameterExtractor.ts:31 | splitting text joined at a separator splits each side on its own |
| Collections.FilterPartition | src/services/pdf/pdfUtilities.ts:5-6 | a filter and its complement split the input, element for element |
| Collections.FilterKeepsOrder | src/services/pdf/pdfUtilities.ts:5-7 | a filter keeps the relative order |
| Collections.Distinct | src/services/advancedMedicalRecommendationService.ts:83 | `[...new Set(xs)]` has no repeats and holds exactly the elements of xs |
| Collections.DistinctKeepsBase | src/services/advancedMedicalRecommendationService.ts:201 | repeat-free entries pushed first stay first, in order, after de-duplication |
| Collections.PushedThenDistinct | src/services/advancedMedicalRecommendationService.ts:181-202 | a list of fixed entries grown by a `forEach` push and de-duplicated has no repeats, keeps the fixed entries first, and holds exactly the fixed and the pushed elements |

## Left out

- **The regular-expression engine.** Every pattern is an abstract matcher. So the model does not capture:
  - JavaScript's greediness;
  - the `i` flag's effect on matching;
  - what `[A-Za-z\s\.]{2,40}` can span across newlines.

  Properties that depend on what a pattern can capture take it as a precondition (`ParameterExtractor.SoundMatcher`).
- **IEEE-754 rounding.** Values are exact reals. At the thresholds, doubles can classify differently:
  - 17.8 against 13.0-17.0 deviates by exactly 0.2 in reals, which is mild (`ParameterExtractor.UpperBoundaryScenario`);
  - in doubles the deviation is 0.20000000000000018, which is moderate.
- Numbers.ParseFloat: reads only optional leading white space, then digits with an optional `.` fraction, and stops at anything else. So it differs from JavaScript on other texts:
  - a sign or `Infinity` gives NaN, where JavaScript reads the signed number or `Infinity`;
  - an exponent is cut off: "12e3" reads as 12, where JavaScript reads 12000;
  - a leading point gives NaN: ".5" reads as NaN, where JavaScript reads 0.5.

  None of these reaches the model: every capture of the number patterns (`[0-9]+\.?[0-9]*`), every range text of the catalogs and every earlier-reader capture starts with a digit and holds no exponent; every synonym tested with `isNaN(parseFloat(...))` starts with a letter and is not "Infinity".
- ExplanationGenerator.GenerateExplanation: the table is looked up by its own keys only. In JavaScript, when the cleaned name is a table key, a status that names a property every object inherits ("constructor", "toString", "valueOf", "hasOwnProperty", "__proto__") finds that inherited member of the name's row, and the generator then returns `undefined`. The model returns the template sentence instead, so `ExplanationNonEmpty` does not hold for such texts in JavaScript. The status argument is meant to be a parameter record's status, "low", "high" or "normal", and none of those is an inherited name.
- Numbers.ParseInt: results are exact integers. JavaScript's doubles lose precision past 2^53; the ages and counts read back here are below 1000.
- AdvancedRecommendation.PatientSummaryOf: the age is an exact integer through `Numbers.ParseInt`, so an age text whose leading number is beyond 2^53 keeps digits that JavaScript would round away. The age extractor only produces one to three digits.
- **Values as text.** `LabParameter.value` is typed `number | string` in the shared type. The model holds a real, which is all the extractors produce.
- **Non-numeric range texts.** A range text that did not parse would give NaN bounds, and every comparison with NaN is false. That case is not modelled. `ParameterExtractor.CatalogRangesParse` proves that every range text of the current catalog parses.
- OcrService.LegacyCatalogRanges: states that each earlier-catalog range is non-empty and positive. It does not prove that the entry's range text parses to that range. The texts are the same digits-and-hyphen forms as in the current catalog.
- **OCR and network code.** Left out:
  - the Tesseract call (`extractTextFromFile` in `src/services/ocrService.ts`);
  - the OCR.space client in `src/services/ocrApiService.ts`, apart from `parseLabReport`;
  - `parseLabReport`'s `try`/`catch`, which only re-throws. The extractors modelled here do not throw.
- **Output and UI code.** HTML and PDF generation (`pdfExportService.ts`, `pdf/pdfTemplateGenerator.ts`, `pdf/pdfContentSections.ts`, `pdf/pdfStyles.ts`) is left out. So are the React components and pages, and `aiExplanationService.ts`, a forwarding wrapper.
- **Logging and the clock.** All `console.log` calls are left out. The clock reads (`new Date()`) are parameters: `today` for the report date, `isoNow` for the file name.
- AdvancedRecommendation.KeyAbnormalities: the displayed result `${value} ${unit}` is kept as the value and the unit it is made of. The number-to-text formatting of a real is not modelled.
- **Fields of the explanation table.** Only the `explanation` field is modelled. The table's `recommendations`, `urgency` and `doctorSpecialty` fields are not read by `generateExplanation`.
- **Case mapping.** `toLowerCase`/`toUpperCase` map ASCII letters only. Every synonym, keyword and token the code compares is ASCII.

## Behaviour worth knowing

- **Earlier reader's age.** Its age is never "Unknown" (`OcrService.LegacyAgeNeverUnknown`). `ageMatch?.[1]?.replace(...) + " YRS"` is always a non-empty string, so the `|| "Unknown"` default is out of reach. Without a match the age reads "undefined YRS".
- **Basic service's urgency.** The basic service never reports "critical" (`DoctorRecommendation.GenerateRecommendation`). The PDF label shows the advanced service's "critical" as "Routine" (`PdfUtilities.CriticalShownAsRoutine`).
