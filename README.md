# Prescription text parser: a Dafny model

This project models the text-parsing core of a prescription reader: the
function that turns the (already recognised) text of a prescription into
medicine records, and the phone-number filter it relies on. It follows
`parse_medicine_details` and `is_likely_phone_number` in `app.py`.

- **Line splitter.** The text is split at `'\n'`, and each line is trimmed of whitespace
  (`PyStr.SplitLines`, `PyStr.Strip`).
- **Phone-number filter.** A line in which the phone pattern matches anywhere is skipped. The
  pattern is an optional country code (an optional `+`, one to three digits and an optional
  separator), a three-digit area code with optional parentheses, three digits and four digits
  ending at a word boundary, with optional `-`, `.` or whitespace separators
  (`PhoneFilter`).
- **Name classifier.** A line is a name line when it has the name shape (an upper-case letter
  followed by letters, digits, whitespace, `-`, `.` or `!`) and no frequency keyword occurs in
  it. The stored name has punctuation removed and is trimmed. When it ends in
  `" <unit>"` for a dosage keyword, every "number + unit" fragment for the first such unit is
  removed as well (`NameClassifier`).
- **Field extractor.** Any other line is a detail line. Its dosage comes from the
  number-and-unit pattern, with a bare-number fallback. Its frequency comes from an "a-b-c"
  triplet, or else from a scan of the ordered frequency-keyword table (`FieldExtractor`).
- **Record assembler.** A state machine holds the pending medicine name and the records so
  far. A name line replaces the pending name. A detail line with a pending name emits a record
  and clears the name. Non-blank text that yields no record gives the single sentinel record
  `Could not parse medicine details` (`RecordAssembler`).

Python's `re` engine is not available to the model. Each regular expression is therefore a
hand-written matcher whose backtracking behaviour is spelled out (`Patterns`). Six patterns
are also written declaratively, as "some way the pattern can match here", and proved to agree
with their matchers in both directions: the number pattern, the unit-fragment pattern, the
bare-number pattern of the dosage fallback and the triplet pattern (`PatternFacts`), and the
dosage pattern and the number-and-keyword pattern of the frequency scan (`SearchFacts`). The phone pattern and the name shape are
stated only as matchers. The dosage pattern's two alternations are built from the
dosage-keyword list, so its matchers take the unit list as a parameter, and its facts hold
for any list of units that start with a lower-case letter. `re.search` is the leftmost
position at which a matcher succeeds (`Patterns.Leftmost`). The loops of the source — over the lines, over the dosage
keywords in the name cleanup, and over the frequency keywords — are methods with loop
invariants, proved equal to the functions that specify them. `WorkedLines` works out the
result for a few concrete detail lines.

### Where the code and its evident design part

The model follows the code as written. Read literally, the code does not always do what its
comments and design suggest:

- **Dosage group numbers.** The dosage pattern embeds the number pattern, which has a group
  of its own. The groups are therefore: 1 the number, 2 its decimal part, 3 the forward unit,
  4 the reverse unit.
  - A forward match with a decimal part gives `"<number> <decimal part>"`: `"2.5 mg"` yields
    `"2.5 .5"` (`WorkedLines.DecimalDosageRepeatsFraction`).
  - Any other match gives `"Not specified"`: `"500 mg"` yields `"Not specified"`
    (`WorkedLines.IntegerDosageNotSpecified`).
  - The reverse branch (app.py:104-105) can never fire (`FieldExtractor.DosageWithUnitMatch`).
- **The frequency test raises.** In the keyword pattern, group 2 is again the decimal part.
  Testing it for `"times"` raises a `TypeError` whenever the number before the keyword is an
  integer, so `"take 1 daily"` aborts the whole parse
  (`WorkedLines.IntegerBeforeDailyCrashes`). The parser is therefore not total. The model
  writes the outcome as `Crashed`.
- **The "times" branch is dead.** A decimal part never contains `"times"`, so the
  `"<number> <text>"` frequency (app.py:122) is never produced
  (`PatternFacts.FractionHasNoTimes`, `FieldExtractor.ScanStep`).

## Model

| member | source | states |
|---|---|---|
| PyStr.Strip | app.py:77 | The trimmed line is the slice of the line left after removing its leading and its trailing whitespace: it does not start or end with whitespace, it is empty exactly when the line is all whitespace, and it keeps the first character when that is not whitespace. |
| PyStr.Lower | app.py:78 | Defines `str.lower()` on ASCII: each upper-case letter becomes its lower-case letter, every other character is kept. |
| PyStr.Contains | app.py:108-112 | Defines Python's `in` on strings, also used at app.py:86 and 121-123: the text occurs at some position. |
| PyStr.EndsWith | app.py:89 | Defines `str.endswith()`: the last characters are the suffix. |
| PyStr.StartsAtFold | app.py:97-100 | Defines a match of lower-case text under `re.IGNORECASE`: the characters at the position, lower-cased, are that text. Also used at app.py:90 and 120. |
| Results.Truthy | app.py:102-104 | Defines Python truthiness of a regex group: it took part and is non-empty. |
| PyStr.StripOfStripped | app.py:129-131 | Trimming text that is already trimmed changes nothing, so the second strip of a record's fields has no effect. |
| PyStr.SplitLines | app.py:65 | Splitting at newlines gives at least one line, and no line contains a newline. Joining the lines with newlines gives back the text. |
| Patterns.Leftmost | app.py:97-100 | A search finds nothing exactly when no position matches. Otherwise it returns a match at some position, and that match is the one at the first position that matches. |
| Patterns.NumberCandidates | app.py:74 | The number pattern has at most two matches at a position, each of them a genuine bounded number there. When there are two, the one with a decimal part is tried first. |
| Patterns.Fraction | app.py:74 | The decimal-part group, when present, is a '.' followed by digits. |
| Patterns.RemovePunct | app.py:87 | The result holds exactly the characters of the line that are not in the punctuation class, keeps the first character when that is not punctuation, and is the line itself when the line has no punctuation. |
| PatternFacts.RemovePunctChar | app.py:87 | A single character is deleted exactly when it is in the punctuation class. |
| PatternFacts.RemovePunctAppend | app.py:87 | The strip of a concatenation is the concatenation of the strips, so every other character stays, in order and with its repetitions. |
| Patterns.RemoveUnitFragments | app.py:90 | Removing the unit fragments introduces no character. Where no fragment starts, the first character is kept. |
| PatternFacts.TrailingFragmentRemoved | app.py:90 | A fragment that ends the name, with no fragment starting before it, is deleted and everything before it is kept. |
| Patterns.Boundary | app.py:74 | Defines `\b`: a word character on exactly one side of the position. |
| Patterns.NameShape | app.py:85 | Defines the name shape: an upper-case letter followed by at least one letter, digit, whitespace, '-', '.' or '!'. |
| Patterns.UnitFragmentAt | app.py:90 | A fragment reported at a position ends after it, inside the name. |
| Patterns.UnitWithBoundary | app.py:98 | The unit alternation followed by `\b`: a unit chosen at a position ends there or later, inside the line. SearchFacts.UnitWithBoundaryPicks states which unit is chosen. |
| Patterns.ForwardDosage | app.py:98 | A forward dosage match sets the number and the forward unit, never the reverse unit. Its decimal-part group, when set, is a '.' followed by digits. |
| Patterns.NumberAfterUnit | app.py:98 | A number read after a unit lies where the unit matched ignoring case, starts right after the whitespace that follows the unit, and is a genuine bounded number. |
| Patterns.ReverseDosage | app.py:98 | A reverse dosage match sets only the reverse unit among groups 1-4. |
| Patterns.DosagePatternAt | app.py:97-100 | A match of the dosage pattern built from a unit list is well formed: exactly one of the forward and reverse units is set, group 1 is non-empty when set, and group 2 is a decimal part only alongside a forward unit. SearchFacts.DosagePatternAtIff states where it matches. |
| Patterns.DosageAt | app.py:97-100 | The same for the pattern built from the dosage keywords. SearchFacts.DosageAtIff states that it matches exactly where the pattern can. |
| Patterns.DosageSearch | app.py:97-100 | A dosage match is well formed: exactly one of the forward and reverse units is set, group 1 is non-empty when set, and group 2 is a decimal part only alongside a forward unit. |
| Patterns.NumberOnlyAt | app.py:107 | The bare-number pattern at a position yields a number that starts with a digit. Everything after the number may match empty, so the first number candidate is taken. PatternFacts.NumberOnlyAtIff and NumberOnlyAtLongest state where it matches and what it reports. |
| Patterns.NumberOnlySearch | app.py:107 | The bare number found by the fallback search starts with a digit. PatternFacts.NumberOnlySearchFirst and NumberOnlySearchSound state which number it is. |
| Patterns.LongestNumberAt | app.py:74 | Defines the longest number token at a position: no number token starting there ends later. |
| Patterns.FirstNumber | app.py:107 | Defines the bare-number match as written declaratively: the longest number token at the first position where a number token starts. |
| PatternFacts.NumberOnlyAtIff | app.py:107 | The bare-number pattern matches at a position exactly when a number token starts there. |
| PatternFacts.NumberOnlyAtLongest | app.py:107 | At a position where it matches, the bare-number pattern reports the longest number token starting there. |
| PatternFacts.NumberOnlyAtReports | app.py:107 | A bare number reported at a position is the text of the longest number token starting there. |
| PatternFacts.NumberOnlySearchFirst | app.py:107 | The bare-number search returns the longest number at the first position where a number token starts. |
| PatternFacts.NumberOnlySearchSound | app.py:107 | A bare number the search returns is the longest number at the first position where a number token starts. |
| PatternFacts.NumberOnlySearchIff | app.py:107 | The bare-number search finds something exactly when the line holds a number token. |
| Patterns.DashNumber | app.py:115 | A reported triplet component is preceded by optional whitespace, one '-' and optional whitespace, and is a maximal non-empty run of digits. |
| Patterns.TripletAt | app.py:115 | A triplet found at a position consists of three non-empty digit runs of the line, in order, each pair separated by optional whitespace, '-' and optional whitespace, with a word boundary before the first and after the last. |
| Patterns.TripletSearch | app.py:115 | A triplet the search finds is such a match at some position of the line. |
| PatternFacts.DashNumberIs | app.py:115 | A separator followed by a maximal digit run is exactly what the component matcher reports. |
| PatternFacts.TripletComplete | app.py:115 | Every way the triplet pattern can match at a position is the match reported there, with the same three groups. |
| PatternFacts.TripletSearchFirst | app.py:115 | The triplet search returns the three groups at the first position where the triplet pattern can match. |
| PatternFacts.NoTripletFound | app.py:115-116 | Where the triplet pattern can match nowhere, the search finds nothing. |
| Patterns.TimesADayAt | app.py:120 | Defines the "times a day" alternative at a position: "times", whitespace, then "a" and "day" with whitespace between, or "day" alone, ignoring case. SearchFacts.TimesADaySound and TimesADayComplete tie it to its declarative form. |
| Patterns.FreqNumber | app.py:120 | The number-and-keyword match over the number candidates at a position, in the engine's order: its group 2, when set, is a '.' followed by digits. SearchFacts.FreqNumberSound and FreqNumberComplete state which candidate it takes. |
| Patterns.FreqNumberAt | app.py:120 | Group 2 of a number-and-keyword match at a position, when set, is a '.' followed by digits. SearchFacts.FreqNumberAtIff states that it matches exactly where the pattern can. |
| Patterns.FreqNumberSearch | app.py:120 | Group 2 of the number-and-keyword match, when set, is a '.' followed by digits. |
| PatternFacts.NumberCandidatesComplete | app.py:74 | Every way the number pattern can match at a position is among the candidates the matcher tries. |
| PatternFacts.UnitFragmentComplete | app.py:90 | Any way the unit-fragment pattern can match at a position is the match the matcher reports, with the same end. |
| PatternFacts.UnitFragmentSound | app.py:90 | A unit-fragment match the matcher reports consists of optional whitespace, digits, an optional decimal part, optional whitespace and then the unit ending at a word boundary. |
| PatternFacts.FractionHasNoTimes | app.py:121 | A decimal-part group never contains "times". |
| PatternFacts.DosageSearchFirst | app.py:97-100 | The dosage search returns the match at the first position where the dosage pattern matches. |
| PatternFacts.FreqNumberSearchFirst | app.py:120 | The number-and-keyword search returns the match at the first position where that pattern matches. |
| PatternFacts.FreqNumberSearchFound | app.py:120 | A match the number-and-keyword search reports is the match at some position, and no earlier position matches. |
| SearchFacts.TimesADaySound | app.py:120 | When the "times a day" alternative matches, "times", whitespace, an optional "a", whitespace and "day" follow one another there, ignoring case. |
| SearchFacts.TimesADayComplete | app.py:120 | Every such sequence of "times", whitespace, optional "a", whitespace and "day" is matched by the "times a day" alternative. |
| SearchFacts.FreqNumberSound | app.py:120 | A number-and-keyword match reported at a position is a number there, followed by whitespace and then the keyword or "times a day", and its groups are that number and its decimal part. |
| SearchFacts.FreqNumberComplete | app.py:120 | Every number followed by whitespace and then the keyword or "times a day" is matched at its position, with that number and its decimal part as groups. |
| SearchFacts.FreqNumberAtIff | app.py:120 | The number-and-keyword matcher succeeds at a position exactly when the pattern can match there. |
| SearchFacts.IntegerReported | app.py:120-121 | When the search finds an integer, the first position where the pattern can match has a match whose number is an integer. |
| SearchFacts.IntegerFound | app.py:120-121 | When the first position where the pattern can match has a match whose number is an integer, the search finds an integer. |
| SearchFacts.UnitWithBoundaryPicks | app.py:98 | The forward unit chosen at a position is the first unit of the list that matches there, ignoring case, and ends at a word boundary. |
| SearchFacts.UnitWithBoundaryFinds | app.py:98 | A unit that matches at a position and ends at a word boundary means some unit is chosen there. |
| SearchFacts.ForwardDosagePicks | app.py:98 | A forward match is the first number candidate that whitespace and a unit at a word boundary follow, with the first such unit. |
| SearchFacts.ForwardSplitPicked | app.py:98 | For every number followed by whitespace and a unit at a word boundary, the forward alternative reports that number with the first unit of the list that fits there. |
| SearchFacts.DosageForwardComplete | app.py:97-100 | Every way the first alternative can match is found at its position. Its number and decimal part are groups 1 and 2, and group 3 is the unit when no earlier unit of the list fits there. |
| SearchFacts.ForwardWitness | app.py:97-100 | A reported match with a forward unit comes with the number, whitespace and unit it was read from. |
| SearchFacts.DosageForwardSound | app.py:97-100 | A reported match with a forward unit is a match of the first alternative, with that number, its decimal part and that unit as groups. |
| SearchFacts.ReverseDosagePicks | app.py:98 | A reverse match is the first unit of the list after which a number is read, with that unit and number as groups. |
| SearchFacts.NumberAfterUnitFinds | app.py:98 | A unit followed by whitespace and a number has a number read after it. |
| SearchFacts.ReverseDosageFinds | app.py:98 | A unit followed by whitespace and a number at a word boundary gives a reverse match. |
| SearchFacts.DosageReverseSound | app.py:97-100 | A reported match with a reverse unit is a match of the second alternative, with that unit and number as groups, at a position where the first alternative cannot match. |
| SearchFacts.DosageReverseComplete | app.py:97-100 | Every way the second alternative can match, at a position where the first cannot, is found there. |
| SearchFacts.DosagePatternAtIff | app.py:97-100 | The dosage matcher succeeds at a position exactly when the pattern can match there. |
| SearchFacts.DosageAtIff | app.py:97-100 | The same for the pattern built from the dosage keywords. |
| PhoneFilter.Matches | app.py:59 | Defines a match of a pattern piece at a position, one path through its optional characters, separators, digit counts and `\b`. |
| PhoneFilter.Variant | app.py:59 | Defines the four shapes of the phone pattern: without the country-code group, or with a code of one, two or three digits. |
| PhoneFilter.PhoneMatchAt | app.py:59 | Defines a match of the phone pattern at a position: one of the four variants matches there. |
| PhoneFilter.IsLikelyPhoneNumber | app.py:57-60 | Defines the filter: one of the four variants of the phone pattern matches at some position of the line. |
| PhoneFilter.MatchIsPhone | app.py:57-60 | A match of any of the four pattern variants anywhere in the line makes it a phone number. |
| PhoneFilter.MatchesReach | app.py:59 | Every match of a pattern reaches, at or after its start, a match of the pattern's tail. |
| PhoneFilter.VariantEndsWithFourDigits | app.py:59 | Every variant of the phone pattern ends with four digits at a word boundary. |
| PhoneFilter.LocalNumber | app.py:59 | Three digits, a separator, three digits, a separator and four digits ending at a word boundary match the part of the pattern after the country code. |
| PhoneFilter.CountryCode | app.py:59 | A '+', the code digits and a separator, in front of a match of the rest of the pattern, match the country-code group followed by that rest. |
| PhoneFilter.PhoneOfTenDigits | app.py:57-60 | Ten consecutive digits that end at a word boundary make the line a phone number. |
| PhoneFilter.PhoneWithCountryCode | app.py:57-60 | A '+', one to three digits and a separator, followed by a local number of 3, 3 and 4 separated digits ending at a word boundary, make the line a phone number. |
| PhoneFilter.InternationalNumberIsPhone | app.py:57-60 | "+1-800-555-1234" is a phone number. |
| PhoneFilter.PhoneNeedsFourDigits | app.py:57-60 | Every phone-number line contains four digits that end at a word boundary. |
| PhoneFilter.NoDigitsNoPhone | app.py:57-60 | A line without digits is never a phone number. |
| NameClassifier.SuffixUnit | app.py:88-89 | The unit chosen for cleanup is the first dosage keyword, in table order, such that the lower-cased name ends with a space and that unit. No unit is chosen exactly when no dosage keyword ends the name that way. |
| NameClassifier.HasFrequencyKeyword | app.py:86 | Defines the keyword test: some frequency keyword occurs in the lower-cased line. |
| NameClassifier.IsNameLine | app.py:85-86 | Defines the name-line test: the name shape and no frequency keyword anywhere in the lower-cased line. |
| NameClassifier.CleanedName | app.py:87-91 | The stored name only holds characters of the line, and none of them is punctuation. |
| NameClassifier.CleanName | app.py:87-91 | The cleanup loop over the dosage keywords, which stops at the first unit the name ends with, yields the cleaned name. |
| NameClassifier.CleanedNameKeepsInitial | app.py:85-92 | The stored name of a name line is non-empty, trimmed and free of punctuation, and it starts with the line's upper-case initial. |
| NameClassifier.StripKeepsInitial | app.py:87 | Trimming punctuation-free text that starts with an upper-case letter keeps that letter, and the result is trimmed and free of punctuation. |
| FieldExtractor.Dosage | app.py:94-113 | Defines the dosage of a detail line, given whether a name is pending. Its properties are stated by DosageWithUnitMatch and DosageFallback. |
| FieldExtractor.DosageWithUnitMatch | app.py:101-105 | When the unit pattern matches, the pending name plays no part. The dosage is "<number> <decimal part>" for a forward match with a decimal part and "Not specified" otherwise, so the reverse branch never fires. |
| FieldExtractor.DosageOfFirstMatch | app.py:97-105 | At the first position where the dosage pattern can match, a number with a decimal part followed by a unit gives "<number> <decimal part>"; every other match there gives "Not specified". |
| FieldExtractor.DosageFallback | app.py:106-113 | Without a unit match, the dosage is given exactly when a bare number exists and a name is pending or the line mentions "tablet" or "cap". It is the number followed by " tablet(s)", else " capsule(s)", else nothing. |
| FieldExtractor.DosageFallbackNumber | app.py:106-113 | Without a unit match, a line with no number token gets "Not specified". When a name is pending or "tablet" or "cap" occurs, the dosage is the longest number at the first position where a number token starts, with its suffix. |
| FieldExtractor.ScanKeywords | app.py:119-125 | Defines the keyword loop from a given keyword on. Its outcome is stated by ScanFirstVerdict. |
| FieldExtractor.Frequency | app.py:115-125 | Defines the frequency of a detail line: the triplet form, else the keyword scan. Its properties are stated by TripletFrequency, NoTripletScan and FrequencyForms. |
| FieldExtractor.ExtractFrequency | app.py:115-125 | The triplet test and the keyword loop with its break and its TypeError yield the frequency of the line. |
| FieldExtractor.IntegerBefore | app.py:120-121 | Defines when the frequency test raises for a keyword: the number-and-keyword search finds a number without a decimal part. IntegerBeforeExactly states it declaratively. |
| FieldExtractor.IntegerBeforeExactly | app.py:120-121 | The test raises for a keyword exactly when, at the first position where a number, whitespace and then the keyword or "times a day" can match, such a match has an integer. |
| FieldExtractor.ScanStep | app.py:120-125 | One keyword step raises when an integer precedes the keyword, stops with the keyword when the line contains it, and otherwise moves on with the frequency unchanged. |
| FieldExtractor.ScanSettles | app.py:119-125 | The keyword scan equals the scan of its verdict sequence. |
| FieldExtractor.SettleFirstVerdict | app.py:119-125 | The outcome of a verdict sequence is set by its first verdict that does not pass. |
| FieldExtractor.ScanFirstVerdict | app.py:119-125 | The scan yields its starting value when every keyword passes. Otherwise it raises or yields the keyword, according to the first keyword, in table order, that does not pass. |
| FieldExtractor.TripletFrequency | app.py:115-117 | Where the triplet pattern can first match, the frequency is "Morning: a, Afternoon: b, Night: c" with its three digit runs in order, and nothing raises. |
| FieldExtractor.NoTripletScan | app.py:115-119 | Where the triplet pattern can match nowhere, the frequency is the keyword scan starting from "Not specified". |
| FieldExtractor.FrequencyForms | app.py:115-125 | A frequency that does not raise is the triplet form, "Not specified" or one of the frequency keywords. |
| RecordAssembler.Classify | app.py:76-92 | A line is blank exactly when it is all whitespace. A line classified as a name line carries a good name: non-empty, trimmed, led by an upper-case letter and free of punctuation. |
| RecordAssembler.Step | app.py:76-133 | Defines one loop iteration: blank and phone lines change nothing, a name line replaces the pending name, a detail line raises when its frequency scan raises and otherwise emits a record and clears the name when a non-empty name is pending. |
| RecordAssembler.Run | app.py:76-133 | Defines the loop over the classified lines from no pending name and no records, stopping at the first raise. |
| RecordAssembler.Parse | app.py:62-137 | Defines the result: the loop over the split lines, then the sentinel alone when it built no record from text that is not all whitespace. |
| RecordAssembler.ClassifiedGood | app.py:76-92 | Every name line of a text carries a good name. |
| RecordAssembler.RunSnoc | app.py:76 | Processing one more line applies one loop step to the state reached so far. |
| RecordAssembler.RunCrashedPrefix | app.py:120-121 | Once the loop raises, the whole parse raises. |
| RecordAssembler.ParseLine | app.py:77-133 | One iteration of the loop on the pending name and the records agrees with the specified step, including when it raises. |
| RecordAssembler.ParseMedicineDetails | app.py:62-137 | The method's loop over the lines, followed by the sentinel rule, computes the specified parse. |
| RecordAssembler.StepKeepsGood | app.py:127-133 | A step keeps the state good and keeps the records so far. It adds exactly one record when a detail line meets a pending name, and that record carries the pending name. |
| RecordAssembler.RunKeepsGood | app.py:127-133 | Every record built has a good name and a trimmed dosage and frequency, and a pending name is good. |
| RecordAssembler.RecordsNeedNameLines | app.py:86-133 | The records, plus the pending name if any, never outnumber the name lines read. |
| RecordAssembler.NameList | app.py:86-87 | The names of the name lines, in order, are as many as the name lines. |
| RecordAssembler.NamesHeld | app.py:127-133 | The names the loop state accounts for are the records' names, in order, followed by the pending name held since app.py:66, if any. |
| RecordAssembler.SubsequenceDropLast | app.py:127-133 | A helper of RecordNamesInOrder, about sequences in general: deleting the last element of a subsequence leaves a subsequence. |
| RecordAssembler.SubsequenceExtend | app.py:127-133 | A helper of RecordNamesInOrder, about sequences in general: a subsequence stays one when the sequence grows at the end. |
| RecordAssembler.StepKeepsNameOrder | app.py:86-133 | One step keeps the names the state accounts for a subsequence of the names read so far. A name line replaces the pending name, and a record takes the pending name over unchanged. |
| RecordAssembler.RecordNamesInOrder | app.py:86-133 | The records' names, followed by the pending name, are a subsequence of the names of the name lines: each uses a name line of its own, in the order the lines came. |
| RecordAssembler.NameThenName | app.py:86-92 | A name line directly followed by another name line emits nothing, and the second name replaces the first. |
| RecordAssembler.NameThenDetail | app.py:127-133 | A name line followed by a detail line emits one record of that name, dosage and frequency and clears the name. It raises exactly when that line's frequency scan raises. |
| RecordAssembler.RunSkipsNoise | app.py:79-83 | Removing a blank or phone line changes nothing. |
| RecordAssembler.RunCrashes | app.py:120-121 | The loop raises exactly when the frequency scan of some detail line raises, wherever that line stands. |
| RecordAssembler.AllBlankRun | app.py:79-80 | Blank lines alone leave the initial state. |
| RecordAssembler.BlankTextParsesToNothing | app.py:135-137 | All-whitespace text, including the empty text, gives no records and no sentinel. |
| RecordAssembler.ParseEmptyIffBlank | app.py:135-137 | A parse that does not raise returns no records exactly when the text is all whitespace. |
| RecordAssembler.ParsedRecordsGood | app.py:127-137 | A parse that does not raise returns the sentinel alone, or records that each have a good name and a trimmed dosage and frequency. |
| WorkedLines.NoDashNoTriplet | app.py:115 | A line without '-' never has a triplet. |
| WorkedLines.DecimalDosageRepeatsFraction | app.py:101-103 | "2.5 mg" yields the dosage "2.5 .5". |
| WorkedLines.IntegerDosageNotSpecified | app.py:101-106 | "500 mg" yields the dosage "Not specified". |
| WorkedLines.TripletLineFrequency | app.py:115-117 | "1-0-1" gives the frequency "Morning: 1, Afternoon: 0, Night: 1". |
| WorkedLines.StrengthDroppedFromName | app.py:87-91 | The name line "Paracetamol 500 mg" is stored as "Paracetamol". |
| WorkedLines.DailySearch | app.py:120 | In "take 1 daily", the search for the keyword "daily" finds the integer "1" with no decimal part. |
| WorkedLines.IntegerBeforeDailyCrashes | app.py:120-121 | "take 1 daily" makes the frequency scan raise. |

## Left out

- Image handling, OCR, preprocessing, language detection, translation, the user interface and
  file I/O are not part of this model. The model starts from the recognised text.
- Characters are ASCII. Whitespace is Python's `isspace` set, and word characters are
  letters, digits and `_`. Lower-casing changes only `A`-`Z`. Unicode classes, Unicode case
  mapping and the case-insensitive matching of non-ASCII letters are not modelled.
- The regular expressions are modelled by hand-written matchers, not by a general engine.
  Only the groups and match positions the code reads are modelled.
- PhoneFilter.IsLikelyPhoneNumber: only whether some match exists is modelled, as the code uses
  only that. Where a match starts and ends is not modelled.
- The `TypeError` raised at app.py:121 is modelled as the outcome `Crashed`. The exception
  object and its message are not modelled.
- RecordAssembler.Classify: a detail line carries its dosage as computed with a name pending.
  Without a pending name the dosage is never used.
