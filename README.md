# HL7 v2 sender and receiver, modelled in Dafny

This project models the two halves of the HL7 v2 path in the Titan EMR integration.

- **Receiving side** (`emr-server/src/mapping/mapper.ts`). This is the validator and FHIR mapper. It works on a message that is already split into segments, and each segment into fields, with field 0 holding the segment tag. It covers:
  - `getField`;
  - the segment presence object built by `toSegmentPresenceObject`;
  - `validateMessage`, which takes the message type from MSH-9 and accepts only `ADT^A04` and `ADT^A08`, each checked against its schema;
  - `mapToFhir`, which builds one Patient, one Coverage and one Observation per OBX segment;
  - the date and gender transforms.
- **Sending side** (`integration-service/src/routes/sync.ts:24-34`). This is the string-building part of the `/patient` handler. It covers:
  - the choice of event (A08 for a known MRN, A04 otherwise);
  - the normalisation of the date of birth and of the sex code;
  - the MSH, PID and IN1 templates;
  - the CR join of the three segments.

Modules:

- `Text` (`text.dfy`) gives the JavaScript string operations the code relies on, as functions on `seq<char>`. These are:
  - `split`, where `"".split(c)` is `[""]`;
  - `join`;
  - ASCII `toUpperCase`;
  - `startsWith`;
  - `replace(/[^0-9]/g, '')`;
  - `substring`, with clamping and swapping.

  Its lemmas cover splitting and joining: a split undoes a join as long as no part holds the separator, and a join always undoes a split.
- `Hl7Mapper` (`mapper.dfy`) is the receiving side. `toSegmentPresenceObject` is a method with a loop, because the source builds a `Record` in place. The method is proved equal to the function `PresenceObject`, which `ValidateMessage` uses. Everything else is made of functions.
- `Hl7Sync` (`sync.ts`'s builder, in `sync.dfy`) is the sending side, written as functions of the JSON body and the timestamp `ts`. The source writes each segment as a template literal. The model writes it as its list of fields joined by `|`, so that every field position can be stated and proved. MSH-2 is a parameter of the MSH template: `BuildMessage` is the message the handler sends, with MSH-2 = `^~&` as the template literal evaluates (see Findings), and `CorrectedMessage` is the same message with the HL7 v2.5 value `^~\&`.
- `RoundTrip` (`roundtrip.dfy`) holds `SplitMessage`, which splits on CR and then on `|`. The source has no such function (`parseMessage` is imported but never defined). It is used only to state cross-file properties of the message the handler sends:
  - the receiver reads back the sender's event as the message type, whatever the user values hold;
  - when no user value holds a CR, the message passes validation exactly when the schema asks for nothing beyond MSH, PID and IN1, and otherwise reports one missing tag other than those;
  - when no user value holds a CR, a new patient passes any A04 schema the tests allow;
  - when the user values hold no CR, `|` or `^`, the mapped Patient and Coverage carry the values the sender wrote;
  - a FHIR `YYYY-MM-DD` date of birth survives the trip unchanged.

  The intermediate lemmas are proved for any MSH-2 value without `|` and CR, so they hold for the message sent and for the corrected one. `SentDiffersOnlyInMsh2` states that the two split into the same fields except MSH-2.

The Ajv schemas `ADT_A04.json` and `ADT_A08.json` are not part of this model. Each is abstracted as its list of `required` segment tags (`Schemas`). The only constraint on those lists comes from `emr-server/__tests__/validation.test.ts:5-12`: a message holding only MSH and PID passes A04. `AgreesWithTests` states this. It is a hypothesis of the lemmas that depend on it, not a fixed value.

Where the specification of the system and the code disagree, the model follows the code:

- `hl7DateToFhirDate` does not check for digits and does not require eight characters. Any non-empty input is cut into substrings.
- An absent or empty PID-8 gives no gender at all, not `unknown`.
- The validator reports at most one missing segment, as Ajv does without `allErrors`. It does not report one defect per missing segment.
- An OBX segment without OBX-14 is stamped with a clock reading. The clock is read once for each such OBX segment, so two Observations can carry different times.
- Fields are split on the fixed characters `|` and `^`. The encoding characters declared in MSH-2 are not used.

## Model

| member | source | states |
|---|---|---|
| Text.Split | emr-server/src/mapping/mapper.ts:40 | `split` on one character gives at least one piece, and no piece contains the separator |
| Text.SplitNoSeparator | emr-server/src/mapping/mapper.ts:80-81 | a string without the separator splits into itself alone |
| Text.SplitCons | emr-server/src/mapping/mapper.ts:40 | a separator after a separator-free prefix cuts off exactly that prefix as the first piece |
| Text.SplitJoin | integration-service/src/routes/sync.ts:30-34 | splitting a join gives back the parts, when no part holds the separator |
| Text.Join | integration-service/src/routes/sync.ts:34 | the empty list joins to the empty string; the join starts with the first part, followed by the separator when there is a second part |
| Text.JoinOpening | integration-service/src/routes/sync.ts:30 | a join of three or more parts opens with the first two parts, each followed by the separator |
| Text.JoinKeepsPrefix | integration-service/src/routes/sync.ts:34 | a prefix of the first part is a prefix of the join |
| Text.JoinAvoids | integration-service/src/routes/sync.ts:34 | a character that is not the separator and occurs in no part does not occur in the join |
| Text.SplitJoinHead | integration-service/src/routes/sync.ts:30-33 | the first piece of a join comes back intact whatever the later parts hold |
| Text.JoinSplit | emr-server/src/mapping/mapper.ts:40 | joining the pieces of a split on the same separator gives back the string, for every string |
| Text.UpperChar | integration-service/src/routes/sync.ts:29 | the result is never a lower-case ASCII letter; a lower-case letter becomes the capital at the same alphabet position; anything else is unchanged |
| Text.Upper | emr-server/src/mapping/mapper.ts:122 | upper-casing keeps the length and maps every character on its own: each lower-case ASCII letter becomes its capital, no lower-case ASCII letter is left, and no other character changes |
| Text.StartsWith | integration-service/src/routes/sync.ts:29 | `s.startsWith(p)` exactly when `s` is `p` followed by the rest of `s` |
| Text.Substring | emr-server/src/mapping/mapper.ts:114 | never longer than the string; in-range ordered indices give that slice; reversed indices are swapped; an end past the string gives the rest from the start; both indices past the string give the empty string; indices past either end are clamped |
| Text.Digits | integration-service/src/routes/sync.ts:28 | stripping non-digits gives only digits and never lengthens the string |
| Text.DigitsKeepsEveryDigit | integration-service/src/routes/sync.ts:28 | each digit occurs in the stripped string exactly as often as in the input |
| Text.DigitsOfDigits | integration-service/src/routes/sync.ts:28 | a string of digits is left unchanged |
| Text.DigitsCons | integration-service/src/routes/sync.ts:28 | a leading character is kept exactly when it is a digit |
| Text.DigitsConcat | integration-service/src/routes/sync.ts:28 | stripping distributes over concatenation, so the order of the digits is kept |
| Hl7Mapper.HasTag | emr-server/src/mapping/mapper.ts:17 | `s[0] === segType` holds exactly when the segment has a field 0 and it is the tag; an empty segment has no tag |
| Hl7Mapper.FieldAt | emr-server/src/mapping/mapper.ts:18 | `seg[index]` is present exactly for an index inside the segment, and is then the field at that index |
| Hl7Mapper.FindSegment | emr-server/src/mapping/mapper.ts:17 | `find` gives the index of the first segment with the tag, and none when no segment has it |
| Hl7Mapper.FindSegmentIsFirst | emr-server/src/mapping/mapper.ts:17 | whenever a segment with the tag has none before it, `find` returns that segment |
| Hl7Mapper.GetField | emr-server/src/mapping/mapper.ts:16-19 | absent when no segment has the tag; otherwise the field at that index of the first such segment, absent when the index is out of range |
| Hl7Mapper.GetFieldIgnoresLaterSegments | emr-server/src/mapping/mapper.ts:16-19 | once a segment with the tag occurs, segments appended after it never change the result |
| Hl7Mapper.GetFieldSkipsOtherTags | emr-server/src/mapping/mapper.ts:17 | a segment with another tag in front changes nothing |
| Hl7Mapper.TagKey | emr-server/src/mapping/mapper.ts:27 | the key of a segment is its tag; an empty segment's undefined `seg[0]` becomes the key `undefined` |
| Hl7Mapper.TagSet | emr-server/src/mapping/mapper.ts:26-28 | every segment's key is in the key set |
| Hl7Mapper.PresenceObject | emr-server/src/mapping/mapper.ts:24-30 | the keys are exactly the key set and every value is `true` |
| Hl7Mapper.TagSetSnoc | emr-server/src/mapping/mapper.ts:26-28 | one more segment adds exactly its tag to the key set |
| Hl7Mapper.ToSegmentPresenceObject | emr-server/src/mapping/mapper.ts:24-30 | the loop builds the presence object: every value is true, every segment's tag is a key, and every key is the tag of some segment |
| Hl7Mapper.PresenceObjectKeys | emr-server/src/mapping/mapper.ts:24-30 | for tagged segments, a tag is a key exactly when some segment has that tag |
| Hl7Mapper.PresenceObjectIgnoresOrder | emr-server/src/mapping/mapper.ts:24-30 | messages with the same segments, in any order and multiplicity, give the same key set and the same object |
| Hl7Mapper.CheckRequired | emr-server/src/mapping/mapper.ts:45-56 | no errors exactly when every required tag is a key; otherwise one error naming a required tag that is missing |
| Hl7Mapper.PartOrEmpty | emr-server/src/mapping/mapper.ts:41 | the component or the empty string: empty exactly when the component is missing or empty, and otherwise that component |
| Hl7Mapper.MessageType | emr-server/src/mapping/mapper.ts:36-42 | the type is empty exactly when MSH-9 (index 8) is absent or empty |
| Hl7Mapper.MessageTypeOfComponents | emr-server/src/mapping/mapper.ts:39-42 | an MSH-9 of `c1^c2`, with or without further components, gives the type `c1^c2` |
| Hl7Mapper.MessageTypeOfSingleComponent | emr-server/src/mapping/mapper.ts:41 | an MSH-9 without `^` gives `c1^`: the missing second component becomes empty |
| Hl7Mapper.ValidateMessage | emr-server/src/mapping/mapper.ts:35-64 | the computed type is always returned; valid exactly when there are no errors; an unsupported type is invalid with the single "Unsupported message type" error; A04 and A08 are valid exactly when every tag their schema requires is present, and otherwise have one error naming a tag their schema requires that no segment carries |
| Hl7Mapper.ValidationDependsOnTypeAndTags | emr-server/src/mapping/mapper.ts:35-64 | two messages with the same type and the same set of segment tags get the same verdict and errors |
| Hl7Mapper.ValidationIgnoresSegmentOrder | emr-server/src/mapping/mapper.ts:44-50 | in particular, two messages with the same type and the same segments, in any order and multiplicity, get the same verdict and errors |
| Hl7Mapper.TestMessagesShape | emr-server/__tests__/validation.test.ts:5-24 | the first test vector has type `ADT^A04` and tags MSH and PID, the second type `ORM^O01` |
| Hl7Mapper.TestA04IsValid | emr-server/__tests__/validation.test.ts:4-13 | the first test vector is a valid `ADT^A04` with no errors, for every schema the tests allow |
| Hl7Mapper.TestA04ValidIffAgrees | emr-server/__tests__/validation.test.ts:4-13 | the first test vector passes exactly under the schemas whose A04 list requires only MSH and PID |
| Hl7Mapper.TestOrmIsUnsupported | emr-server/__tests__/validation.test.ts:15-24 | the `ORM^O01` vector is invalid, keeps its type and has only the unsupported-type error |
| Hl7Mapper.MrnSystem | emr-server/src/mapping/mapper.ts:7 | the environment value when it is set and non-empty, `urn:mrn:titan-intake` otherwise |
| Hl7Mapper.SegmentsWithTag | emr-server/src/mapping/mapper.ts:98 | the filter keeps only segments with the tag |
| Hl7Mapper.SegmentsWithTagKeepsAll | emr-server/src/mapping/mapper.ts:98 | every matching segment is kept as often as it occurs |
| Hl7Mapper.SegmentsWithTagConcat | emr-server/src/mapping/mapper.ts:98 | filtering a concatenation concatenates the filtered parts, so input order is kept |
| Hl7Mapper.Component | emr-server/src/mapping/mapper.ts:80-81 | absent for an absent field and present for component 0 of a present one; a component holds no `^`; a field without `^` is its own only component |
| Hl7Mapper.ComponentOfJoin | emr-server/src/mapping/mapper.ts:80-81 | a field written as `^`-free components joined by `^` gives back component `i` when there is one, and nothing past the last component |
| Hl7Mapper.ToObservation | emr-server/src/mapping/mapper.ts:99-104 | code text OBX-3, value OBX-5, and time OBX-14 when it is present and non-empty, the clock reading otherwise |
| Hl7Mapper.Observations | emr-server/src/mapping/mapper.ts:98-104 | one Observation per OBX segment, in order, the k-th made from the k-th OBX with the k-th clock reading |
| Hl7Mapper.MapToFhir | emr-server/src/mapping/mapper.ts:69-107 | one identifier with the MRN system, one name with one given name, one Coverage identifier with system `INSURANCE`, one Observation per OBX segment, and a non-empty timestamp on every Observation when every clock reading is non-empty |
| Hl7Mapper.ObservationsOfConcat | emr-server/src/mapping/mapper.ts:98-104 | the Observations of a concatenation are those of the first part followed by those of the second, which reads the clock after the first part's readings |
| Hl7Mapper.ObservationsConcat | emr-server/src/mapping/mapper.ts:98-104 | the same for the Observations `mapToFhir` returns |
| Hl7Mapper.ObservationsOfOneSegment | emr-server/src/mapping/mapper.ts:98-104 | one segment gives one Observation exactly when it is an OBX, with OBX-3, OBX-5, and OBX-14 or else the first clock reading |
| Hl7Mapper.PatientIgnoresLaterSegments | emr-server/src/mapping/mapper.ts:70-86 | segments appended after a PID never change the Patient |
| Hl7Mapper.PatientWithoutPid | emr-server/src/mapping/mapper.ts:70-86 | without a PID segment every Patient value is absent |
| Hl7Mapper.PatientReadsFirstPid | emr-server/src/mapping/mapper.ts:70-86 | the Patient carries raw PID-3, components 1 and 2 of PID-5, the transformed PID-8 and PID-7, all of the first PID |
| Hl7Mapper.CoverageReadsFirstIn1 | emr-server/src/mapping/mapper.ts:88-96 | the Coverage identifier value is IN1-2 of the first IN1 |
| Hl7Mapper.Hl7DateToFhirDate | emr-server/src/mapping/mapper.ts:112-115 | absent exactly for an absent or empty input; the length is min(n, 8) + 2; for n ≥ 8 it is `YYYY-MM-DD` with dashes at 4 and 7 and the three parts copied |
| Hl7Mapper.DateKeepsFirstEightCharacters | emr-server/src/mapping/mapper.ts:112-115 | for any non-empty input, without digit checks, dropping the two dashes gives back the first eight characters |
| Hl7Mapper.UpperIsSingleLetter | emr-server/src/mapping/mapper.ts:122 | a string upper-cases to one capital letter exactly when it is that letter in either case |
| Hl7Mapper.Hl7GenderToFhirGender | emr-server/src/mapping/mapper.ts:120-130 | absent exactly for an absent or empty input; otherwise `male`, `female` or `unknown`; `male` exactly for M or m, `female` exactly for F or f |
| Hl7Sync.OrEmpty | integration-service/src/routes/sync.ts:31 | defaulting a value to `''` gives the value when there is one and the empty string when it is absent |
| Hl7Sync.Truthy | integration-service/src/routes/sync.ts:25 | `!!body.mrn` is true exactly when the MRN, with an absent one read as empty, is not empty |
| Hl7Sync.ChooseEvent | integration-service/src/routes/sync.ts:25-26 | `ADT^A08` exactly when the MRN is truthy, `ADT^A04` otherwise |
| Hl7Sync.NormalizeDob | integration-service/src/routes/sync.ts:28 | only digits, no longer than the input, and empty for a missing date of birth |
| Hl7Sync.NormalizeDobKeepsDigits | integration-service/src/routes/sync.ts:28 | every digit is kept as often as it occurs in the date of birth |
| Hl7Sync.NormalizeDobKeepsOrder | integration-service/src/routes/sync.ts:28 | the normalisation distributes over concatenation, so the digits keep their order |
| Hl7Sync.NormalizeSex | integration-service/src/routes/sync.ts:29 | always M, F or U; M exactly when the gender starts with M or m; F exactly when it starts with F or f |
| Hl7Sync.MshFields | integration-service/src/routes/sync.ts:30 | the 12 MSH fields: tag, the MSH-2 value, INTEGRATION, TITAN, EMR, MEDPLUM, the timestamp, an empty field, the event, `MSG<ts>`, `P` and `2.5` |
| Hl7Sync.PidFields | integration-service/src/routes/sync.ts:31 | the 9 PID fields: `mrn^^^MRN` at 3, `last^first` at 5, the date of birth at 7, the sex code at 8, the others empty |
| Hl7Sync.In1Fields | integration-service/src/routes/sync.ts:33 | the 37 IN1 fields: set id `1`, the insurance name at 2, the group number at 9, the plan at 19, the member id at 36, every other field empty |
| Hl7Sync.InsuranceOf | integration-service/src/routes/sync.ts:32 | the body's insurance object, or one with no properties when it is missing |
| Hl7Sync.BuildMessage | integration-service/src/routes/sync.ts:30-34 | the message sent opens with `MSH`, the field separator, the three characters `^~&` and the field separator, for every body and timestamp |
| Hl7Sync.CorrectedMessage | integration-service/src/routes/sync.ts:30-34 | the corrected message opens with `MSH`, the field separator, the four characters `^~\&` and the field separator |
| Hl7Sync.MshSegment | integration-service/src/routes/sync.ts:30 | the MSH line opens with the tag, the field separator, MSH-2 and the field separator |
| Hl7Sync.PidSegment | integration-service/src/routes/sync.ts:31 | the PID line opens with the tag and an empty PID-1 |
| Hl7Sync.In1Segment | integration-service/src/routes/sync.ts:33 | the IN1 line opens with the tag and set id `1` |
| Hl7Sync.BuildMessageWith | integration-service/src/routes/sync.ts:34 | the CR-joined message opens the way its MSH line does, whatever the body |
| Hl7Sync.MshFieldPositions | integration-service/src/routes/sync.ts:30 | for any MSH-2 without the field separator, the MSH line splits back into its 12 fields: MSH-2 at 1, timestamp at 6, event at 8, `MSG<ts>` at 9, version `2.5` last |
| Hl7Sync.MshEncodingCharacters | integration-service/src/routes/sync.ts:30 | with the HL7 v2.5 value, MSH-2 reads back as the four encoding characters `^~\&` |
| Hl7Sync.MshEncodingCharactersAsWritten | integration-service/src/routes/sync.ts:30 | the MSH line sent reads back `^~&` as MSH-2, which differs from the HL7 v2.5 value |
| Hl7Sync.PidFieldPositions | integration-service/src/routes/sync.ts:31 | the PID line splits into 9 fields: `mrn^^^MRN` at 3, `last^first` at 5, date of birth at 7, sex at 8 |
| Hl7Sync.In1FieldPositions | integration-service/src/routes/sync.ts:32-33 | the IN1 line splits into 37 fields: name at 2, group number at 9, plan at 19, member id last at 36 |
| Hl7Sync.In1FieldsAvoid | integration-service/src/routes/sync.ts:33 | a character absent from the insurance values and from `IN1` and `1` is in no IN1 field |
| RoundTrip.SplitMessage | integration-service/src/routes/sync.ts:34 | one segment per CR-separated line, each split into fields on the field separator |
| RoundTrip.GenderOfSexCode | emr-server/src/mapping/mapper.ts:120-130 | the sex codes M, F and U map to `male`, `female` and `unknown` |
| RoundTrip.SexCodeHasNoSeparator | integration-service/src/routes/sync.ts:29 | the sex code holds no character other than M, F and U |
| RoundTrip.DobHasNoSeparator | integration-service/src/routes/sync.ts:28 | the normalised date of birth holds no non-digit |
| RoundTrip.EventHasNoSeparator | integration-service/src/routes/sync.ts:26 | the event holds only capital letters, digits and `^` |
| RoundTrip.MshSegmentHasNoBreak | integration-service/src/routes/sync.ts:30 | the MSH line holds no CR when MSH-2, the timestamp and the event hold none |
| RoundTrip.PidSegmentHasNoBreak | integration-service/src/routes/sync.ts:31 | the PID line holds no CR when the user values hold none |
| RoundTrip.In1SegmentHasNoBreak | integration-service/src/routes/sync.ts:32-33 | the IN1 line holds no CR when the insurance values hold none |
| RoundTrip.BuiltSegments | integration-service/src/routes/sync.ts:30-34 | for any MSH-2 without the field separator and CR, the message is exactly three lines, MSH, PID and IN1, in that order |
| RoundTrip.TagsOfThreeLines | integration-service/src/routes/sync.ts:34 | a three-line text whose lines start with MSH, PID and IN1 splits into three segments with exactly that tag set |
| RoundTrip.LineTags | integration-service/src/routes/sync.ts:30-33 | each built line splits into fields that start with its tag, whatever MSH-2 and the values hold |
| RoundTrip.LineFields | integration-service/src/routes/sync.ts:30-33 | with MSH-2 and values free of the field separator each built line splits back into its field list |
| RoundTrip.BuiltMessageTags | integration-service/src/routes/sync.ts:30-34 | for any MSH-2 without the field separator and CR, the split message has three segments tagged MSH, PID, IN1, and its tag set is exactly those three |
| RoundTrip.BuiltMessageFields | integration-service/src/routes/sync.ts:30-34 | for any MSH-2 without the field separator and CR, and values free of CR and of the field and component separators, the split message is exactly the three field lists |
| RoundTrip.SentDiffersOnlyInMsh2 | integration-service/src/routes/sync.ts:30-34 | the message sent and the corrected one split into the same segments and fields except MSH-2, which is `^~&` in one and `^~\&` in the other |
| RoundTrip.BuiltFirstLine | integration-service/src/routes/sync.ts:34 | the first CR-separated line is the MSH line, whatever the PID and IN1 values hold |
| RoundTrip.BuiltMessageHead | integration-service/src/routes/sync.ts:30 | for any MSH-2 without the field separator and CR, the first split segment is the MSH field list with the event at index 8, whatever the PID and IN1 values hold |
| RoundTrip.TypeOfLeadingMsh | emr-server/src/mapping/mapper.ts:36-42 | a leading MSH holding a supported event at index 8 gives that event as the type |
| RoundTrip.BuiltMessageType | integration-service/src/routes/sync.ts:26-30 | for any MSH-2 without the field separator and CR, the message type computed from the split message is the chosen event, so MSH-9 sits at index 8 in the message sent and in the corrected one |
| RoundTrip.MessageTypeRoundTrip | integration-service/src/routes/sync.ts:26-30 | the type the receiver computes for the message sent is the event the sender chose, whatever the user values hold |
| RoundTrip.ValidationOfBuiltShape | emr-server/src/mapping/mapper.ts:44-57 | a supported message with tags MSH, PID and IN1 keeps its type, is valid exactly when its schema requires only those tags and then has no errors, and otherwise has one error naming a required tag other than those three |
| RoundTrip.ValidationOfChosenEvent | emr-server/src/mapping/mapper.ts:44-57 | the same, with the schema chosen by whether the MRN is truthy |
| RoundTrip.ValidationRoundTrip | integration-service/src/routes/sync.ts:25-34 | the message sent is valid exactly when the schema of the chosen event requires nothing beyond MSH, PID and IN1; otherwise its one error names a required tag other than those three |
| RoundTrip.A04OfBuiltShape | emr-server/src/mapping/mapper.ts:44-57 | an `ADT^A04` with tags MSH, PID and IN1 is valid with no errors under every schema the tests allow |
| RoundTrip.NewPatientIsValid | integration-service/src/routes/sync.ts:25-34 | the message sent for a body without an MRN is a valid `ADT^A04` with no errors, for every schema the tests allow |
| RoundTrip.NameComponents | emr-server/src/mapping/mapper.ts:80-81 | `last^first` splits back into family `last` and given `first` |
| RoundTrip.MapOfBuiltShape | emr-server/src/mapping/mapper.ts:69-107 | for an MSH, PID, IN1 message the Patient comes from the PID fields, the Coverage from IN1-2, and there are no Observations |
| RoundTrip.MapOfBuiltFields | emr-server/src/mapping/mapper.ts:69-107 | behind any MSH, the builder's PID and IN1 field lists map to the sent identifier, name, gender, birth date and insurance name, with no Observations |
| RoundTrip.MappingRoundTrip | integration-service/src/routes/sync.ts:31-33 | for the message sent, the mapped Patient has identifier `mrn^^^MRN`, family and given name as sent, gender `male`/`female`/`unknown` following the sex code, and the birth date from the digits; the Coverage value is the insurance name; there are no Observations |
| RoundTrip.DigitsOfFhirDate | integration-service/src/routes/sync.ts:28 | stripping a `YYYY-MM-DD` date leaves `YYYYMMDD` |
| RoundTrip.FhirDateRoundTrip | emr-server/src/mapping/mapper.ts:112-115 | reformatting the stripped digits of a `YYYY-MM-DD` date gives back that date |
| RoundTrip.BuiltPidFields | integration-service/src/routes/sync.ts:31-34 | when no value holds a CR and the MRN and names hold no field separator, the second split segment is the PID field list, behind an MSH segment, whatever the IN1 values hold |
| RoundTrip.BirthDateOfPidFields | emr-server/src/mapping/mapper.ts:85 | behind an MSH segment, the builder's PID fields for a `YYYY-MM-DD` date of birth map to that birth date |
| RoundTrip.BirthDateRoundTrip | integration-service/src/routes/sync.ts:28 | a body whose date of birth is `YYYY-MM-DD` is mapped back to a Patient with that birth date, when no value holds a CR and the MRN and names hold no field separator |

## Left out

- `emr-server/src/routes/hl7Inbound.ts`, `medplum.ts`, both `medplumClient.ts`, `auth.ts`, `logger.ts` and both `index.ts`: Express routing, HTTP clients, JWT handling, logging and app wiring. They are I/O around the core.
- `parseMessage`, `buildBundle` and `toOperationOutcome` are imported from `mapper.ts` but are not defined there, so they are not part of this model. `SplitMessage` is defined only to state the round trips.
- Ajv and the schema files `ADT_A04.json` and `ADT_A08.json` are not part of this model. Each schema is reduced to its `required` tag list. Ajv's error objects are reduced to the name of the missing property. Ajv's `null` after a passing check is the empty list.
- `logger.error` on an invalid message (mapper.ts:59-61) is logging, so it is left out.
- The clocks are parameters. The readings of `new Date().toISOString()` at mapper.ts:103 are a function `clock` from the position of the OBX segment to a string. The model does not constrain those readings to be ISO 8601 times, nor to be increasing. The timestamp built at sync.ts:27 is `ts`.
- `process.env.MRN_SYSTEM` is a parameter of `MrnSystem`, and `MapToFhir` takes the resulting system as an argument.
- The `token()` helper, the axios post of the message, and the response and error handling of the `/patient` handler (sync.ts:12-23 and 35-45) are network I/O.
- The assertions in `mapper.test.ts` and `validation.test.js` read the fixture `sample-a04.hl7`, which is not part of this model.
- `resourceType` strings are represented by the datatype names `Patient`, `Coverage` and `Observation`. `code: { text }` is flattened to `codeText`.
- JSON body values are modelled as absent or a string. Numbers, objects and other JavaScript values in the body are not modelled.
- A segment whose tag is `__proto__`, or a similar special property name, is not modelled. Such an object key does not behave like an ordinary key in JavaScript.
- Hl7GenderToFhirGender and NormalizeSex: upper-casing is ASCII-only. Unicode case mappings that turn a non-ASCII letter into `M` or `F` are not captured.
- Hl7Mapper.ValidateMessage: the case where `msgType` is a supported type is stated through the schema's required list only. Any other constraint a schema file may carry is not part of this model.
- The message-type round trip (`BuiltMessageType`, `MessageTypeRoundTrip`) holds whatever the user values hold.
- RoundTrip.ValidationRoundTrip and RoundTrip.NewPatientIsValid: need the user values to hold no CR, because a CR in a value starts a new segment whose tag comes from the user. The model states no verdict for such a message.
- RoundTrip.MappingRoundTrip: also needs no `|` or `^` in the user values. With such characters the source produces a message with shifted fields, and the model states no property of what is mapped from it.
- RoundTrip.BirthDateRoundTrip: needs no CR in any value and no `|` in the MRN and the names, the only values written before PID-7. A `^` anywhere and a `|` in the insurance values leave the birth date in place.
- Every round-trip lemma needs the timestamp to hold no CR and no `|`. The handler builds it from the digits of an ISO date, so it holds neither, but the model does not derive `ts` from a clock.
- Hl7Mapper.Hl7DateToFhirDate and Text.Substring: strings are modelled as sequences of code points (Unicode scalar values), while JavaScript's `substring` counts UTF-16 code units. For characters outside the Basic Multilingual Plane the positions, and the length `min(n, 8) + 2`, differ from the source: four U+1F600 characters are eight code units to JavaScript and four characters here. Splitting on `|`, `^` and CR, `Digits` and `StartsWith` are unaffected, because their separators and digits are single code units that never occur inside a surrogate pair.
- Hl7Sync.MshSegment, Hl7Sync.PidSegment and Hl7Sync.In1Segment: their own contracts state only how each line opens. The full field layout of each template is stated by `MshFieldPositions`, `PidFieldPositions` and `In1FieldPositions`, which split the line back into the field lists `MshFields`, `PidFields` and `In1Fields`.
- Hl7Sync.BuildMessageWith: its own contract states only how the message opens. The three-line layout is stated by `BuiltSegments`, `BuiltMessageTags` and `BuiltMessageFields`, which need the values to hold no CR.
- Hl7Mapper.Observations: the clock readings are indexed by the position of the OBX among all OBX segments. The source takes a reading only for an OBX without a usable OBX-14, so the model has readings the source never takes, and those are unused. The time between readings is not modelled.

## Findings

| source | as written | input that shows it | evidently intended | confidence | as-written member | corrected member |
|---|---|---|---|---|---|---|
| integration-service/src/routes/sync.ts:30 | the template literal `` `MSH\|^~\&\|...` `` evaluates `\&` to `&`, so MSH-2 is the three characters `^~&` | any body and timestamp, for example `ts = "20250101123000"`: MSH-2 is `^~&` | MSH-2 holds the four HL7 v2.5 encoding characters `^~\&` (component, repetition, escape, subcomponent) | not executed | Hl7Sync.MshEncodingCharactersAsWritten | Hl7Sync.MshEncodingCharacters |

`BuildMessage` models the code as written, and the round-trip lemmas are about that message. `CorrectedMessage` carries the intended MSH-2. `BuiltMessageType` and `BuiltMessageFields` are proved for both, and `SentDiffersOnlyInMsh2` shows that the finding changes no field but MSH-2.
