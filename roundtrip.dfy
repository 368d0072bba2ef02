/** What the receiving side makes of the message the sending side builds.
    The mapper works on an already-split message; `SplitMessage` is the naive
    split on CR and then on `|` under which HL7 array index 8 of MSH is MSH-9. */
module RoundTrip {
  import opened Text
  import opened Hl7Mapper
  import opened Hl7Sync

  /** Segments on CR, fields on `|`. */
  function SplitMessage(text: string): (m: Message)
    ensures |m| == |Split(text, '\r')|
    ensures forall k :: 0 <= k < |m| ==> m[k] == Split(Split(text, '\r')[k], '|')
  {
    var lines := Split(text, '\r');
    seq(|lines|, k requires 0 <= k < |lines| => Split(lines[k], '|'))
  }

  /** No user value can end a segment early. */
  predicate NoSegmentBreak(body: PatientBody)
  {
    var ins := InsuranceOf(body);
    && '\r' !in OrEmpty(body.mrn) && '\r' !in OrEmpty(body.lastName) && '\r' !in OrEmpty(body.firstName)
    && '\r' !in OrEmpty(ins.name) && '\r' !in OrEmpty(ins.groupNumber)
    && '\r' !in OrEmpty(ins.plan) && '\r' !in OrEmpty(ins.memberID)
  }

  /** An MSH-2 value that neither ends the MSH segment nor splits field 2:
      both the value sent and the HL7 v2.5 value are such values. */
  predicate FieldValue(enc: string)
  {
    '|' !in enc && '\r' !in enc
  }

  /** A value that holds no segment, field or component separator. */
  predicate Plain(s: string)
  {
    '\r' !in s && '|' !in s && '^' !in s
  }

  predicate PlainBody(body: PatientBody)
  {
    var ins := InsuranceOf(body);
    && Plain(OrEmpty(body.mrn)) && Plain(OrEmpty(body.lastName)) && Plain(OrEmpty(body.firstName))
    && Plain(OrEmpty(ins.name)) && Plain(OrEmpty(ins.groupNumber))
    && Plain(OrEmpty(ins.plan)) && Plain(OrEmpty(ins.memberID))
  }

  /** The code `mapToFhir` produces for each of the builder's sex codes. */
  function GenderForSex(sex: string): string
  {
    if sex == "M" then "male" else if sex == "F" then "female" else "unknown"
  }

  /** The receiver's gender for each of the builder's sex codes. */
  lemma {:induction false} GenderOfSexCode(sex: string)
    requires sex == "M" || sex == "F" || sex == "U"
    ensures Hl7GenderToFhirGender(Some(sex)) == Some(GenderForSex(sex))
  {
    if sex == "U" {
      assert Upper(sex) == "U";
    }
  }

  lemma {:induction false} SexCodeHasNoSeparator(body: PatientBody, c: char)
    requires c != 'M' && c != 'F' && c != 'U'
    ensures c !in NormalizeSex(body.gender)
  {
  }

  lemma {:induction false} DobHasNoSeparator(body: PatientBody, c: char)
    requires !IsDigit(c)
    ensures c !in NormalizeDob(body.dob)
  {
    var d := NormalizeDob(body.dob);
    assert forall i :: 0 <= i < |d| ==> d[i] != c;
  }

  /** The event holds only capital letters, digits and `^`. */
  lemma {:induction false} EventHasNoSeparator(body: PatientBody, c: char)
    requires !('A' <= c <= 'Z') && !IsDigit(c) && c != '^'
    ensures c !in ChooseEvent(body)
  {
    var e := ChooseEvent(body);
    assert forall i :: 0 <= i < |e| ==> ('A' <= e[i] <= 'Z') || IsDigit(e[i]) || e[i] == '^';
  }

  lemma {:induction false} MshSegmentHasNoBreak(enc: string, ts: string, event: string)
    requires '\r' !in enc && '\r' !in ts && '\r' !in event
    ensures '\r' !in MshSegment(enc, ts, event)
  {
    var msh := MshFields(enc, ts, event);
    assert '\r' !in "MSG" + ts;
    assert forall i :: 0 <= i < |msh| ==> '\r' !in msh[i];
    JoinAvoids(msh, '|', '\r');
  }

  lemma {:induction false} PidSegmentHasNoBreak(body: PatientBody)
    requires NoSegmentBreak(body)
    ensures '\r' !in PidSegment(body, NormalizeDob(body.dob), NormalizeSex(body.gender))
  {
    DobHasNoSeparator(body, '\r');
    SexCodeHasNoSeparator(body, '\r');
    var pid := PidFields(body, NormalizeDob(body.dob), NormalizeSex(body.gender));
    assert '\r' !in OrEmpty(body.mrn) + "^^^MRN";
    assert '\r' !in OrEmpty(body.lastName) + "^" + OrEmpty(body.firstName);
    assert forall i :: 0 <= i < |pid| ==> '\r' !in pid[i];
    JoinAvoids(pid, '|', '\r');
  }

  lemma {:induction false} In1SegmentHasNoBreak(body: PatientBody)
    requires NoSegmentBreak(body)
    ensures '\r' !in In1Segment(InsuranceOf(body))
  {
    In1FieldsAvoid(InsuranceOf(body), '\r');
    JoinAvoids(In1Fields(InsuranceOf(body)), '|', '\r');
  }

  /** The built text is exactly three segments, MSH, PID and IN1 in that order. */
  lemma {:induction false} BuiltSegments(enc: string, body: PatientBody, ts: string)
    requires FieldValue(enc) && NoSegmentBreak(body) && '\r' !in ts
    ensures Split(BuildMessageWith(enc, body, ts), '\r')
         == [MshSegment(enc, ts, ChooseEvent(body)),
             PidSegment(body, NormalizeDob(body.dob), NormalizeSex(body.gender)),
             In1Segment(InsuranceOf(body))]
  {
    var msh := MshSegment(enc, ts, ChooseEvent(body));
    var pid := PidSegment(body, NormalizeDob(body.dob), NormalizeSex(body.gender));
    var in1 := In1Segment(InsuranceOf(body));
    EventHasNoSeparator(body, '\r');
    MshSegmentHasNoBreak(enc, ts, ChooseEvent(body));
    PidSegmentHasNoBreak(body);
    In1SegmentHasNoBreak(body);
    assert BuildMessageWith(enc, body, ts) == Join([msh, pid, in1], '\r');
    JoinThreeLines(msh, pid, in1);
  }

  lemma {:induction false} JoinThreeLines(a: string, b: string, c: string)
    requires '\r' !in a && '\r' !in b && '\r' !in c
    ensures Split(Join([a, b, c], '\r'), '\r') == [a, b, c]
  {
    SplitJoin([a, b, c], '\r');
  }

  /** A text of three CR-separated lines splits into their three field lists. */
  lemma {:induction false} SplitThreeLines(text: string, a: string, b: string, c: string)
    requires Split(text, '\r') == [a, b, c]
    ensures SplitMessage(text) == [Split(a, '|'), Split(b, '|'), Split(c, '|')]
  {
    var m := SplitMessage(text);
    assert |m| == 3;
    assert m[0] == Split(a, '|') && m[1] == Split(b, '|') && m[2] == Split(c, '|');
  }

  lemma {:induction false} TagSetOfThree(m: Message)
    requires |m| == 3
    ensures TagSet(m) == {TagKey(m[0]), TagKey(m[1]), TagKey(m[2])}
  {
  }

  /** Each built line splits into fields that start with its tag. */
  lemma {:induction false} LineTags(enc: string, body: PatientBody, ts: string)
    ensures HasTag(Split(MshSegment(enc, ts, ChooseEvent(body)), '|'), "MSH")
    ensures HasTag(Split(PidSegment(body, NormalizeDob(body.dob), NormalizeSex(body.gender)), '|'), "PID")
    ensures HasTag(Split(In1Segment(InsuranceOf(body)), '|'), "IN1")
  {
    SplitJoinHead(MshFields(enc, ts, ChooseEvent(body)), '|');
    SplitJoinHead(PidFields(body, NormalizeDob(body.dob), NormalizeSex(body.gender)), '|');
    SplitJoinHead(In1Fields(InsuranceOf(body)), '|');
  }

  /** A three-line text whose lines carry the tags MSH, PID and IN1. */
  lemma {:induction false} TagsOfThreeLines(text: string, a: string, b: string, c: string)
    requires Split(text, '\r') == [a, b, c]
    requires HasTag(Split(a, '|'), "MSH") && HasTag(Split(b, '|'), "PID") && HasTag(Split(c, '|'), "IN1")
    ensures var m := SplitMessage(text);
            && |m| == 3 && HasTag(m[0], "MSH") && HasTag(m[1], "PID") && HasTag(m[2], "IN1")
            && TagSet(m) == {"MSH", "PID", "IN1"}
  {
    SplitThreeLines(text, a, b, c);
    TagSetOfThree(SplitMessage(text));
  }

  /** The three segments' tags, whatever the field values hold besides CR. */
  lemma {:induction false} BuiltMessageTags(enc: string, body: PatientBody, ts: string)
    requires FieldValue(enc) && NoSegmentBreak(body) && '\r' !in ts
    ensures var m := SplitMessage(BuildMessageWith(enc, body, ts));
            && |m| == 3 && HasTag(m[0], "MSH") && HasTag(m[1], "PID") && HasTag(m[2], "IN1")
            && TagSet(m) == {"MSH", "PID", "IN1"}
  {
    BuiltSegments(enc, body, ts);
    LineTags(enc, body, ts);
    TagsOfThreeLines(BuildMessageWith(enc, body, ts), MshSegment(enc, ts, ChooseEvent(body)),
                     PidSegment(body, NormalizeDob(body.dob), NormalizeSex(body.gender)),
                     In1Segment(InsuranceOf(body)));
  }

  /** With plain values each built line splits back into its field list. */
  lemma {:induction false} LineFields(enc: string, body: PatientBody, ts: string)
    requires FieldValue(enc) && PlainBody(body) && '|' !in ts
    ensures Split(MshSegment(enc, ts, ChooseEvent(body)), '|') == MshFields(enc, ts, ChooseEvent(body))
    ensures Split(PidSegment(body, NormalizeDob(body.dob), NormalizeSex(body.gender)), '|')
         == PidFields(body, NormalizeDob(body.dob), NormalizeSex(body.gender))
    ensures Split(In1Segment(InsuranceOf(body)), '|') == In1Fields(InsuranceOf(body))
  {
    MshFieldPositions(enc, ts, ChooseEvent(body));
    DobHasNoSeparator(body, '|');
    SexCodeHasNoSeparator(body, '|');
    PidFieldPositions(body, NormalizeDob(body.dob), NormalizeSex(body.gender));
    In1FieldPositions(InsuranceOf(body));
  }

  /** With plain values the split message is the builder's field lists. */
  lemma {:induction false} BuiltMessageFields(enc: string, body: PatientBody, ts: string)
    requires FieldValue(enc) && PlainBody(body) && '\r' !in ts && '|' !in ts
    ensures SplitMessage(BuildMessageWith(enc, body, ts))
         == [MshFields(enc, ts, ChooseEvent(body)),
             PidFields(body, NormalizeDob(body.dob), NormalizeSex(body.gender)),
             In1Fields(InsuranceOf(body))]
  {
    BuiltSegments(enc, body, ts);
    LineFields(enc, body, ts);
    SplitThreeLines(BuildMessageWith(enc, body, ts), MshSegment(enc, ts, ChooseEvent(body)),
                    PidSegment(body, NormalizeDob(body.dob), NormalizeSex(body.gender)),
                    In1Segment(InsuranceOf(body)));
  }

  /** The message sent and the message with the HL7 v2.5 encoding characters
      split into the same segments and fields, except for MSH-2. */
  lemma {:induction false} SentDiffersOnlyInMsh2(body: PatientBody, ts: string)
    requires PlainBody(body) && '\r' !in ts && '|' !in ts
    ensures var sent, corrected := SplitMessage(BuildMessage(body, ts)), SplitMessage(CorrectedMessage(body, ts));
            && |sent| == 3 && |corrected| == 3 && sent[1..] == corrected[1..]
            && |corrected[0]| > 1 && corrected[0][1] == Hl7Encoding
            && sent[0] == corrected[0][1 := SentEncoding]
  {
    BuiltMessageFields(SentEncoding, body, ts);
    BuiltMessageFields(Hl7Encoding, body, ts);
    FieldListsDifferInMsh2(SentEncoding, Hl7Encoding, body, ts);
  }

  lemma {:induction false} FieldListsDifferInMsh2(e1: string, e2: string, body: PatientBody, ts: string)
    ensures var pid, in1 := PidFields(body, NormalizeDob(body.dob), NormalizeSex(body.gender)), In1Fields(InsuranceOf(body));
            var l1, l2 := [MshFields(e1, ts, ChooseEvent(body)), pid, in1], [MshFields(e2, ts, ChooseEvent(body)), pid, in1];
            && l1[1..] == l2[1..] && |l2[0]| > 1 && l2[0][1] == e2 && l1[0] == l2[0][1 := e1]
  {
    var event := ChooseEvent(body);
    assert MshFields(e1, ts, event) == MshFields(e2, ts, event)[1 := e1];
  }

  /** The first CR-separated line of the text is the MSH line, whatever the
      PID and IN1 values hold. */
  lemma {:induction false} BuiltFirstLine(enc: string, body: PatientBody, ts: string)
    requires FieldValue(enc) && '\r' !in ts
    ensures Split(BuildMessageWith(enc, body, ts), '\r')[0] == MshSegment(enc, ts, ChooseEvent(body))
  {
    EventHasNoSeparator(body, '\r');
    MshSegmentHasNoBreak(enc, ts, ChooseEvent(body));
    SplitJoinHead([MshSegment(enc, ts, ChooseEvent(body)),
                   PidSegment(body, NormalizeDob(body.dob), NormalizeSex(body.gender)),
                   In1Segment(InsuranceOf(body))], '\r');
  }

  /** The first split segment is the MSH field list, whatever the PID and IN1
      values hold. */
  lemma {:induction false} BuiltMessageHead(enc: string, body: PatientBody, ts: string)
    requires FieldValue(enc) && '\r' !in ts && '|' !in ts
    ensures var m := SplitMessage(BuildMessageWith(enc, body, ts));
            && |m| >= 1 && m[0] == MshFields(enc, ts, ChooseEvent(body))
            && HasTag(m[0], "MSH") && |m[0]| > 8 && m[0][8] == ChooseEvent(body)
  {
    BuiltFirstLine(enc, body, ts);
    FirstSegment(BuildMessageWith(enc, body, ts), MshSegment(enc, ts, ChooseEvent(body)));
    MshFieldPositions(enc, ts, ChooseEvent(body));
  }

  /** The first split segment is the first line split into fields. */
  lemma {:induction false} FirstSegment(text: string, line: string)
    requires Split(text, '\r')[0] == line
    ensures var m := SplitMessage(text); |m| >= 1 && m[0] == Split(line, '|')
  {
  }

  /** A message whose first segment is MSH with a supported event at index 8
      has that event as its type. */
  lemma {:induction false} TypeOfLeadingMsh(m: Message, event: string)
    requires |m| >= 1 && HasTag(m[0], "MSH") && |m[0]| > 8 && m[0][8] == event
    requires event == "ADT^A04" || event == "ADT^A08"
    ensures MessageType(m) == event
  {
    assert FindSegment(m, "MSH") == Some(0);
    if event == "ADT^A04" {
      assert event == "ADT" + "^" + "A04" + "";
      MessageTypeOfComponents(m, "ADT", "A04", "");
    } else {
      assert event == "ADT" + "^" + "A08" + "";
      MessageTypeOfComponents(m, "ADT", "A08", "");
    }
  }

  /** The message type the receiver computes is the event the sender chose,
      for any MSH-2 and whatever the PID and IN1 values hold. */
  lemma {:induction false} BuiltMessageType(enc: string, body: PatientBody, ts: string)
    requires FieldValue(enc) && '\r' !in ts && '|' !in ts
    ensures MessageType(SplitMessage(BuildMessageWith(enc, body, ts))) == ChooseEvent(body)
  {
    BuiltMessageHead(enc, body, ts);
    TypeOfLeadingMsh(SplitMessage(BuildMessageWith(enc, body, ts)), ChooseEvent(body));
  }

  /** The receiver reads back the event the sender chose as the message type
      of the message the handler sends. */
  lemma {:induction false} MessageTypeRoundTrip(body: PatientBody, ts: string, schemas: Schemas)
    requires '\r' !in ts && '|' !in ts
    ensures ValidateMessage(SplitMessage(BuildMessage(body, ts)), schemas).msgType == ChooseEvent(body)
  {
    BuiltMessageType(SentEncoding, body, ts);
  }

  /** The verdict for a message of a supported type with the builder's tags. */
  lemma {:induction false} ValidationOfBuiltShape(m: Message, event: string, schemas: Schemas)
    requires MessageType(m) == event && (event == "ADT^A04" || event == "ADT^A08")
    requires TagSet(m) == {"MSH", "PID", "IN1"}
    ensures var v := ValidateMessage(m, schemas);
            var required := if event == "ADT^A08" then schemas.a08 else schemas.a04;
            && v.msgType == event
            && (v.valid <==> forall i :: 0 <= i < |required| ==> required[i] in {"MSH", "PID", "IN1"})
            && (v.valid ==> v.errors == [])
            && (!v.valid ==> |v.errors| == 1 && v.errors[0].MissingRequired?
                             && v.errors[0].property in required && v.errors[0].property !in {"MSH", "PID", "IN1"})
  {
    var v := ValidateMessage(m, schemas);
    if event == "ADT^A04" {
      assert v.msgType == "ADT^A04";
    } else {
      assert v.msgType == "ADT^A08";
    }
  }

  /** The built message passes validation exactly when the schema of its event
      requires nothing beyond MSH, PID and IN1; otherwise its one error names a
      required tag other than those three. */
  lemma {:induction false} ValidationRoundTrip(body: PatientBody, ts: string, schemas: Schemas)
    requires NoSegmentBreak(body) && '\r' !in ts && '|' !in ts
    ensures var v := ValidateMessage(SplitMessage(BuildMessage(body, ts)), schemas);
            var required := if Truthy(body.mrn) then schemas.a08 else schemas.a04;
            && (v.valid <==> forall i :: 0 <= i < |required| ==> required[i] in {"MSH", "PID", "IN1"})
            && (!v.valid ==> |v.errors| == 1 && v.errors[0].MissingRequired?
                             && v.errors[0].property in required && v.errors[0].property !in {"MSH", "PID", "IN1"})
  {
    BuiltMessageType(SentEncoding, body, ts);
    BuiltMessageTags(SentEncoding, body, ts);
    ValidationOfChosenEvent(SplitMessage(BuildMessage(body, ts)), body, schemas);
  }

  lemma {:induction false} ValidationOfChosenEvent(m: Message, body: PatientBody, schemas: Schemas)
    requires MessageType(m) == ChooseEvent(body) && TagSet(m) == {"MSH", "PID", "IN1"}
    ensures var v := ValidateMessage(m, schemas);
            var required := if Truthy(body.mrn) then schemas.a08 else schemas.a04;
            && (v.valid <==> forall i :: 0 <= i < |required| ==> required[i] in {"MSH", "PID", "IN1"})
            && (!v.valid ==> |v.errors| == 1 && v.errors[0].MissingRequired?
                             && v.errors[0].property in required && v.errors[0].property !in {"MSH", "PID", "IN1"})
  {
    ValidationOfBuiltShape(m, ChooseEvent(body), schemas);
  }

  /** A new patient's registration passes any A04 schema the tests allow. */
  lemma {:induction false} NewPatientIsValid(body: PatientBody, ts: string, schemas: Schemas)
    requires NoSegmentBreak(body) && '\r' !in ts && '|' !in ts
    requires !Truthy(body.mrn) && AgreesWithTests(schemas)
    ensures ValidateMessage(SplitMessage(BuildMessage(body, ts)), schemas)
         == Validation("ADT^A04", true, [])
  {
    BuiltMessageType(SentEncoding, body, ts);
    BuiltMessageTags(SentEncoding, body, ts);
    A04OfBuiltShape(SplitMessage(BuildMessage(body, ts)), schemas);
  }

  lemma {:induction false} A04OfBuiltShape(m: Message, schemas: Schemas)
    requires MessageType(m) == "ADT^A04" && TagSet(m) == {"MSH", "PID", "IN1"}
    requires AgreesWithTests(schemas)
    ensures ValidateMessage(m, schemas) == Validation("ADT^A04", true, [])
  {
    ValidationOfBuiltShape(m, "ADT^A04", schemas);
  }

  /** PID-5 as the builder writes it splits back into family and given name. */
  lemma {:induction false} NameComponents(last: string, first: string)
    requires '^' !in last && '^' !in first
    ensures Component(Some(last + "^" + first), 0) == Some(last)
    ensures Component(Some(last + "^" + first), 1) == Some(first)
  {
    assert last + "^" + first == last + ['^'] + first;
    SplitCons(last, first, '^');
    SplitNoSeparator(first, '^');
  }

  /** What mapToFhir reads from a message of the builder's shape. */
  lemma {:induction false} MapOfBuiltShape(msh: Segment, pid: Segment, in1: Segment, mrnSystem: string, clock: Clock)
    requires HasTag(msh, "MSH") && HasTag(pid, "PID") && HasTag(in1, "IN1")
    requires |pid| == 9 && |in1| >= 3
    ensures var r := MapToFhir([msh, pid, in1], mrnSystem, clock);
            && r.patient == Patient([Identifier(mrnSystem, Some(pid[3]))],
                                    [HumanName(Component(Some(pid[5]), 0), [Component(Some(pid[5]), 1)])],
                                    Hl7GenderToFhirGender(Some(pid[8])),
                                    Hl7DateToFhirDate(Some(pid[7])))
            && r.coverage == Coverage([Identifier("INSURANCE", Some(in1[2]))])
            && r.observations == []
  {
    var m := [msh, pid, in1];
    assert m[1..] == [pid, in1] && m[2..] == [in1];
    assert FindSegment(m, "PID") == Some(1);
    assert FindSegment(m[2..], "IN1") == Some(0);
    assert FindSegment(m[1..], "IN1") == Some(1);
    assert FindSegment(m, "IN1") == Some(2);
    assert SegmentsWithTag(m[2..], "OBX") == [];
    assert SegmentsWithTag(m[1..], "OBX") == [];
    assert SegmentsWithTag(m, "OBX") == [];
  }

  /** What the receiver maps from the builder's PID and IN1 field lists behind any MSH. */
  lemma {:induction false} MapOfBuiltFields(body: PatientBody, msh: Segment, mrnSystem: string, clock: Clock)
    requires PlainBody(body) && HasTag(msh, "MSH")
    ensures var r := MapToFhir([msh, PidFields(body, NormalizeDob(body.dob), NormalizeSex(body.gender)),
                                In1Fields(InsuranceOf(body))], mrnSystem, clock);
            && r.patient.identifier == [Identifier(mrnSystem, Some(OrEmpty(body.mrn) + "^^^MRN"))]
            && r.patient.name == [HumanName(Some(OrEmpty(body.lastName)), [Some(OrEmpty(body.firstName))])]
            && r.patient.gender == Some(GenderForSex(NormalizeSex(body.gender)))
            && r.patient.birthDate == Hl7DateToFhirDate(Some(NormalizeDob(body.dob)))
            && r.coverage.identifier == [Identifier("INSURANCE", Some(OrEmpty(InsuranceOf(body).name)))]
            && r.observations == []
  {
    var pid := PidFields(body, NormalizeDob(body.dob), NormalizeSex(body.gender));
    var in1 := In1Fields(InsuranceOf(body));
    MapOfBuiltShape(msh, pid, in1, mrnSystem, clock);
    NameComponents(OrEmpty(body.lastName), OrEmpty(body.firstName));
    GenderOfSexCode(NormalizeSex(body.gender));
  }

  /** The Patient, Coverage and Observations the receiver maps from the built message. */
  lemma {:induction false} MappingRoundTrip(body: PatientBody, ts: string, mrnSystem: string, clock: Clock)
    requires PlainBody(body) && '\r' !in ts && '|' !in ts
    ensures var r := MapToFhir(SplitMessage(BuildMessage(body, ts)), mrnSystem, clock);
            && r.patient.identifier == [Identifier(mrnSystem, Some(OrEmpty(body.mrn) + "^^^MRN"))]
            && r.patient.name == [HumanName(Some(OrEmpty(body.lastName)), [Some(OrEmpty(body.firstName))])]
            && r.patient.gender == Some(GenderForSex(NormalizeSex(body.gender)))
            && r.patient.birthDate == Hl7DateToFhirDate(Some(NormalizeDob(body.dob)))
            && r.coverage.identifier == [Identifier("INSURANCE", Some(OrEmpty(InsuranceOf(body).name)))]
            && r.observations == []
  {
    BuiltMessageFields(SentEncoding, body, ts);
    MapOfBuiltFields(body, MshFields(SentEncoding, ts, ChooseEvent(body)), mrnSystem, clock);
  }

  /** A date in FHIR form `YYYY-MM-DD`. */
  predicate IsFhirDate(d: string)
  {
    && |d| == 10 && d[4] == '-' && d[7] == '-'
    && forall i :: 0 <= i < 10 && i != 4 && i != 7 ==> IsDigit(d[i])
  }

  lemma {:induction false} DigitsOfFhirDate(d: string)
    requires IsFhirDate(d)
    ensures Digits(d) == d[..4] + d[5..7] + d[8..]
  {
    var y, mo, da := d[..4], d[5..7], d[8..];
    var t3 := "-" + da;
    var t2 := mo + t3;
    var t1 := "-" + t2;
    assert d == y + t1;
    assert Digits("-") == "";
    DigitsConcat("-", da);
    DigitsOfDigits(da);
    DigitsConcat(mo, t3);
    DigitsOfDigits(mo);
    DigitsConcat("-", t2);
    DigitsConcat(y, t1);
    DigitsOfDigits(y);
  }

  /** Stripping a FHIR date to its digits and reformatting it gives it back. */
  lemma {:induction false} FhirDateRoundTrip(d: string)
    requires IsFhirDate(d)
    ensures Hl7DateToFhirDate(Some(NormalizeDob(Some(d)))) == Some(d)
  {
    DigitsOfFhirDate(d);
    var s := Digits(d);
    assert NormalizeDob(Some(d)) == s;
    var r := Hl7DateToFhirDate(Some(s)).value;
    assert |s| == 8 && |r| == 10;
    assert s[..4] == d[..4] && s[4..6] == d[5..7] && s[6..8] == d[8..];
    forall i | 0 <= i < 10 ensures r[i] == d[i] {
      if i < 4 {
        assert r[i] == r[..4][i] == d[..4][i];
      } else if 4 < i < 7 {
        assert r[i] == r[5..7][i - 5] == d[5..7][i - 5];
      } else if 7 < i {
        assert r[i] == r[8..][i - 8] == d[8..][i - 8];
      }
    }
    assert r == d;
  }

  /** A body whose date of birth is a FHIR date comes back with that birth date.
      Only the values written before PID-7 must keep it in place: no CR
      anywhere, and no field separator in the MRN or the names. */
  lemma {:induction false} BirthDateRoundTrip(body: PatientBody, ts: string, mrnSystem: string, clock: Clock, d: string)
    requires NoSegmentBreak(body) && '\r' !in ts && '|' !in ts
    requires '|' !in OrEmpty(body.mrn) && '|' !in OrEmpty(body.lastName) && '|' !in OrEmpty(body.firstName)
    requires body.dob == Some(d) && IsFhirDate(d)
    ensures MapToFhir(SplitMessage(BuildMessage(body, ts)), mrnSystem, clock).patient.birthDate == Some(d)
  {
    BuiltPidFields(SentEncoding, body, ts);
    BirthDateOfPidFields(SplitMessage(BuildMessage(body, ts)), body, mrnSystem, clock, d);
  }

  /** A message whose PID segment follows an MSH segment and carries the
      builder's fields for a FHIR date of birth maps back to that date. */
  lemma {:induction false} BirthDateOfPidFields(m: Message, body: PatientBody, mrnSystem: string, clock: Clock, d: string)
    requires |m| >= 2 && HasTag(m[0], "MSH")
    requires m[1] == PidFields(body, NormalizeDob(body.dob), NormalizeSex(body.gender))
    requires body.dob == Some(d) && IsFhirDate(d)
    ensures MapToFhir(m, mrnSystem, clock).patient.birthDate == Some(d)
  {
    PatientReadsFirstPid(m, 1, mrnSystem, clock);
    FhirDateRoundTrip(d);
  }

  /** The second split segment of the message sent is the PID field list
      after an MSH segment, whatever the IN1 values hold. */
  lemma {:induction false} BuiltPidFields(enc: string, body: PatientBody, ts: string)
    requires FieldValue(enc) && NoSegmentBreak(body) && '\r' !in ts
    requires '|' !in OrEmpty(body.mrn) && '|' !in OrEmpty(body.lastName) && '|' !in OrEmpty(body.firstName)
    ensures var m := SplitMessage(BuildMessageWith(enc, body, ts));
            && |m| == 3 && HasTag(m[0], "MSH")
            && m[1] == PidFields(body, NormalizeDob(body.dob), NormalizeSex(body.gender))
  {
    var fields := PidFields(body, NormalizeDob(body.dob), NormalizeSex(body.gender));
    var msh := MshSegment(enc, ts, ChooseEvent(body));
    var pid := PidSegment(body, NormalizeDob(body.dob), NormalizeSex(body.gender));
    var in1 := In1Segment(InsuranceOf(body));
    BuiltSegments(enc, body, ts);
    LineTags(enc, body, ts);
    DobHasNoSeparator(body, '|');
    SexCodeHasNoSeparator(body, '|');
    PidFieldPositions(body, NormalizeDob(body.dob), NormalizeSex(body.gender));
    SecondSegment(BuildMessageWith(enc, body, ts), msh, pid, in1, fields);
  }

  /** A three-line text whose first line is tagged MSH and whose second line
      splits into `fields` has those fields as its second segment. */
  lemma {:induction false} SecondSegment(text: string, a: string, b: string, c: string, fields: Segment)
    requires Split(text, '\r') == [a, b, c]
    requires HasTag(Split(a, '|'), "MSH") && Split(b, '|') == fields
    ensures var m := SplitMessage(text); |m| == 3 && HasTag(m[0], "MSH") && m[1] == fields
  {
    SplitThreeLines(text, a, b, c);
  }
}
