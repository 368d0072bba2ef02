/** The sending side: the HL7 v2.5 ADT message that the `/patient` handler
    builds from a JSON patient body (integration-service/src/routes/sync.ts).
    Each segment template is a string literal with `|` between the fields, so
    it is written here as the `|`-join of its field list, position by position. */
module Hl7Sync {
  import opened Text

  datatype Insurance = Insurance(
    name: Option<string>,
    groupNumber: Option<string>,
    plan: Option<string>,
    memberID: Option<string>)

  /** The properties of the request body the handler reads; an absent
      property is `None`. */
  datatype PatientBody = PatientBody(
    mrn: Option<string>,
    lastName: Option<string>,
    firstName: Option<string>,
    dob: Option<string>,
    gender: Option<string>,
    insurance: Option<Insurance>)

  /** `body.insurance || {}` when there is no insurance. */
  const EmptyInsurance := Insurance(None, None, None, None)

  /** `v || ''`: the value when there is one, the empty string when it is absent. */
  function OrEmpty(v: Option<string>): (r: string)
    ensures v.Some? ==> r == v.value
    ensures v.None? ==> r == ""
  {
    if v.Some? then v.value else ""
  }

  /** `!!v`: a present, non-empty string, so exactly when `v || ''` is not empty. */
  predicate Truthy(v: Option<string>): (b: bool)
    ensures b <==> OrEmpty(v) != ""
  {
    v.Some? && v.value != ""
  }

  /** An update (A08) for a known patient, a registration (A04) otherwise. */
  function ChooseEvent(body: PatientBody): (event: string)
    ensures event == "ADT^A08" || event == "ADT^A04"
    ensures event == "ADT^A08" <==> Truthy(body.mrn)
  {
    if Truthy(body.mrn) then "ADT^A08" else "ADT^A04"
  }

  /** `(body.dob || '').replace(/[^0-9]/g, '')` */
  function NormalizeDob(dob: Option<string>): (r: string)
    ensures forall i :: 0 <= i < |r| ==> IsDigit(r[i])
    ensures dob.None? ==> r == ""
    ensures dob.Some? ==> |r| <= |dob.value|
  {
    Digits(OrEmpty(dob))
  }

  /** No digit of the date of birth is lost: each occurs as often as in the input. */
  lemma {:induction false} NormalizeDobKeepsDigits(dob: string, c: char)
    requires IsDigit(c)
    ensures multiset(NormalizeDob(Some(dob)))[c] == multiset(dob)[c]
  {
    DigitsKeepsEveryDigit(dob, c);
  }

  /** The normalisation works piece by piece, so the order of the digits is kept. */
  lemma {:induction false} NormalizeDobKeepsOrder(prefix: string, suffix: string)
    ensures NormalizeDob(Some(prefix + suffix)) == NormalizeDob(Some(prefix)) + NormalizeDob(Some(suffix))
  {
    DigitsConcat(prefix, suffix);
  }

  /** The administrative sex code: the first letter of the gender, case-insensitively,
      when it is M or F, and U otherwise (a missing gender included). */
  function NormalizeSex(gender: Option<string>): (r: string)
    ensures r == "M" || r == "F" || r == "U"
    ensures r == "M" <==> OrEmpty(gender) != "" && (gender.value[0] == 'M' || gender.value[0] == 'm')
    ensures r == "F" <==> OrEmpty(gender) != "" && (gender.value[0] == 'F' || gender.value[0] == 'f')
  {
    var g := Upper(OrEmpty(gender));
    assert g != "" ==> g[..1] == [g[0]];
    if StartsWith(g, "M") then "M"
    else if StartsWith(g, "F") then "F"
    else "U"
  }

  function Blanks(n: nat): seq<string>
  {
    seq(n, _ => "")
  }

  /** MSH-2 as the template of sync.ts:30 evaluates: `\&` in a JavaScript
      template literal is a plain `&`, so the escape character is lost. */
  const SentEncoding := "^~&"

  /** The four encoding characters of HL7 v2.5: component, repetition, escape, subcomponent. */
  const Hl7Encoding := "^~\\&"

  /** The MSH template, with MSH-2 (`enc`) as a parameter. Index k of the list
      is MSH-(k+1): the sending application at MSH-3, the date/time of the
      message at MSH-7, the message type at MSH-9, the control id at MSH-10,
      processing id `P` and version `2.5`. */
  function MshFields(enc: string, ts: string, event: string): (f: seq<string>)
    ensures |f| == 12 && f[0] == "MSH" && f[1] == enc
    ensures f[2] == "INTEGRATION" && f[3] == "TITAN" && f[4] == "EMR" && f[5] == "MEDPLUM"
    ensures f[6] == ts && f[7] == "" && f[8] == event && f[9] == "MSG" + ts
    ensures f[10] == "P" && f[11] == "2.5"
  {
    ["MSH", enc, "INTEGRATION", "TITAN", "EMR", "MEDPLUM", ts, "", event, "MSG" + ts, "P", "2.5"]
  }

  /** The PID template; index k of the list is PID-k. */
  function PidFields(body: PatientBody, dob: string, sex: string): (f: seq<string>)
    ensures |f| == 9 && f[0] == "PID"
    ensures f[3] == OrEmpty(body.mrn) + "^^^MRN"
    ensures f[5] == OrEmpty(body.lastName) + "^" + OrEmpty(body.firstName)
    ensures f[7] == dob && f[8] == sex
    ensures f[1] == "" && f[2] == "" && f[4] == "" && f[6] == ""
  {
    ["PID", "", "", OrEmpty(body.mrn) + "^^^MRN", "", OrEmpty(body.lastName) + "^" + OrEmpty(body.firstName),
     "", dob, sex]
  }

  /** The IN1 template; index k of the list is IN1-k: set id 1, the insurance
      name at IN1-2, the group number at IN1-9, the plan at IN1-19, the member
      id at IN1-36 and every other field empty. */
  function In1Fields(ins: Insurance): (f: seq<string>)
    ensures |f| == 37 && f[0] == "IN1" && f[1] == "1"
    ensures f[2] == OrEmpty(ins.name) && f[9] == OrEmpty(ins.groupNumber)
    ensures f[19] == OrEmpty(ins.plan) && f[36] == OrEmpty(ins.memberID)
    ensures forall i :: 3 <= i < 9 || 10 <= i < 19 || 20 <= i < 36 ==> f[i] == ""
  {
    var p1 := ["IN1", "1", OrEmpty(ins.name)] + Blanks(6);
    var p3 := p1 + [OrEmpty(ins.groupNumber)] + Blanks(9);
    var p5 := p3 + [OrEmpty(ins.plan)] + Blanks(16);
    var f := p5 + [OrEmpty(ins.memberID)];
    assert forall i :: 0 <= i < |p1| ==> f[i] == p1[i];
    assert forall i :: 0 <= i < |p3| ==> f[i] == p3[i];
    assert forall i :: 0 <= i < |p5| ==> f[i] == p5[i];
    f
  }

  /** The MSH template: its fields joined by `|`, opening with the tag and MSH-2. */
  function MshSegment(enc: string, ts: string, event: string): (line: string)
    ensures StartsWith(line, "MSH|" + enc + "|")
  {
    var f := MshFields(enc, ts, event);
    JoinOpening(f, '|');
    assert "MSH|" + enc + "|" == f[0] + ['|'] + f[1] + ['|'];
    Join(f, '|')
  }

  /** The PID template: its fields joined by `|`, opening with the tag and an empty PID-1. */
  function PidSegment(body: PatientBody, dob: string, sex: string): (line: string)
    ensures StartsWith(line, "PID||")
  {
    var f := PidFields(body, dob, sex);
    JoinOpening(f, '|');
    assert "PID||" == f[0] + ['|'] + f[1] + ['|'];
    Join(f, '|')
  }

  /** The IN1 template: its fields joined by `|`, opening with the tag and set id 1. */
  function In1Segment(ins: Insurance): (line: string)
    ensures StartsWith(line, "IN1|1|")
  {
    var f := In1Fields(ins);
    JoinOpening(f, '|');
    assert "IN1|1|" == f[0] + ['|'] + f[1] + ['|'];
    Join(f, '|')
  }

  /** `body.insurance || {}`: a missing insurance object reads as one with no properties. */
  function InsuranceOf(body: PatientBody): (ins: Insurance)
    ensures body.insurance.Some? ==> ins == body.insurance.value
    ensures body.insurance.None? ==>
              ins.name.None? && ins.groupNumber.None? && ins.plan.None? && ins.memberID.None?
  {
    if body.insurance.Some? then body.insurance.value else EmptyInsurance
  }

  /** The three segments joined by CR, with MSH-2 `enc`; `ts` is the timestamp
      the handler derives from the clock (`yyyyMMddHHmmss`). Whatever the body,
      the text opens the way its MSH line does. */
  function BuildMessageWith(enc: string, body: PatientBody, ts: string): (text: string)
    ensures StartsWith(text, "MSH|" + enc + "|")
  {
    var msh := MshSegment(enc, ts, ChooseEvent(body));
    var pid := PidSegment(body, NormalizeDob(body.dob), NormalizeSex(body.gender));
    var in1 := In1Segment(InsuranceOf(body));
    JoinKeepsPrefix([msh, pid, in1], '\r', "MSH|" + enc + "|");
    Join([msh, pid, in1], '\r')
  }

  /** The message the handler posts to the EMR: it opens with the MSH tag,
      the field separator and the three characters `^~&` as MSH-2. */
  function BuildMessage(body: PatientBody, ts: string): (text: string)
    ensures StartsWith(text, "MSH|" + SentEncoding + "|")
  {
    BuildMessageWith(SentEncoding, body, ts)
  }

  /** The message with the HL7 v2.5 encoding characters in MSH-2. */
  function CorrectedMessage(body: PatientBody, ts: string): (text: string)
    ensures StartsWith(text, "MSH|" + Hl7Encoding + "|")
  {
    BuildMessageWith(Hl7Encoding, body, ts)
  }

  /** Splitting the MSH line on `|` puts MSH-2 at 1, the timestamp at 6, the
      event at 8 and the control id `MSG<ts>` at 9. */
  lemma {:induction false} MshFieldPositions(enc: string, ts: string, event: string)
    requires '|' !in enc && '|' !in ts && '|' !in event
    ensures var f := Split(MshSegment(enc, ts, event), '|');
            && f == MshFields(enc, ts, event)
            && |f| == 12 && f[0] == "MSH" && f[1] == enc && f[6] == ts && f[8] == event
            && f[9] == "MSG" + ts && f[11] == "2.5"
  {
    var f := MshFields(enc, ts, event);
    assert '|' !in "MSG" + ts;
    assert forall i :: 0 <= i < |f| ==> '|' !in f[i];
    SplitJoin(f, '|');
  }

  /** With the encoding characters of HL7 v2.5, MSH-2 reads back as component,
      repetition, escape and subcomponent separator. */
  lemma {:induction false} MshEncodingCharacters(ts: string, event: string)
    requires '|' !in ts && '|' !in event
    ensures var f := Split(MshSegment(Hl7Encoding, ts, event), '|'); |f| > 1 && f[1] == ['^', '~', '\\', '&']
  {
    MshFieldPositions(Hl7Encoding, ts, event);
  }

  /** The MSH line the handler sends has three characters in MSH-2: the escape
      character is missing and `&` takes its place. */
  lemma {:induction false} MshEncodingCharactersAsWritten(ts: string, event: string)
    requires '|' !in ts && '|' !in event
    ensures var f, g := Split(MshSegment(SentEncoding, ts, event), '|'), Split(MshSegment(Hl7Encoding, ts, event), '|');
            |f| > 1 && |g| > 1 && f[1] == ['^', '~', '&'] && f[1] != g[1]
  {
    MshFieldPositions(SentEncoding, ts, event);
    MshFieldPositions(Hl7Encoding, ts, event);
  }

  /** PID-3 carries the MRN with `^^^MRN`, PID-5 `last^first`, PID-7 the
      date of birth and PID-8 the sex code. */
  lemma {:induction false} PidFieldPositions(body: PatientBody, dob: string, sex: string)
    requires '|' !in OrEmpty(body.mrn) && '|' !in OrEmpty(body.lastName) && '|' !in OrEmpty(body.firstName)
    requires '|' !in dob && '|' !in sex
    ensures var f := Split(PidSegment(body, dob, sex), '|');
            && f == PidFields(body, dob, sex)
            && |f| == 9 && f[0] == "PID"
            && f[3] == OrEmpty(body.mrn) + "^^^MRN"
            && f[5] == OrEmpty(body.lastName) + "^" + OrEmpty(body.firstName)
            && f[7] == dob && f[8] == sex
  {
    var f := PidFields(body, dob, sex);
    assert '|' !in OrEmpty(body.mrn) + "^^^MRN";
    assert '|' !in OrEmpty(body.lastName) + "^" + OrEmpty(body.firstName);
    assert forall i :: 0 <= i < |f| ==> '|' !in f[i];
    SplitJoin(f, '|');
  }

  /** IN1-2 is the insurance name, IN1-9 the group number, IN1-19 the plan and
      the last field, IN1-36, the member id. */
  lemma {:induction false} In1FieldPositions(ins: Insurance)
    requires '|' !in OrEmpty(ins.name) && '|' !in OrEmpty(ins.groupNumber)
    requires '|' !in OrEmpty(ins.plan) && '|' !in OrEmpty(ins.memberID)
    ensures var f := Split(In1Segment(ins), '|');
            && f == In1Fields(ins)
            && |f| == 37 && f[0] == "IN1" && f[1] == "1"
            && f[2] == OrEmpty(ins.name) && f[9] == OrEmpty(ins.groupNumber)
            && f[19] == OrEmpty(ins.plan) && f[36] == OrEmpty(ins.memberID)
  {
    var f := In1Fields(ins);
    In1FieldsAvoid(ins, '|');
    SplitJoin(f, '|');
  }

  /** A character absent from the insurance values is absent from every IN1 field. */
  lemma {:induction false} In1FieldsAvoid(ins: Insurance, c: char)
    requires c !in OrEmpty(ins.name) && c !in OrEmpty(ins.groupNumber)
    requires c !in OrEmpty(ins.plan) && c !in OrEmpty(ins.memberID)
    requires c != '1' && c != 'I' && c != 'N'
    ensures forall i :: 0 <= i < |In1Fields(ins)| ==> c !in In1Fields(ins)[i]
  {
    var f := In1Fields(ins);
    forall i | 0 <= i < |f| ensures c !in f[i] {
      if i == 0 {
        assert f[0] == ['I', 'N', '1'];
      }
    }
  }
}
