/** The receiving side: validation of an already-split HL7 v2 message and its
    mapping into FHIR Patient, Coverage and Observation objects
    (emr-server/src/mapping/mapper.ts). */
module Hl7Mapper {
  import opened Text

  /** One segment as JavaScript holds it: an array of field strings whose
      element 0 is the segment tag. */
  type Segment = seq<string>

  /** A message, one element per segment, in input order. */
  type Message = seq<Segment>

  /** `s[0] === segType`: an empty segment's `s[0]` is undefined and equals no tag. */
  predicate HasTag(seg: Segment, tag: string): (b: bool)
    ensures b <==> FieldAt(seg, 0) == Some(tag)
  {
    |seg| > 0 && seg[0] == tag
  }

  /** `seg[index]`: undefined outside the array. */
  function FieldAt(seg: Segment, index: int): (f: Option<string>)
    ensures f.Some? <==> 0 <= index < |seg|
    ensures f.Some? ==> f.value == seg[index]
  {
    if 0 <= index < |seg| then Some(seg[index]) else None
  }

  // ---------------------------------------------------------------------------
  // getField

  /** Position of the segment `segments.find(s => s[0] === tag)` returns. */
  function FindSegment(segments: Message, tag: string): (r: Option<nat>)
    ensures r.None? ==> forall k :: 0 <= k < |segments| ==> !HasTag(segments[k], tag)
    ensures r.Some? ==> r.value < |segments| && HasTag(segments[r.value], tag)
    ensures r.Some? ==> forall j :: 0 <= j < r.value ==> !HasTag(segments[j], tag)
  {
    if segments == [] then None
    else if HasTag(segments[0], tag) then Some(0)
    else
      match FindSegment(segments[1..], tag)
      case None => None
      case Some(k) => Some(k + 1)
  }

  /** Field `index` of the first segment tagged `segType`, absent when there is
      no such segment or the index lies outside it. */
  function GetField(segments: Message, segType: string, index: int): (r: Option<string>)
    ensures (forall k :: 0 <= k < |segments| ==> !HasTag(segments[k], segType)) ==> r == None
    ensures forall k :: 0 <= k < |segments| && HasTag(segments[k], segType)
                        && (forall j :: 0 <= j < k ==> !HasTag(segments[j], segType))
                        ==> r == FieldAt(segments[k], index)
  {
    FindSegmentIsFirst(segments, segType);
    match FindSegment(segments, segType)
    case None => None
    case Some(k) => FieldAt(segments[k], index)
  }

  /** The first segment with the tag is the one `find` returns. */
  lemma {:induction false} FindSegmentIsFirst(segments: Message, tag: string)
    ensures forall k :: 0 <= k < |segments| && HasTag(segments[k], tag)
                        && (forall j :: 0 <= j < k ==> !HasTag(segments[j], tag))
                        ==> FindSegment(segments, tag) == Some(k)
  {
    var r := FindSegment(segments, tag);
    forall k | 0 <= k < |segments| && HasTag(segments[k], tag)
               && (forall j :: 0 <= j < k ==> !HasTag(segments[j], tag))
      ensures r == Some(k)
    {
      assert r.Some?;
      assert !(r.value < k) && !(k < r.value);
    }
  }

  /** Once a segment with the tag has been seen, nothing after it is consulted. */
  lemma {:induction false} GetFieldIgnoresLaterSegments(a: Message, b: Message, segType: string, index: int)
    requires exists k :: 0 <= k < |a| && HasTag(a[k], segType)
    ensures GetField(a + b, segType, index) == GetField(a, segType, index)
  {
    var k := FindSegment(a, segType).value;
    assert forall j :: 0 <= j <= k ==> (a + b)[j] == a[j];
    assert HasTag((a + b)[k], segType);
  }

  /** Segments with other tags in front of the first match change nothing. */
  lemma {:induction false} GetFieldSkipsOtherTags(s: Segment, rest: Message, segType: string, index: int)
    requires !HasTag(s, segType)
    ensures GetField([s] + rest, segType, index) == GetField(rest, segType, index)
  {
    assert ([s] + rest)[1..] == rest;
  }

  // ---------------------------------------------------------------------------
  // toSegmentPresenceObject

  /** The key `result[seg[0]] = true` writes: an undefined `seg[0]` becomes the
      property name "undefined". */
  function TagKey(seg: Segment): (t: string)
    ensures |seg| > 0 ==> HasTag(seg, t)
    ensures |seg| == 0 ==> t == "undefined"
  {
    if |seg| == 0 then "undefined" else seg[0]
  }

  /** The keys of the segment presence object: the tag of every segment. */
  function TagSet(segments: Message): (tags: set<string>)
    ensures forall k :: 0 <= k < |segments| ==> TagKey(segments[k]) in tags
  {
    set k | 0 <= k < |segments| :: TagKey(segments[k])
  }

  /** The segment presence object: every key maps to `true`. */
  function PresenceObject(segments: Message): (json: map<string, bool>)
    ensures json.Keys == TagSet(segments)
    ensures forall t :: t in json ==> json[t]
  {
    map t | t in TagSet(segments) :: true
  }

  lemma {:induction false} TagSetSnoc(segments: Message, seg: Segment)
    ensures TagSet(segments + [seg]) == TagSet(segments) + {TagKey(seg)}
  {
    var s := segments + [seg];
    assert forall k :: 0 <= k < |segments| ==> s[k] == segments[k];
    assert s[|segments|] == seg;
  }

  /** Builds the presence object one segment at a time, as the `forEach` does. */
  method ToSegmentPresenceObject(segments: Message) returns (result: map<string, bool>)
    ensures result == PresenceObject(segments)
    ensures forall t :: t in result ==> result[t]
    ensures forall k :: 0 <= k < |segments| ==> TagKey(segments[k]) in result
    ensures forall t :: t in result ==> exists k :: 0 <= k < |segments| && TagKey(segments[k]) == t
  {
    result := map[];
    var i := 0;
    while i < |segments|
      invariant 0 <= i <= |segments|
      invariant result == PresenceObject(segments[..i])
    {
      TagSetSnoc(segments[..i], segments[i]);
      assert segments[..i + 1] == segments[..i] + [segments[i]];
      result := result[TagKey(segments[i]) := true];
      i := i + 1;
    }
    assert segments[..i] == segments;
  }

  /** For segments that carry a tag, a key is present exactly when some segment has that tag. */
  lemma {:induction false} PresenceObjectKeys(segments: Message, tag: string)
    requires forall k :: 0 <= k < |segments| ==> |segments[k]| > 0
    ensures tag in PresenceObject(segments) <==> exists k :: 0 <= k < |segments| && HasTag(segments[k], tag)
  {
    if tag in PresenceObject(segments) {
      var k :| 0 <= k < |segments| && TagKey(segments[k]) == tag;
      assert HasTag(segments[k], tag);
    }
  }

  /** Neither the order nor the multiplicity of segments matters. */
  lemma {:induction false} PresenceObjectIgnoresOrder(m1: Message, m2: Message)
    requires forall s :: s in m1 <==> s in m2
    ensures TagSet(m1) == TagSet(m2)
    ensures PresenceObject(m1) == PresenceObject(m2)
  {
    forall t | t in TagSet(m1) ensures t in TagSet(m2) {
      var k :| 0 <= k < |m1| && TagKey(m1[k]) == t;
      assert m1[k] in m2;
      var j :| 0 <= j < |m2| && m2[j] == m1[k];
    }
    forall t | t in TagSet(m2) ensures t in TagSet(m1) {
      var k :| 0 <= k < |m2| && TagKey(m2[k]) == t;
      assert m2[k] in m1;
      var j :| 0 <= j < |m1| && m1[j] == m2[k];
    }
    assert TagSet(m1) == TagSet(m2);
  }

  // ---------------------------------------------------------------------------
  // validateMessage

  /** The `required` lists of the JSON schemas ADT_A04.json and ADT_A08.json,
      in the order the schemas list them. */
  datatype Schemas = Schemas(a04: seq<string>, a08: seq<string>)

  /** validation.test.ts:5-12: a message holding only MSH and PID passes the
      A04 schema, so that schema requires nothing beyond those two tags. */
  predicate AgreesWithTests(schemas: Schemas)
  {
    forall i :: 0 <= i < |schemas.a04| ==> schemas.a04[i] == "MSH" || schemas.a04[i] == "PID"
  }

  datatype ValidationError =
    | ErrorMessage(message: string)       // `{ message: ... }`
    | MissingRequired(property: string)   // the schema's "must have required property"

  const UnsupportedMessageType: ValidationError := ErrorMessage("Unsupported message type")

  datatype Validation = Validation(msgType: string, valid: bool, errors: seq<ValidationError>)

  /** A compiled schema whose constraint is `required`, applied to an object;
      like Ajv without `allErrors` it stops at the first missing property. */
  function CheckRequired(required: seq<string>, json: map<string, bool>): (errors: seq<ValidationError>)
    ensures errors == [] <==> forall i :: 0 <= i < |required| ==> required[i] in json
    ensures errors != [] ==> |errors| == 1 && errors[0].MissingRequired?
                             && errors[0].property in required && errors[0].property !in json
  {
    if required == [] then []
    else if required[0] !in json then [MissingRequired(required[0])]
    else CheckRequired(required[1..], json)
  }

  /** `parts[i] || ''` */
  function PartOrEmpty(parts: seq<string>, i: nat): (p: string)
    ensures p == "" <==> i >= |parts| || parts[i] == ""
    ensures p != "" ==> p == parts[i]
  {
    if i < |parts| then parts[i] else ""
  }

  /** The message type: components 1 and 2 of MSH-9 (array index 8) joined by
      `^`, or "" when MSH-9 is absent or empty. */
  function MessageType(segments: Message): (t: string)
    ensures t == "" <==> GetField(segments, "MSH", 8).None? || GetField(segments, "MSH", 8).value == ""
  {
    var msh9 := GetField(segments, "MSH", 8);
    if msh9.Some? && msh9.value != "" then
      var parts := Split(msh9.value, '^');
      PartOrEmpty(parts, 0) + "^" + PartOrEmpty(parts, 1)
    else ""
  }

  /** MSH-9 = `c1^c2` or `c1^c2^...` yields the type `c1^c2`. */
  lemma {:induction false} MessageTypeOfComponents(segments: Message, c1: string, c2: string, rest: string)
    requires GetField(segments, "MSH", 8) == Some(c1 + "^" + c2 + rest)
    requires '^' !in c1 && '^' !in c2
    requires rest == "" || rest[0] == '^'
    ensures MessageType(segments) == c1 + "^" + c2
  {
    assert c1 + "^" + c2 + rest == c1 + ['^'] + (c2 + rest);
    SplitCons(c1, c2 + rest, '^');
    if rest == "" {
      assert c2 + rest == c2;
      SplitNoSeparator(c2, '^');
    } else {
      assert c2 + rest == c2 + ['^'] + rest[1..];
      SplitCons(c2, rest[1..], '^');
    }
  }

  /** MSH-9 without a component separator yields `c1^`: the missing part becomes "". */
  lemma {:induction false} MessageTypeOfSingleComponent(segments: Message, c1: string)
    requires GetField(segments, "MSH", 8) == Some(c1)
    requires c1 != "" && '^' !in c1
    ensures MessageType(segments) == c1 + "^"
  {
    SplitNoSeparator(c1, '^');
  }

  /** validateMessage: the type, whether the message passes the schema of its
      type, and the schema's errors (`[]` standing for Ajv's `null`). */
  function ValidateMessage(segments: Message, schemas: Schemas): (v: Validation)
    ensures v.msgType == MessageType(segments)
    ensures v.valid <==> v.errors == []
    ensures v.msgType != "ADT^A04" && v.msgType != "ADT^A08" ==>
              !v.valid && v.errors == [UnsupportedMessageType]
    ensures v.msgType == "ADT^A04" ==>
              (v.valid <==> forall i :: 0 <= i < |schemas.a04| ==> schemas.a04[i] in TagSet(segments))
    ensures v.msgType == "ADT^A08" ==>
              (v.valid <==> forall i :: 0 <= i < |schemas.a08| ==> schemas.a08[i] in TagSet(segments))
    ensures v.msgType == "ADT^A04" && !v.valid ==>
              && |v.errors| == 1 && v.errors[0].MissingRequired?
              && v.errors[0].property in schemas.a04 && v.errors[0].property !in TagSet(segments)
    ensures v.msgType == "ADT^A08" && !v.valid ==>
              && |v.errors| == 1 && v.errors[0].MissingRequired?
              && v.errors[0].property in schemas.a08 && v.errors[0].property !in TagSet(segments)
  {
    var t := MessageType(segments);
    var json := PresenceObject(segments);
    var valid :=
      if t == "ADT^A04" then CheckRequired(schemas.a04, json) == []
      else if t == "ADT^A08" then CheckRequired(schemas.a08, json) == []
      else false;
    var errors :=
      if t == "ADT^A04" then CheckRequired(schemas.a04, json)
      else if t == "ADT^A08" then CheckRequired(schemas.a08, json)
      else [UnsupportedMessageType];
    Validation(t, valid, errors)
  }

  /** The verdict depends on the message only through its type and its set of
      segment tags: fields outside MSH-9 and the number and order of segments
      do not matter. */
  lemma {:induction false} ValidationDependsOnTypeAndTags(m1: Message, m2: Message, schemas: Schemas)
    requires MessageType(m1) == MessageType(m2)
    requires TagSet(m1) == TagSet(m2)
    ensures ValidateMessage(m1, schemas) == ValidateMessage(m2, schemas)
  {
    assert PresenceObject(m1) == PresenceObject(m2);
  }

  /** In particular reordering or repeating whole segments leaves the verdict unchanged. */
  lemma {:induction false} ValidationIgnoresSegmentOrder(m1: Message, m2: Message, schemas: Schemas)
    requires MessageType(m1) == MessageType(m2)
    requires forall s :: s in m1 <==> s in m2
    ensures ValidateMessage(m1, schemas) == ValidateMessage(m2, schemas)
  {
    PresenceObjectIgnoresOrder(m1, m2);
    ValidationDependsOnTypeAndTags(m1, m2, schemas);
  }

  /** The first test vector of validation.test.ts. */
  function TestMessageA04(): Message
  {
    [["MSH", "|^~\\&", "SendingApp", "SendingFac", "ReceivingApp", "ReceivingFac", "202501011230", "", "ADT^A04", "MSG00001", "P", "2.5"],
     ["PID", "1", "", "12345^^^Hospital^MR", "", "Doe^John", "", "19800101", "M"]]
  }

  /** The second test vector: the same message with MSH-9 = ORM^O01. */
  function TestMessageOrm(): Message
  {
    [["MSH", "|^~\\&", "SendingApp", "SendingFac", "ReceivingApp", "ReceivingFac", "202501011230", "", "ORM^O01", "MSG00001", "P", "2.5"],
     ["PID", "1", "", "12345^^^Hospital^MR", "", "Doe^John", "", "19800101", "M"]]
  }

  lemma {:induction false} TagSetOfPair(s1: Segment, s2: Segment)
    ensures TagSet([s1, s2]) == {TagKey(s1), TagKey(s2)}
  {
    var m := [s1, s2];
    assert m[0] == s1 && m[1] == s2;
  }

  lemma {:induction false} TestMessagesShape()
    ensures MessageType(TestMessageA04()) == "ADT^A04"
    ensures MessageType(TestMessageOrm()) == "ORM^O01"
    ensures TagSet(TestMessageA04()) == {"MSH", "PID"}
  {
    var m, o := TestMessageA04(), TestMessageOrm();
    assert FindSegment(m, "MSH") == Some(0) && FindSegment(o, "MSH") == Some(0);
    assert m[0][8] == "ADT" + "^" + "A04" + "";
    assert o[0][8] == "ORM" + "^" + "O01" + "";
    MessageTypeOfComponents(m, "ADT", "A04", "");
    MessageTypeOfComponents(o, "ORM", "O01", "");
    TagSetOfPair(m[0], m[1]);
  }

  lemma {:induction false} TestA04IsValid(schemas: Schemas)
    requires AgreesWithTests(schemas)
    ensures ValidateMessage(TestMessageA04(), schemas) == Validation("ADT^A04", true, [])
  {
    TestMessagesShape();
  }

  /** The first test vector passes exactly under the schemas the tests allow. */
  lemma {:induction false} TestA04ValidIffAgrees(schemas: Schemas)
    ensures ValidateMessage(TestMessageA04(), schemas).valid <==> AgreesWithTests(schemas)
  {
    TestMessagesShape();
    if ValidateMessage(TestMessageA04(), schemas).valid {
      forall i | 0 <= i < |schemas.a04| ensures schemas.a04[i] == "MSH" || schemas.a04[i] == "PID" {
        assert schemas.a04[i] in TagSet(TestMessageA04());
      }
    }
  }

  lemma {:induction false} TestOrmIsUnsupported(schemas: Schemas)
    ensures ValidateMessage(TestMessageOrm(), schemas) == Validation("ORM^O01", false, [UnsupportedMessageType])
  {
    TestMessagesShape();
  }

  // ---------------------------------------------------------------------------
  // mapToFhir

  const DefaultMrnSystem := "urn:mrn:titan-intake"

  /** `process.env.MRN_SYSTEM || 'urn:mrn:titan-intake'`: the environment
      variable is a parameter. */
  function MrnSystem(env: Option<string>): (system: string)
    ensures system != ""
    ensures env.Some? && env.value != "" ==> system == env.value
    ensures env.None? || env.value == "" ==> system == DefaultMrnSystem
  {
    if env.Some? && env.value != "" then env.value else DefaultMrnSystem
  }

  datatype Identifier = Identifier(system: string, value: Option<string>)

  datatype HumanName = HumanName(family: Option<string>, given: seq<Option<string>>)

  datatype Patient = Patient(
    identifier: seq<Identifier>,
    name: seq<HumanName>,
    gender: Option<string>,
    birthDate: Option<string>)

  datatype Coverage = Coverage(identifier: seq<Identifier>)

  datatype Observation = Observation(
    codeText: Option<string>,
    valueString: Option<string>,
    effectiveDateTime: string)

  datatype FhirResources = FhirResources(patient: Patient, coverage: Coverage, observations: seq<Observation>)

  /** `field?.split('^')[i]`: absent for an absent field; a present component
      holds no `^`; a field without `^` is its own first and only component. */
  function Component(field: Option<string>, i: nat): (c: Option<string>)
    ensures field.None? ==> c.None?
    ensures field.Some? && i == 0 ==> c.Some?
    ensures c.Some? ==> '^' !in c.value
    ensures field.Some? && '^' !in field.value ==> c == if i == 0 then field else None
  {
    match field
    case None => None
    case Some(f) =>
      var parts := Split(f, '^');
      if '^' !in f then
        SplitNoSeparator(f, '^');
        if i == 0 then Some(parts[0]) else None
      else if i < |parts| then Some(parts[i]) else None
  }

  /** A field written as components joined by `^` gives back component `i`,
      and nothing past the last one. */
  lemma {:induction false} ComponentOfJoin(parts: seq<string>, i: nat)
    requires |parts| >= 1
    requires forall k :: 0 <= k < |parts| ==> '^' !in parts[k]
    ensures Component(Some(Join(parts, '^')), i) == if i < |parts| then Some(parts[i]) else None
  {
    SplitJoin(parts, '^');
    if '^' !in Join(parts, '^') {
      SplitNoSeparator(Join(parts, '^'), '^');
    }
  }

  /** `segments.filter(s => s[0] === tag)` */
  function SegmentsWithTag(segments: Message, tag: string): (r: Message)
    ensures |r| <= |segments|
    ensures forall i :: 0 <= i < |r| ==> HasTag(r[i], tag)
  {
    if segments == [] then []
    else
      var rest := SegmentsWithTag(segments[1..], tag);
      if HasTag(segments[0], tag) then [segments[0]] + rest else rest
  }

  /** The filter keeps every matching segment, as often as it occurs. */
  lemma {:induction false} SegmentsWithTagKeepsAll(segments: Message, tag: string, s: Segment)
    requires HasTag(s, tag)
    ensures multiset(SegmentsWithTag(segments, tag))[s] == multiset(segments)[s]
  {
    if segments != [] {
      SegmentsWithTagKeepsAll(segments[1..], tag, s);
      assert segments == [segments[0]] + segments[1..];
    }
  }

  lemma {:induction false} SegmentsWithTagConcat(a: Message, b: Message, tag: string)
    ensures SegmentsWithTag(a + b, tag) == SegmentsWithTag(a, tag) + SegmentsWithTag(b, tag)
  {
    if a == [] {
      assert a + b == b;
    } else {
      var head := if HasTag(a[0], tag) then [a[0]] else [];
      assert (a + b)[0] == a[0];
      assert (a + b)[1..] == a[1..] + b;
      calc {
        SegmentsWithTag(a + b, tag);
        head + SegmentsWithTag(a[1..] + b, tag);
        { SegmentsWithTagConcat(a[1..], b, tag); }
        head + (SegmentsWithTag(a[1..], tag) + SegmentsWithTag(b, tag));
        (head + SegmentsWithTag(a[1..], tag)) + SegmentsWithTag(b, tag);
      }
    }
  }

  /** One Observation from one OBX segment; `now` is the clock reading that
      stands in for an absent or empty OBX-14. */
  function ToObservation(seg: Segment, now: string): (o: Observation)
    ensures o.codeText == FieldAt(seg, 3) && o.valueString == FieldAt(seg, 5)
    ensures FieldAt(seg, 14).Some? && FieldAt(seg, 14).value != "" ==> o.effectiveDateTime == seg[14]
    ensures (FieldAt(seg, 14).None? || FieldAt(seg, 14).value == "") ==> o.effectiveDateTime == now
    ensures o.effectiveDateTime == now || (FieldAt(seg, 14) == Some(o.effectiveDateTime) && o.effectiveDateTime != "")
  {
    var effective := FieldAt(seg, 14);
    Observation(FieldAt(seg, 3), FieldAt(seg, 5),
                if effective.Some? && effective.value != "" then effective.value else now)
  }

  /** The clock as the sequence of readings `new Date()` gives: `clock(k)` is
      the reading taken while mapping the k-th OBX segment. */
  type Clock = nat -> string

  /** The same clock once `n` readings have been taken. */
  function Later(clock: Clock, n: nat): Clock
  {
    (k: nat) => clock(n + k)
  }

  /** One Observation per OBX segment, in order; the k-th reads the clock's k-th reading. */
  function Observations(segments: Message, clock: Clock): (r: seq<Observation>)
    ensures var obx := SegmentsWithTag(segments, "OBX");
            |r| == |obx| && forall k :: 0 <= k < |r| ==> r[k] == ToObservation(obx[k], clock(k))
  {
    var obx := SegmentsWithTag(segments, "OBX");
    var r := seq(|obx|, i requires 0 <= i < |obx| => ToObservation(obx[i], clock(i)));
    assert forall k :: 0 <= k < |r| ==> r[k] == ToObservation(obx[k], clock(k));
    r
  }

  /** mapToFhir; `mrnSystem` is the identifier system (see MrnSystem) and
      `clock` the readings of `new Date().toISOString()`. */
  function MapToFhir(segments: Message, mrnSystem: string, clock: Clock): (m: FhirResources)
    ensures |m.patient.identifier| == 1 && m.patient.identifier[0].system == mrnSystem
    ensures |m.patient.name| == 1 && |m.patient.name[0].given| == 1
    ensures |m.coverage.identifier| == 1 && m.coverage.identifier[0].system == "INSURANCE"
    ensures |m.observations| == |SegmentsWithTag(segments, "OBX")|
    ensures (forall k :: clock(k) != "") ==>
              forall i :: 0 <= i < |m.observations| ==> m.observations[i].effectiveDateTime != ""
  {
    var pid5 := GetField(segments, "PID", 5);
    var patient := Patient(
      [Identifier(mrnSystem, GetField(segments, "PID", 3))],
      [HumanName(Component(pid5, 0), [Component(pid5, 1)])],
      Hl7GenderToFhirGender(GetField(segments, "PID", 8)),
      Hl7DateToFhirDate(GetField(segments, "PID", 7)));
    var coverage := Coverage([Identifier("INSURANCE", GetField(segments, "IN1", 2))]);
    FhirResources(patient, coverage, Observations(segments, clock))
  }

  /** Observations follow the OBX segments in order: mapping a concatenation
      concatenates the observation lists, the second part reading the clock
      after the first part's readings ... */
  lemma {:induction false} ObservationsConcat(a: Message, b: Message, mrnSystem: string, clock: Clock)
    ensures MapToFhir(a + b, mrnSystem, clock).observations
         == MapToFhir(a, mrnSystem, clock).observations
          + MapToFhir(b, mrnSystem, Later(clock, |SegmentsWithTag(a, "OBX")|)).observations
  {
    ObservationsOfConcat(a, b, clock);
  }

  lemma {:induction false} ObservationsOfConcat(a: Message, b: Message, clock: Clock)
    ensures Observations(a + b, clock)
         == Observations(a, clock) + Observations(b, Later(clock, |SegmentsWithTag(a, "OBX")|))
  {
    SegmentsWithTagConcat(a, b, "OBX");
    var oa, ob := SegmentsWithTag(a, "OBX"), SegmentsWithTag(b, "OBX");
    var later := Later(clock, |oa|);
    var lhs, rhs := Observations(a + b, clock), Observations(a, clock) + Observations(b, later);
    assert |lhs| == |rhs|;
    forall i | 0 <= i < |lhs| ensures lhs[i] == rhs[i] {
      if i < |oa| {
        assert (oa + ob)[i] == oa[i];
      } else {
        assert (oa + ob)[i] == ob[i - |oa|];
        assert later(i - |oa|) == clock(i);
      }
    }
  }

  /** ... and a single segment yields one observation exactly when it is an OBX,
      built from OBX-3, OBX-5 and OBX-14 (or the clock's first reading). */
  lemma {:induction false} ObservationsOfOneSegment(s: Segment, mrnSystem: string, clock: Clock)
    ensures MapToFhir([s], mrnSystem, clock).observations
         == if HasTag(s, "OBX") then [Observation(FieldAt(s, 3), FieldAt(s, 5),
                                                  if FieldAt(s, 14).Some? && FieldAt(s, 14).value != ""
                                                  then s[14] else clock(0))]
            else []
  {
    assert [s][1..] == [];
  }

  /** The patient is read from the first PID segment only. */
  lemma {:induction false} PatientIgnoresLaterSegments(a: Message, b: Message, mrnSystem: string, clock: Clock)
    requires exists k :: 0 <= k < |a| && HasTag(a[k], "PID")
    ensures MapToFhir(a + b, mrnSystem, clock).patient == MapToFhir(a, mrnSystem, clock).patient
  {
    GetFieldIgnoresLaterSegments(a, b, "PID", 3);
    GetFieldIgnoresLaterSegments(a, b, "PID", 5);
    GetFieldIgnoresLaterSegments(a, b, "PID", 7);
    GetFieldIgnoresLaterSegments(a, b, "PID", 8);
  }

  /** Without a PID segment every patient value is absent. */
  lemma {:induction false} PatientWithoutPid(segments: Message, mrnSystem: string, clock: Clock)
    requires forall k :: 0 <= k < |segments| ==> !HasTag(segments[k], "PID")
    ensures MapToFhir(segments, mrnSystem, clock).patient
         == Patient([Identifier(mrnSystem, None)], [HumanName(None, [None])], None, None)
  {
  }

  /** The patient carries raw PID-3 as identifier value, the first two `^`
      components of PID-5 as family and given name, and the transformed PID-8
      and PID-7, all from the first PID segment. */
  lemma {:induction false} PatientReadsFirstPid(segments: Message, k: nat, mrnSystem: string, clock: Clock)
    requires k < |segments| && HasTag(segments[k], "PID")
    requires forall j :: 0 <= j < k ==> !HasTag(segments[j], "PID")
    ensures var p, pid := MapToFhir(segments, mrnSystem, clock).patient, segments[k];
            && p.identifier == [Identifier(mrnSystem, FieldAt(pid, 3))]
            && p.name == [HumanName(Component(FieldAt(pid, 5), 0), [Component(FieldAt(pid, 5), 1)])]
            && p.gender == Hl7GenderToFhirGender(FieldAt(pid, 8))
            && p.birthDate == Hl7DateToFhirDate(FieldAt(pid, 7))
  {
    assert FindSegment(segments, "PID") == Some(k);
  }

  /** The coverage identifier value is IN1-2 of the first IN1 segment. */
  lemma {:induction false} CoverageReadsFirstIn1(segments: Message, k: nat, mrnSystem: string, clock: Clock)
    requires k < |segments| && HasTag(segments[k], "IN1")
    requires forall j :: 0 <= j < k ==> !HasTag(segments[j], "IN1")
    ensures MapToFhir(segments, mrnSystem, clock).coverage == Coverage([Identifier("INSURANCE", FieldAt(segments[k], 2))])
  {
    assert FindSegment(segments, "IN1") == Some(k);
  }

  // ---------------------------------------------------------------------------
  // hl7DateToFhirDate, hl7GenderToFhirGender

  /** `YYYYMMDD` to `YYYY-MM-DD` by fixed substrings, without checking digits. */
  function Hl7DateToFhirDate(value: Option<string>): (r: Option<string>)
    ensures r.None? <==> value.None? || value.value == ""
    ensures r.Some? ==> |r.value| == Min(|value.value|, 8) + 2
    ensures r.Some? && |value.value| >= 8 ==>
              && r.value[4] == '-' && r.value[7] == '-'
              && r.value[..4] == value.value[..4]
              && r.value[5..7] == value.value[4..6]
              && r.value[8..] == value.value[6..8]
  {
    if value.None? || value.value == "" then None
    else
      var s := value.value;
      Some(Substring(s, 0, 4) + "-" + Substring(s, 4, 6) + "-" + Substring(s, 6, 8))
  }

  /** For any non-empty input the dashes sit after the (clamped) year and month
      parts, and dropping them gives back the first eight characters. */
  lemma {:induction false} DateKeepsFirstEightCharacters(s: string)
    requires s != ""
    ensures var r := Hl7DateToFhirDate(Some(s)).value;
            var a, b := Min(|s|, 4), Min(|s|, 6);
            && |r| == Min(|s|, 8) + 2
            && r[a] == '-' && r[b + 1] == '-'
            && r[..a] + r[a + 1..b + 1] + r[b + 2..] == s[..Min(|s|, 8)]
  {
    var a, b, c := Min(|s|, 4), Min(|s|, 6), Min(|s|, 8);
    assert Substring(s, 0, 4) == s[..a];
    assert Substring(s, 4, 6) == s[a..b];
    assert Substring(s, 6, 8) == s[b..c];
    var r := s[..a] + "-" + s[a..b] + "-" + s[b..c];
    assert r[..a] == s[..a];
    assert r[a + 1..b + 1] == s[a..b];
    assert r[b + 2..] == s[b..c];
    assert s[..a] + s[a..b] + s[b..c] == s[..c];
  }

  lemma {:induction false} UpperIsSingleLetter(s: string, letter: char)
    requires 'A' <= letter <= 'Z'
    ensures Upper(s) == [letter] <==> s == [letter] || s == [(letter as int + 32) as char]
  {
    if s == [letter] || s == [(letter as int + 32) as char] {
      assert Upper(s)[0] == letter;
    }
    if Upper(s) == [letter] {
      assert |s| == 1 && UpperChar(s[0]) == letter;
    }
  }

  /** Case-insensitive M and F to FHIR `male` and `female`, any other
      non-empty code to `unknown`, nothing for an absent or empty code. */
  function Hl7GenderToFhirGender(value: Option<string>): (r: Option<string>)
    ensures r.None? <==> value.None? || value.value == ""
    ensures r.Some? ==> r.value == "male" || r.value == "female" || r.value == "unknown"
    ensures r == Some("male") <==> value == Some("M") || value == Some("m")
    ensures r == Some("female") <==> value == Some("F") || value == Some("f")
  {
    if value.None? || value.value == "" then None
    else
      UpperIsSingleLetter(value.value, 'M');
      UpperIsSingleLetter(value.value, 'F');
      var u := Upper(value.value);
      if u == "M" then Some("male")
      else if u == "F" then Some("female")
      else Some("unknown")
  }
}
