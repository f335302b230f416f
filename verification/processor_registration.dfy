/**
 * The processor trust store (dist/src/endpoints/processor_registration.js).
 * A processor registers by presenting SNP attestation evidence whose report
 * data is bound to its own identity and whose attested policy label is in
 * the accepted list; it is trusted only while that label stays accepted.
 */
module ProcessorRegistration {
  import opened Common

  const PROCESSOR_WRITE := "/processor/write"

  /** The fields of a verified SNP attestation report the store consumes. */
  datatype AttestationReport = AttestationReport(reportData: seq<uint8>, measurement: seq<uint8>, hostData: seq<uint8>)

  /** The UVM endorsement claims returned by the verifier, kept verbatim. */
  datatype UvmEndorsements = UvmEndorsements(did: string, feed: string, svn: string)

  datatype AttestationResult = AttestationResult(attestation: AttestationReport, uvmEndorsements: Option<UvmEndorsements>)

  /** The calls into code this model does not see, as total functions:
      Base64 decoding (which may throw) and encoding, UTF-8 encoding of a
      string, SHA-256, and the SNP attestation verifier (which may throw). */
  datatype Foreign = Foreign(
    base64Decode: string -> Result<seq<uint8>, string>,
    base64Encode: seq<uint8> -> string,
    utf8Encode: string -> seq<uint8>,
    sha256: seq<uint8> -> seq<uint8>,
    verifySnpAttestation: (seq<uint8>, seq<uint8>, seq<uint8>) -> Result<AttestationResult, string>)

  /** A record of the `validProcessors` table. */
  datatype ProcessorRecord = ProcessorRecord(uvmEndorsements: Option<UvmEndorsements>, measurement: string, policy: string)

  /** Why validateProcessorMetadata throws: the accepted list was never set
      (a TypeError on `undefined.includes`), no record was given (a TypeError
      on `undefined.policy`), or the record's policy is not accepted
      ("UVM's policy is invalid."). */
  datatype ValidationError = PolicyListUnset | MetadataMissing | PolicyNotAccepted

  datatype Check = Pass | Throw(error: ValidationError)

  /** The decoded evidence handed to the verifier. */
  datatype Evidence = Evidence(attestation: seq<uint8>, platformCertificates: seq<uint8>, uvmEndorsements: seq<uint8>)

  /** The diagnostic payloads of the two attestation failures that carry one. */
  datatype RegistrationDiagnostic =
    | ReportDataMismatch(reportData: string, cert: string)
    | MetadataRejected(errorMessage: ValidationError, attestedMetadata: ProcessorRecord)

  /** The try-block of setValidProcessorPolicy: `policies` must be an array
      whose every item is a string (the empty array is accepted). */
  function ParseAcceptedPolicies(body: RequestBody): (p: Result<seq<string>, string>)
    ensures body.Unparsable? ==> p == Failure("Error while parsing policy: " + body.reason)
    ensures p.Success? <==>
      body.Object? && Field(body.fields, "policies").JArray? &&
      forall i :: 0 <= i < |Field(body.fields, "policies").items| ==> Field(body.fields, "policies").items[i].JString?
    ensures p.Success? ==>
      var items := Field(body.fields, "policies").items;
      |p.value| == |items| && forall i :: 0 <= i < |items| ==> p.value[i] == items[i].s
    ensures body.Object? && p.Failure? ==> p.error == "Missing or invalid policies"
  {
    match body
    case Unparsable(reason) => Failure("Error while parsing policy: " + reason)
    case Object(fields) =>
      var policies := Field(fields, "policies");
      if policies.JArray? && forall i :: 0 <= i < |policies.items| ==> policies.items[i].JString? then
        Success(StringItems(policies.items))
      else
        Failure("Missing or invalid policies")
  }

  /** The strings of an array all of whose items are strings, in order. */
  function StringItems(items: seq<Json>): (r: seq<string>)
    requires forall i :: 0 <= i < |items| ==> items[i].JString?
    ensures |r| == |items|
    ensures forall i :: 0 <= i < |items| ==> r[i] == items[i].s
  {
    if items == [] then [] else [items[0].s] + StringItems(items[1..])
  }

  /** One evidence field: it must be a non-empty string, and then it is
      Base64-decoded (the decoder may throw). */
  function DecodeField(v: Json, missing: string, decode: string -> Result<seq<uint8>, string>): (p: Result<seq<uint8>, string>)
    ensures !IsNonEmptyString(v) ==> p == Failure(missing)
    ensures IsNonEmptyString(v) && decode(v.s).Success? ==> p == Success(decode(v.s).value)
    ensures IsNonEmptyString(v) && decode(v.s).Failure? ==>
      p == Failure("Error while parsing processor metadata: " + decode(v.s).error)
  {
    if !IsNonEmptyString(v) then Failure(missing)
    else match decode(v.s)
      case Success(bytes) => Success(bytes)
      case Failure(msg) => Failure("Error while parsing processor metadata: " + msg)
  }

  /** The try-block of registerProcessor: attestation, platform_certificates
      and uvm_endorsements are checked and decoded in that order; the first
      failure decides the message. */
  function ParseEvidence(body: RequestBody, decode: string -> Result<seq<uint8>, string>): (p: Result<Evidence, string>)
    ensures body.Unparsable? ==> p == Failure("Error while parsing processor metadata: " + body.reason)
    ensures p.Success? ==>
      body.Object? &&
      IsNonEmptyString(Field(body.fields, "attestation")) &&
      IsNonEmptyString(Field(body.fields, "platform_certificates")) &&
      IsNonEmptyString(Field(body.fields, "uvm_endorsements")) &&
      decode(Field(body.fields, "attestation").s) == Success(p.value.attestation) &&
      decode(Field(body.fields, "platform_certificates").s) == Success(p.value.platformCertificates) &&
      decode(Field(body.fields, "uvm_endorsements").s) == Success(p.value.uvmEndorsements)
    ensures p.Success? <==>
      body.Object? &&
      IsNonEmptyString(Field(body.fields, "attestation")) &&
      IsNonEmptyString(Field(body.fields, "platform_certificates")) &&
      IsNonEmptyString(Field(body.fields, "uvm_endorsements")) &&
      decode(Field(body.fields, "attestation").s).Success? &&
      decode(Field(body.fields, "platform_certificates").s).Success? &&
      decode(Field(body.fields, "uvm_endorsements").s).Success?
    ensures body.Object? && !IsNonEmptyString(Field(body.fields, "attestation")) ==>
      p == Failure("Missing or invalid attestation")
    ensures body.Object? ==>
      var attestation := DecodeField(Field(body.fields, "attestation"), "Missing or invalid attestation", decode);
      var certificates := DecodeField(Field(body.fields, "platform_certificates"), "Missing or invalid platform_certificates.", decode);
      var endorsements := DecodeField(Field(body.fields, "uvm_endorsements"), "Missing or invalid uvm_endorsements.", decode);
      && (attestation.Failure? ==> p == Failure(attestation.error))
      && (attestation.Success? && certificates.Failure? ==> p == Failure(certificates.error))
      && (attestation.Success? && certificates.Success? && endorsements.Failure? ==> p == Failure(endorsements.error))
  {
    match body
    case Unparsable(reason) => Failure("Error while parsing processor metadata: " + reason)
    case Object(fields) =>
      match DecodeField(Field(fields, "attestation"), "Missing or invalid attestation", decode)
      case Failure(e) => Failure(e)
      case Success(attestation) =>
        match DecodeField(Field(fields, "platform_certificates"), "Missing or invalid platform_certificates.", decode)
        case Failure(e) => Failure(e)
        case Success(certificates) =>
          match DecodeField(Field(fields, "uvm_endorsements"), "Missing or invalid uvm_endorsements.", decode)
          case Failure(e) => Failure(e)
          case Success(endorsements) => Success(Evidence(attestation, certificates, endorsements))
  }

  /** Decoding followed by the verifier: the attestation result, or the 400
      message the handler returns. */
  function Attest(body: RequestBody, foreign: Foreign): (a: Result<AttestationResult, string>)
    ensures ParseEvidence(body, foreign.base64Decode).Failure? ==>
      a == Failure(ParseEvidence(body, foreign.base64Decode).error)
    ensures ParseEvidence(body, foreign.base64Decode).Success? ==>
      var ev := ParseEvidence(body, foreign.base64Decode).value;
      var verified := foreign.verifySnpAttestation(ev.attestation, ev.platformCertificates, ev.uvmEndorsements);
      verified.Failure? ==> a == Failure("Error while verifying attestation: " + verified.error)
    ensures a.Success? <==>
      var ev := ParseEvidence(body, foreign.base64Decode);
      ev.Success? &&
      foreign.verifySnpAttestation(ev.value.attestation, ev.value.platformCertificates, ev.value.uvmEndorsements).Success?
    ensures a.Success? ==>
      var ev := ParseEvidence(body, foreign.base64Decode);
      ev.Success? &&
      foreign.verifySnpAttestation(ev.value.attestation, ev.value.platformCertificates, ev.value.uvmEndorsements) == a
  {
    match ParseEvidence(body, foreign.base64Decode)
    case Failure(e) => Failure(e)
    case Success(ev) =>
      match foreign.verifySnpAttestation(ev.attestation, ev.platformCertificates, ev.uvmEndorsements)
      case Failure(msg) => Failure("Error while verifying attestation: " + msg)
      case Success(result) => Success(result)
  }

  /** SHA-256 of the caller's fingerprint: what the report data must start with. */
  function ExpectedReportData(callerId: string, foreign: Foreign): seq<uint8>
  {
    foreign.sha256(foreign.utf8Encode(callerId))
  }

  /** The identity binding: the first 32 bytes of the report data equal the
      first 32 bytes of SHA-256(callerId). */
  predicate BoundTo(callerId: string, report: AttestationReport, foreign: Foreign)
  {
    SameBytes(Prefix32(ExpectedReportData(callerId, foreign)), Prefix32(report.reportData))
  }

  /** One piece of evidence binds at most one identity, up to a collision of
      the 32-byte digest prefixes: evidence made for one caller cannot be
      replayed under another. */
  lemma BindingIsExclusive(c1: string, c2: string, report: AttestationReport, foreign: Foreign)
    requires BoundTo(c1, report, foreign) && BoundTo(c2, report, foreign)
    ensures Prefix32(ExpectedReportData(c1, foreign)) == Prefix32(ExpectedReportData(c2, foreign))
  {
  }

  /** The record registerProcessor stores: endorsements as returned, the
      measurement and the host data (the policy) in Base64. */
  function AttestedMetadata(result: AttestationResult, foreign: Foreign): (m: ProcessorRecord)
    ensures m.policy == foreign.base64Encode(result.attestation.hostData)
    ensures m.measurement == foreign.base64Encode(result.attestation.measurement)
    ensures m.uvmEndorsements == result.uvmEndorsements
  {
    ProcessorRecord(
      result.uvmEndorsements,
      foreign.base64Encode(result.attestation.measurement),
      foreign.base64Encode(result.attestation.hostData))
  }

  class ProcessorTrustStore {
    /** The singleton of the `validProcessorProperties` table: the accepted
        policy labels, unset until an administrator first writes it. */
    var validPolicies: Option<seq<string>>
    /** The `validProcessors` table: processor fingerprint to record. */
    var processors: map<string, ProcessorRecord>

    constructor ()
      ensures validPolicies == None && processors == map[]
    {
      validPolicies := None;
      processors := map[];
    }

    /** getProcessorMetadata: the stored record, or absent. */
    function GetProcessorMetadata(fingerprint: string): (m: Option<ProcessorRecord>)
      reads this
      ensures m.Some? <==> fingerprint in processors
      ensures m.Some? ==> m.value == processors[fingerprint]
    {
      if fingerprint in processors then Some(processors[fingerprint]) else None
    }

    /** validateProcessorMetadata: only the record's policy is checked, against
        the accepted list as it stands now; the measurement is not looked at. */
    function ValidateProcessorMetadata(properties: Option<ProcessorRecord>): (c: Check)
      reads this
      ensures c.Pass? <==>
        validPolicies.Some? && properties.Some? && properties.value.policy in validPolicies.value
      ensures validPolicies.None? ==> c == Throw(PolicyListUnset)
      ensures validPolicies.Some? && properties.None? ==> c == Throw(MetadataMissing)
      ensures validPolicies.Some? && properties.Some? && c.Throw? ==> c.error == PolicyNotAccepted
    {
      if validPolicies.None? then Throw(PolicyListUnset)
      else if properties.None? then Throw(MetadataMissing)
      else if properties.value.policy !in validPolicies.value then Throw(PolicyNotAccepted)
      else Pass
    }

    /** isValidProcessor: a thrown validation error means "not valid". */
    function IsValidProcessor(fingerprint: string): (valid: bool)
      reads this
      ensures valid <==>
        fingerprint in processors && validPolicies.Some? && processors[fingerprint].policy in validPolicies.value
    {
      ValidateProcessorMetadata(GetProcessorMetadata(fingerprint)).Pass?
    }

    /** Two records that differ only in their measurement are judged alike. */
    lemma MeasurementIsNotChecked(m: ProcessorRecord, measurement: string)
      ensures ValidateProcessorMetadata(Some(m)) == ValidateProcessorMetadata(Some(m.(measurement := measurement)))
    {
    }

    /** getValidProcessorPolicy: always 200, with the stored list (possibly unset). */
    function GetValidProcessorPolicy(): (r: Response<Option<seq<string>>>)
      reads this
      ensures r.statusCode == 200
      ensures r.body.Payload? && r.body.value == validPolicies
    {
      Response(200, Payload(validPolicies))
    }

    /** setValidProcessorPolicy: a permission check, then body validation,
        then the accepted list is replaced as a whole. Trust of every
        registered processor is re-judged against the new list, without any
        change to the records. */
    method SetValidProcessorPolicy(callerId: string, authorized: Authorizer, body: RequestBody)
      returns (r: Response<()>)
      modifies this
      ensures processors == old(processors)
      ensures !authorized(callerId, PROCESSOR_WRITE) ==>
        r == Response(403, Text(callerId + " is not authorized to set uvm endorsements."))
      ensures authorized(callerId, PROCESSOR_WRITE) && ParseAcceptedPolicies(body).Failure? ==>
        r == Response(400, Text(ParseAcceptedPolicies(body).error))
      ensures r.statusCode == 200 <==> authorized(callerId, PROCESSOR_WRITE) && ParseAcceptedPolicies(body).Success?
      ensures r.statusCode != 200 ==> validPolicies == old(validPolicies)
      ensures r.statusCode == 200 ==>
        var policies := ParseAcceptedPolicies(body).value;
        r == Response(200, NoBody) &&
        validPolicies == Some(policies) &&
        GetValidProcessorPolicy().body == Payload(Some(policies)) &&
        forall f :: f in processors ==> (IsValidProcessor(f) <==> processors[f].policy in policies)
    {
      if !authorized(callerId, PROCESSOR_WRITE) {
        return Response(403, Text(callerId + " is not authorized to set uvm endorsements."));
      }
      var parsed := ParseAcceptedPolicies(body);
      if parsed.Failure? {
        return Response(400, Text(parsed.error));
      }
      validPolicies := Some(parsed.value);
      return Response(200, NoBody);
    }

    /** registerProcessor: decode, verify, check the identity binding, check
        the attested policy, and only then write the caller's record. */
    method RegisterProcessor(callerId: string, body: RequestBody, foreign: Foreign)
      returns (r: Response<RegistrationDiagnostic>)
      modifies this
      ensures validPolicies == old(validPolicies)
      ensures r.statusCode == 200 || r.statusCode == 400
      ensures r.statusCode != 200 ==> processors == old(processors)
      ensures Attest(body, foreign).Failure? ==> r == Response(400, Text(Attest(body, foreign).error))
      ensures Attest(body, foreign).Success? ==>
        var result := Attest(body, foreign).value;
        var metadata := AttestedMetadata(result, foreign);
        && (!BoundTo(callerId, result.attestation, foreign) ==>
              r == Response(400, Payload(ReportDataMismatch(
                     foreign.base64Encode(Prefix32(result.attestation.reportData)),
                     foreign.base64Encode(ExpectedReportData(callerId, foreign))))))
        && (BoundTo(callerId, result.attestation, foreign) && old(ValidateProcessorMetadata(Some(metadata))).Throw? ==>
              r == Response(400, Payload(MetadataRejected(old(ValidateProcessorMetadata(Some(metadata))).error, metadata))))
        && (BoundTo(callerId, result.attestation, foreign) && old(ValidateProcessorMetadata(Some(metadata))).Pass? ==>
              r == Response(200, NoBody) && processors == old(processors)[callerId := metadata])
      ensures r.statusCode == 200 ==> IsValidProcessor(callerId)
    {
      var attested := Attest(body, foreign);
      if attested.Failure? {
        return Response(400, Text(attested.error));
      }
      var result := attested.value;
      var expected := ExpectedReportData(callerId, foreign);
      var bound := EqualBytes(Prefix32(expected), Prefix32(result.attestation.reportData));
      if !bound {
        return Response(400, Payload(ReportDataMismatch(
          foreign.base64Encode(Prefix32(result.attestation.reportData)),
          foreign.base64Encode(expected))));
      }
      var metadata := AttestedMetadata(result, foreign);
      var check := ValidateProcessorMetadata(Some(metadata));
      if check.Throw? {
        return Response(400, Payload(MetadataRejected(check.error, metadata)));
      }
      processors := processors[callerId := metadata];
      return Response(200, NoBody);
    }
  }
}
