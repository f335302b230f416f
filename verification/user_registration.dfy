/**
 * The user policy store: which insurance policy label each user identity
 * holds (dist/src/endpoints/user_registration.js). Writes are gated by the
 * `/policy/write` permission.
 */
module UserRegistration {
  import opened Common

  const POLICY_WRITE := "/policy/write"

  /** The try-block of setUserPolicy: the body must parse and carry a
      non-empty `cert` string, then a non-empty `policy` string. */
  function ParsePolicyAssignment(body: RequestBody): (p: Result<(string, string), string>)
    ensures p.Success? <==>
      body.Object? && IsNonEmptyString(Field(body.fields, "cert")) && IsNonEmptyString(Field(body.fields, "policy"))
    ensures p.Success? ==>
      p.value.0 == Field(body.fields, "cert").s && p.value.1 == Field(body.fields, "policy").s
    ensures body.Unparsable? ==> p == Failure("Failed while parsing body: " + body.reason)
    ensures body.Object? && !IsNonEmptyString(Field(body.fields, "cert")) ==>
      p == Failure("Missing or invalid user certificate.")
    ensures body.Object? && IsNonEmptyString(Field(body.fields, "cert")) && !IsNonEmptyString(Field(body.fields, "policy")) ==>
      p == Failure("Missing or invalid policy.")
  {
    match body
    case Unparsable(reason) => Failure("Failed while parsing body: " + reason)
    case Object(fields) =>
      var cert, policy := Field(fields, "cert"), Field(fields, "policy");
      if !IsNonEmptyString(cert) then Failure("Missing or invalid user certificate.")
      else if !IsNonEmptyString(policy) then Failure("Missing or invalid policy.")
      else Success((cert.s, policy.s))
  }

  class UserPolicyStore {
    /** The `userPolicy` table: user fingerprint to policy label. */
    var userPolicies: map<string, string>

    constructor ()
      ensures userPolicies == map[]
    {
      userPolicies := map[];
    }

    /** getPolicy: the stored label, or absent. */
    function GetPolicy(fingerprint: string): (p: Option<string>)
      reads this
      ensures p.Some? <==> fingerprint in userPolicies
      ensures p.Some? ==> p.value == userPolicies[fingerprint]
    {
      if fingerprint in userPolicies then Some(userPolicies[fingerprint]) else None
    }

    /** getUserPolicy: the caller's own label, or 400 "No policy found". */
    function GetUserPolicy(callerId: string): (r: Response<()>)
      reads this
      ensures r.statusCode == 200 <==> GetPolicy(callerId).Some?
      ensures r.statusCode == 200 ==> r.body == Text(GetPolicy(callerId).value)
      ensures r.statusCode != 200 ==> r == ErrorResponse(400, "No policy found")
    {
      if callerId !in userPolicies then ErrorResponse(400, "No policy found")
      else Response(200, Text(userPolicies[callerId]))
    }

    /** setUserPolicy: a permission check, then body validation, then one
        write keyed by the body's `cert` (not by the caller). */
    method SetUserPolicy(callerId: string, authorized: Authorizer, body: RequestBody) returns (r: Response<()>)
      modifies this
      ensures !authorized(callerId, POLICY_WRITE) ==>
        r == ErrorResponse(403, callerId + " is not authorized to set an insurance policy.")
      ensures authorized(callerId, POLICY_WRITE) && ParsePolicyAssignment(body).Failure? ==>
        r == ErrorResponse(400, ParsePolicyAssignment(body).error)
      ensures r.statusCode == 200 <==> authorized(callerId, POLICY_WRITE) && ParsePolicyAssignment(body).Success?
      ensures r.statusCode == 200 ==>
        var (cert, policy) := ParsePolicyAssignment(body).value;
        r == Response(200, NoBody) &&
        userPolicies == old(userPolicies)[cert := policy] &&
        GetPolicy(cert) == Some(policy)
      ensures r.statusCode != 200 ==> userPolicies == old(userPolicies)
    {
      if !authorized(callerId, POLICY_WRITE) {
        return ErrorResponse(403, callerId + " is not authorized to set an insurance policy.");
      }
      var parsed := ParsePolicyAssignment(body);
      if parsed.Failure? {
        return ErrorResponse(400, parsed.error);
      }
      var (cert, policy) := parsed.value;
      userPolicies := userPolicies[cert := policy];
      return Response(200, NoBody);
    }
  }
}
