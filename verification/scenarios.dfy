/**
 * Clients of the three stores: sequences of handler calls, and what the
 * handlers' contracts let a caller conclude about them.
 */
module Scenarios {
  import opened Common
  import UserRegistration
  import ProcessorRegistration
  import CaseManagement

  /** A user without a policy cannot register a case. */
  method UnregisteredUserIsRefused(user: string) returns (r: Response<()>)
    ensures r == Response(404, Text("No policy found for this user"))
  {
    var users := new UserRegistration.UserPolicyStore();
    var ledger := new CaseManagement.CaseLedger();
    r := ledger.RegisterCase("fire", user, users);
  }

  /** Once an administrator has assigned a user a policy, the first case of
      a fresh ledger gets id "0". */
  method FirstCaseId(admin: string, user: string) returns (r: Response<()>)
    requires user != ""
    ensures r == Response(200, Text("0"))
  {
    var users := new UserRegistration.UserPolicyStore();
    var ledger := new CaseManagement.CaseLedger();
    var fields := map["cert" := JString(user), "policy" := JString("P1")];
    var granted := users.SetUserPolicy(admin, (caller, permission) => true, Object(fields));
    assert UserRegistration.ParsePolicyAssignment(Object(fields)) == Success((user, "P1"));
    r := ledger.RegisterCase("flood", user, users);
    assert DecimalString(0) == "0";
  }

  /** Two registrations in a row get consecutive ids, both queued once at
      the tail in registration order. */
  method SuccessiveIds(ledger: CaseManagement.CaseLedger, users: UserRegistration.UserPolicyStore,
                       user: string, a: string, b: string)
    returns (r1: Response<()>, r2: Response<()>)
    modifies ledger
    requires ledger.Valid()
    ensures r1.statusCode == 200 ==>
      var n := CaseManagement.NextIdOf(old(ledger.caseIdCounter));
      && r1 == Response(200, Text(DecimalString(n)))
      && r2 == Response(200, Text(DecimalString(n + 1)))
      && ledger.Queue() == old(ledger.Queue()) + [n, n + 1]
      && ledger.Valid()
  {
    r1 := ledger.RegisterCase(a, user, users);
    r2 := ledger.RegisterCase(b, user, users);
  }

  /** Polling a fresh ledger finds no case. */
  method PollEmptyLedger() returns (r: Response<CaseManagement.NextCaseBody>)
    ensures r == Response(404, Text("No cases found"))
  {
    var ledger := new CaseManagement.CaseLedger();
    r := ledger.NextCase();
  }

  /** A second decision on a case is refused, whoever sends it; the case
      keeps the first decider's fingerprint. */
  method DecideTwice(ledger: CaseManagement.CaseLedger, trust: ProcessorRegistration.ProcessorTrustStore,
                     param: CaseManagement.CaseIdParam, body: RequestBody, first: string, second: string)
    returns (r1: Response<()>, r2: Response<()>)
    modifies ledger
    ensures r1.statusCode == 200 ==>
      && param.Given? && param.id in ledger.cases
      && r2 == Response(400, Text("Already stored decision for case."))
      && ledger.cases[param.id].decision.processorFingerprint == first
  {
    r1 := ledger.PutCaseDecision(param, body, first, trust);
    r2 := ledger.PutCaseDecision(param, body, second, trust);
  }

  /** Emptying the accepted list revokes every registered processor at once,
      without touching its record. */
  method RevokeAll(trust: ProcessorRegistration.ProcessorTrustStore, admin: string, processor: string)
    returns (r: Response<()>)
    modifies trust
    ensures r == Response(200, NoBody)
    ensures trust.processors == old(trust.processors)
    ensures !trust.IsValidProcessor(processor)
  {
    var body := Object(map["policies" := JArray([])]);
    assert ProcessorRegistration.ParseAcceptedPolicies(body).Success?;
    r := trust.SetValidProcessorPolicy(admin, (caller, permission) => true, body);
  }
}
