/**
 * The case ledger (dist/src/endpoints/case_management.js): an id counter, the
 * case records, and a FIFO queue of case ids that processors poll round-robin
 * until a trusted processor commits a decision once and for all.
 */
module CaseManagement {
  import opened Common
  import UserRegistration
  import ProcessorRegistration

  /** The `decision` part of a case: "" and "" until a processor decides. */
  datatype Decision = Decision(decision: string, processorFingerprint: string)

  /** A record of the `caseMetadata` table. */
  datatype CaseRecord = CaseRecord(incident: string, policy: string, decision: Decision)

  /** The `caseId` route parameter: missing (absent, empty or not a string)
      or the case id it denotes. */
  datatype CaseIdParam = Missing | Given(id: nat)

  /** The body of a successful nextCase. */
  datatype NextCaseBody = NextCaseBody(caseId: nat, metadata: CaseRecord)

  /** A validated putCaseDecision request. */
  datatype DecisionRequest = DecisionRequest(caseId: nat, incident: string, policy: string, decision: string)

  const PossibleDecisions: set<string> := {"approve", "deny", "error"}

  function NewCase(incident: string, policy: string): CaseRecord
  {
    CaseRecord(incident, policy, Decision("", ""))
  }

  predicate Undecided(c: CaseRecord)
  {
    c.decision.decision == ""
  }

  /** The id registerCase hands out next: the stored counter, 0 if unset. */
  function NextIdOf(counter: Option<nat>): nat
  {
    if counter.None? then 0 else counter.value
  }

  // ---------------------------------------------------------------------------
  // The queue operations, on values

  /** What nextCase does to a non-empty queue: `shift` the head, `push` it. */
  function Rotate(q: seq<nat>): (r: seq<nat>)
    ensures |r| == |q|
    ensures multiset(r) == multiset(q)
  {
    if q == [] then []
    else
      assert q == [q[0]] + q[1..];
      q[1..] + [q[0]]
  }

  /** The queue after k consecutive nextCase calls. */
  function RotateN(q: seq<nat>, k: nat): (r: seq<nat>)
    ensures |r| == |q|
    ensures multiset(r) == multiset(q)
  {
    if k == 0 then q else Rotate(RotateN(q, k - 1))
  }

  lemma {:induction false} RotateNSplit(q: seq<nat>, k: nat)
    requires k <= |q|
    ensures RotateN(q, k) == q[k..] + q[..k]
  {
    if k == 0 {
      assert q[0..] + q[..0] == q;
    } else {
      RotateNSplit(q, k - 1);
      var prev := RotateN(q, k - 1);
      assert prev == q[k - 1..] + q[..k - 1];
      assert prev[0] == q[k - 1];
      assert prev[1..] == q[k..] + q[..k - 1];
      assert RotateN(q, k) == prev[1..] + [prev[0]];
      assert q[..k - 1] + [q[k - 1]] == q[..k];
    }
  }

  /** A queue of K ids is back in its original order after K nextCase calls. */
  lemma FullRotation(q: seq<nat>)
    ensures RotateN(q, |q|) == q
  {
    RotateNSplit(q, |q|);
    assert q[|q|..] + q[..|q|] == q;
  }

  /** The k-th of K consecutive nextCase calls (counting from 0) hands out
      the k-th id of the original queue: each queued id is seen once per round. */
  lemma PollingOrder(q: seq<nat>, k: nat)
    requires k < |q|
    ensures RotateN(q, k)[0] == q[k]
  {
    RotateNSplit(q, k);
  }

  /** `queue.filter(val => val != id)`: every copy of id removed, the other
      ids kept in their order. */
  function Without(q: seq<nat>, id: nat): (r: seq<nat>)
    ensures id !in r
  {
    if q == [] then []
    else if q[0] == id then Without(q[1..], id)
    else [q[0]] + Without(q[1..], id)
  }

  /** Filtering removes every copy of id and keeps the count of every other id. */
  lemma {:induction false} WithoutCounts(q: seq<nat>, id: nat, x: nat)
    ensures multiset(Without(q, id))[x] == if x == id then 0 else multiset(q)[x]
  {
    if q != [] {
      WithoutCounts(q[1..], id, x);
      assert q == [q[0]] + q[1..];
    }
  }

  /** Filtering distributes over concatenation: together with its effect on
      a single id, this says the surviving ids keep their relative order. */
  lemma {:induction false} WithoutDistributes(a: seq<nat>, b: seq<nat>, id: nat)
    ensures Without(a + b, id) == Without(a, id) + Without(b, id)
  {
    if a == [] {
      assert a + b == b;
    } else {
      var x, t := a[0], a[1..];
      assert (a + b)[0] == x;
      assert (a + b)[1..] == t + b;
      WithoutDistributes(t, b, id);
      if x != id {
        var wt, wb := Without(t, id), Without(b, id);
        assert [x] + (wt + wb) == ([x] + wt) + wb;
      }
    }
  }

  /** Filtering out an id that is not queued leaves the queue as it is. */
  lemma {:induction false} WithoutAbsent(q: seq<nat>, id: nat)
    requires id !in q
    ensures Without(q, id) == q
  {
    if q != [] {
      WithoutAbsent(q[1..], id);
    }
  }

  // ---------------------------------------------------------------------------
  // The ledger invariant, on values

  /** Consistency of counter, cases and queue: the case ids are exactly the
      ids below the counter; every decision is "" or one of the three
      outcomes; every queued id has a case; an undecided case is queued
      exactly once and a decided case not at all. */
  ghost predicate Consistent(counter: Option<nat>, cases: map<nat, CaseRecord>, queue: seq<nat>)
  {
    && (forall id: nat :: id in cases <==> id < NextIdOf(counter))
    && (forall id :: id in cases ==> Undecided(cases[id]) || cases[id].decision.decision in PossibleDecisions)
    && (forall i :: 0 <= i < |queue| ==> queue[i] in cases)
    && (forall id :: id in cases ==> multiset(queue)[id] == if Undecided(cases[id]) then 1 else 0)
  }

  /** In a consistent ledger every queued id is below the counter, an
      undecided case is in the queue and a decided one is not. */
  lemma ConsistentQueue(counter: Option<nat>, cases: map<nat, CaseRecord>, queue: seq<nat>, id: nat)
    requires Consistent(counter, cases, queue)
    ensures id in queue ==> id < NextIdOf(counter)
    ensures id in cases ==> (id in queue <==> Undecided(cases[id]))
  {
  }

  lemma ConsistentAfterRegister(counter: Option<nat>, cases: map<nat, CaseRecord>, queue: seq<nat>, incident: string, policy: string)
    requires Consistent(counter, cases, queue)
    ensures NextIdOf(counter) !in cases && NextIdOf(counter) !in queue
    ensures Consistent(Some(NextIdOf(counter) + 1), cases[NextIdOf(counter) := NewCase(incident, policy)], queue + [NextIdOf(counter)])
  {
  }

  lemma ConsistentAfterRotate(counter: Option<nat>, cases: map<nat, CaseRecord>, queue: seq<nat>)
    requires Consistent(counter, cases, queue)
    ensures Consistent(counter, cases, Rotate(queue))
  {
  }

  lemma ConsistentAfterDecide(counter: Option<nat>, cases: map<nat, CaseRecord>, queue: seq<nat>, id: nat, d: Decision)
    requires Consistent(counter, cases, queue)
    requires id in cases && Undecided(cases[id]) && d.decision in PossibleDecisions
    ensures Consistent(counter, cases[id := cases[id].(decision := d)], Without(queue, id))
  {
    var cases', queue' := cases[id := cases[id].(decision := d)], Without(queue, id);
    forall x | x in cases'
      ensures multiset(queue')[x] == if Undecided(cases'[x]) then 1 else 0
    {
      WithoutCounts(queue, id, x);
    }
    forall i | 0 <= i < |queue'|
      ensures queue'[i] in cases'
    {
      var x := queue'[i];
      assert x in multiset(queue');
      WithoutCounts(queue, id, x);
      assert multiset(queue)[x] > 0;
      var j :| 0 <= j < |queue| && queue[j] == x;
    }
  }

  /** The try-block of putCaseDecision: the route parameter, then the body,
      then incident, policy and decision, each checked in that order. */
  function ParseDecisionRequest(param: CaseIdParam, body: RequestBody): (p: Result<DecisionRequest, string>)
    ensures p.Success? <==>
      param.Given? && body.Object? &&
      IsNonEmptyString(Field(body.fields, "incident")) &&
      IsNonEmptyString(Field(body.fields, "policy")) &&
      Field(body.fields, "decision").JString? && Field(body.fields, "decision").s in PossibleDecisions
    ensures p.Success? ==>
      p.value == DecisionRequest(param.id, Field(body.fields, "incident").s,
                                 Field(body.fields, "policy").s, Field(body.fields, "decision").s)
    ensures param.Missing? ==> p == Failure("Missing or invalid caseId in parameters.")
    ensures param.Given? && body.Unparsable? ==> p == Failure("Exception while parsing request: " + body.reason)
    ensures param.Given? && body.Object? ==>
      var incident, policy, decision := Field(body.fields, "incident"), Field(body.fields, "policy"), Field(body.fields, "decision");
      && (!IsNonEmptyString(incident) ==> p == Failure("Missing or invalid incident"))
      && (IsNonEmptyString(incident) && !IsNonEmptyString(policy) ==> p == Failure("Missing or invalid policy"))
      && (IsNonEmptyString(incident) && IsNonEmptyString(policy) && !(decision.JString? && decision.s in PossibleDecisions) ==>
            p == Failure("Missing or invalid decision"))
  {
    if param.Missing? then Failure("Missing or invalid caseId in parameters.")
    else match body
      case Unparsable(reason) => Failure("Exception while parsing request: " + reason)
      case Object(fields) =>
        var incident, policy, decision := Field(fields, "incident"), Field(fields, "policy"), Field(fields, "decision");
        if !IsNonEmptyString(incident) then Failure("Missing or invalid incident")
        else if !IsNonEmptyString(policy) then Failure("Missing or invalid policy")
        else if !IsNonEmptyString(decision) || decision.s !in PossibleDecisions then Failure("Missing or invalid decision")
        else Success(DecisionRequest(param.id, incident.s, policy.s, decision.s))
  }

  /** A case registered with an empty incident text can never be decided:
      putCaseDecision rejects an empty incident before it compares it with
      the stored one. */
  lemma EmptyIncidentNeverMatches(param: CaseIdParam, body: RequestBody, c: CaseRecord)
    requires c.incident == ""
    ensures ParseDecisionRequest(param, body).Success? ==> ParseDecisionRequest(param, body).value.incident != c.incident
  {
  }

  class CaseLedger {
    /** The singleton of the `caseId` table: the next id, unset at first. */
    var caseIdCounter: Option<nat>
    /** The `caseMetadata` table. */
    var cases: map<nat, CaseRecord>
    /** The singleton of the `caseQueue` table, unset until first read. */
    var caseQueue: Option<seq<nat>>

    constructor ()
      ensures caseIdCounter == None && cases == map[] && caseQueue == None
      ensures Valid()
    {
      caseIdCounter, cases, caseQueue := None, map[], None;
    }

    /** The queue as the handlers read it: an unset queue reads as empty. */
    function Queue(): seq<nat>
      reads this
    {
      if caseQueue.None? then [] else caseQueue.value
    }

    ghost predicate Valid()
      reads this
    {
      Consistent(caseIdCounter, cases, Queue())
    }

    /** getCaseQueue: the stored queue, first storing an empty one if unset. */
    method GetCaseQueue() returns (queue: seq<nat>)
      modifies this
      ensures queue == old(Queue()) && caseQueue == Some(queue)
      ensures caseIdCounter == old(caseIdCounter) && cases == old(cases)
    {
      if caseQueue.None? {
        caseQueue := Some([]);
      }
      queue := caseQueue.value;
    }

    /** getCaseMetadata: 400 without an id, 404 for an unknown id, else the record. */
    function GetCaseMetadata(param: CaseIdParam): (r: Response<CaseRecord>)
      reads this
      ensures param.Missing? ==> r == Response(400, Text("Missing or invalid caseId in parameters."))
      ensures param.Given? ==> (r.statusCode == 200 <==> param.id in cases)
      ensures param.Given? && param.id !in cases ==> r == Response(404, Text("Case not found"))
      ensures r.statusCode == 200 ==> r.body.Payload? && r.body.value == cases[param.id]
    {
      if param.Missing? then Response(400, Text("Missing or invalid caseId in parameters."))
      else if param.id !in cases then Response(404, Text("Case not found"))
      else Response(200, Payload(cases[param.id]))
    }

    /** registerCase: refuse a caller without a user policy; otherwise take
        the next id, store an undecided case under it with the caller's
        policy, and append the id to the queue. */
    method RegisterCase(incident: string, callerId: string, users: UserRegistration.UserPolicyStore)
      returns (r: Response<()>)
      modifies this
      ensures users.GetPolicy(callerId).None? ==>
        r == Response(404, Text("No policy found for this user")) && unchanged(this)
      ensures users.GetPolicy(callerId).Some? ==>
        var id, policy := NextIdOf(old(caseIdCounter)), users.GetPolicy(callerId).value;
        && r == Response(200, Text(DecimalString(id)))
        && caseIdCounter == Some(id + 1)
        && cases == old(cases)[id := NewCase(incident, policy)]
        && caseQueue == Some(old(Queue()) + [id])
        && GetCaseMetadata(Given(id)) == Response(200, Payload(NewCase(incident, policy)))
      ensures old(Valid()) ==> Valid()
      ensures old(Valid()) && r.statusCode == 200 ==>
        NextIdOf(old(caseIdCounter)) !in old(cases) && NextIdOf(old(caseIdCounter)) !in old(Queue())
    {
      ghost var counter0, cases0, queue0 := caseIdCounter, cases, Queue();
      var policy := users.GetPolicy(callerId);
      if policy.None? {
        return Response(404, Text("No policy found for this user"));
      }
      var id := if caseIdCounter.None? then 0 else caseIdCounter.value;
      caseIdCounter := Some(id + 1);
      cases := cases[id := NewCase(incident, policy.value)];
      var queue := GetCaseQueue();
      queue := queue + [id];
      caseQueue := Some(queue);
      if Consistent(counter0, cases0, queue0) {
        ConsistentAfterRegister(counter0, cases0, queue0, incident, policy.value);
      }
      return Response(200, Text(DecimalString(id)));
    }

    /** nextCase: 404 on an empty queue; otherwise move the head to the tail,
        write the queue back, and only then look the case up. */
    method NextCase() returns (r: Response<NextCaseBody>)
      modifies this
      ensures caseIdCounter == old(caseIdCounter) && cases == old(cases)
      ensures old(Queue()) == [] ==> r == Response(404, Text("No cases found")) && caseQueue == Some([])
      ensures old(Queue()) != [] ==>
        var id := old(Queue())[0];
        && caseQueue == Some(Rotate(old(Queue())))
        && (id !in cases ==> r == Response(500, Text("Case " + DecimalString(id) + " in case queue but not in store.")))
        && (id in cases ==> r == Response(200, Payload(NextCaseBody(id, cases[id]))))
      ensures old(Valid()) ==> Valid() && (old(Queue()) != [] ==> r.statusCode == 200)
    {
      ghost var queue0 := Queue();
      var queue := GetCaseQueue();
      if |queue| <= 0 {
        return Response(404, Text("No cases found"));
      }
      var id := queue[0];
      queue := queue[1..];
      queue := queue + [id];
      caseQueue := Some(queue);
      if Consistent(caseIdCounter, cases, queue0) {
        ConsistentAfterRotate(caseIdCounter, cases, queue0);
        ConsistentQueue(caseIdCounter, cases, queue0, id);
      }
      if id !in cases {
        return Response(500, Text("Case " + DecimalString(id) + " in case queue but not in store."));
      }
      return Response(200, Payload(NextCaseBody(id, cases[id])));
    }

    /** putCaseDecision: validate the request, then refuse an unknown case,
        a case already decided, echoed metadata that differs from the stored
        one, and an untrusted caller, in that order, all before any write;
        then record the decision and drop every copy of the id from the queue. */
    method PutCaseDecision(param: CaseIdParam, body: RequestBody, callerId: string,
                           trust: ProcessorRegistration.ProcessorTrustStore)
      returns (r: Response<()>)
      modifies this
      ensures caseIdCounter == old(caseIdCounter)
      ensures r.statusCode != 200 ==> cases == old(cases) && caseQueue == old(caseQueue)
      ensures ParseDecisionRequest(param, body).Failure? ==>
        r == Response(400, Text(ParseDecisionRequest(param, body).error))
      ensures ParseDecisionRequest(param, body).Success? ==>
        var req := ParseDecisionRequest(param, body).value;
        var id := req.caseId;
        && (id !in old(cases) ==>
              r == Response(404, Text("Case not found")))
        && (id in old(cases) && !Undecided(old(cases)[id]) ==>
              r == Response(400, Text("Already stored decision for case.")))
        && (id in old(cases) && Undecided(old(cases)[id]) &&
            (old(cases)[id].incident != req.incident || old(cases)[id].policy != req.policy) ==>
              r == Response(400, Text("Expected case metadata does not match processed metadata")))
        && (id in old(cases) && Undecided(old(cases)[id]) &&
            old(cases)[id].incident == req.incident && old(cases)[id].policy == req.policy ==>
              if trust.IsValidProcessor(callerId) then
                && r == Response(200, NoBody)
                && cases == old(cases)[id := old(cases)[id].(decision := Decision(req.decision, callerId))]
                && caseQueue == Some(Without(old(Queue()), id))
              else
                r == Response(403, Text("Invalid processor")))
      ensures r.statusCode == 200 ==>
        var id := ParseDecisionRequest(param, body).value.caseId;
        trust.IsValidProcessor(callerId) && id in cases && !Undecided(cases[id]) && id !in Queue()
      ensures old(Valid()) ==> Valid()
    {
      ghost var queue0 := Queue();
      var parsed := ParseDecisionRequest(param, body);
      if parsed.Failure? {
        return Response(400, Text(parsed.error));
      }
      var req := parsed.value;
      if req.caseId !in cases {
        return Response(404, Text("Case not found"));
      }
      var stored := cases[req.caseId];
      if stored.decision.decision != "" {
        return Response(400, Text("Already stored decision for case."));
      }
      if stored.incident != req.incident || stored.policy != req.policy {
        return Response(400, Text("Expected case metadata does not match processed metadata"));
      }
      if !trust.IsValidProcessor(callerId) {
        return Response(403, Text("Invalid processor"));
      }
      ghost var cases0 := cases;
      cases := cases[req.caseId := stored.(decision := Decision(req.decision, callerId))];
      var queue := GetCaseQueue();
      caseQueue := Some(Without(queue, req.caseId));
      if Consistent(caseIdCounter, cases0, queue0) {
        ConsistentAfterDecide(caseIdCounter, cases0, queue0, req.caseId, Decision(req.decision, callerId));
      }
      return Response(200, NoBody);
    }
  }
}
