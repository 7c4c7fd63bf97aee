/**
 * The AwsIamRole component: its input defaults, the three-way redeploy
 * classifier, and the deploy and remove lifecycles written against an
 * IAM client that records every call it receives in an append-only log.
 */
module AwsIamRole {
  import opened Common

  /** The managed policy a role is given when its inputs name none. */
  const AdministratorAccessArn := "arn:aws:iam::aws:policy/AdministratorAccess"
  /** The IAM path every role is created under. */
  const RolePath := "/"
  /** How long deploy waits after attaching a policy, in milliseconds. */
  const SettleMillis: nat := 15000
  /** The text whose presence in an error message makes remove swallow it. */
  const RoleNotFound := "Role not found"

  /**
   * A policy reference: either a literal `{arn}` object or an instance of
   * the AwsIamPolicy component (the one case `define` reports as a child).
   */
  datatype Policy = PolicyLiteral(arn: string) | PolicyComponent(arn: string)

  const DefaultPolicy := PolicyLiteral(AdministratorAccessArn)

  /** The inputs given to construct; `None` is an input that was not given. */
  datatype Inputs = Inputs(roleName: Option<string>, service: Option<string>, policy: Option<Policy>)

  /** The resolved `{roleName, service, policy}` of an instance: the fields the classifier compares. */
  datatype RoleConfig = RoleConfig(roleName: string, service: Option<string>, policy: Policy)

  /**
   * A previous instance read back from persisted state. Besides the three
   * compared fields it carries its arn and any number of other fields.
   */
  datatype Snapshot = Snapshot(
    roleName: string,
    service: Option<string>,
    policy: Policy,
    arn: Option<string>,
    extra: map<string, string>)

  /** The classifier's verdicts; no verdict at all (`undefined`) is `None`. */
  datatype Action = Replace | Deploy

  /** One event in the IAM log: an IAM call with its parameters, or a wait. */
  datatype Event =
    | CreateRoleCall(roleName: string, path: string, assumeRolePolicyDocument: string)
    | AttachRolePolicyCall(roleName: string, policyArn: string)
    | DetachRolePolicyCall(roleName: string, policyArn: string)
    | UpdateAssumeRolePolicyCall(roleName: string, policyDocument: string)
    | DeleteRoleCall(roleName: string)
    | Sleep(millis: nat)

  // ---------------------------------------------------------------------
  // The trust (assume-role) policy document
  // ---------------------------------------------------------------------

  const TrustPrefix := "{\"Version\":\"2012-10-17\",\"Statement\":{\"Effect\":\"Allow\",\"Principal\":"
  const TrustSuffix := ",\"Action\":\"sts:AssumeRole\"}}"
  const ServiceOpen := "{\"Service\":\""
  const ServiceClose := "\"}"

  /** The serialized `Principal`: `{"Service":"s"}`, or `{}` when the service is undefined. */
  function Principal(service: Option<string>): (p: string)
    ensures service.None? ==> p == "{}"
    ensures service.Some? ==>
      && |p| == |ServiceOpen| + |service.value| + |ServiceClose|
      && p[..|ServiceOpen|] == ServiceOpen && p[|p| - |ServiceClose|..] == ServiceClose
      && p[|ServiceOpen|..|p| - |ServiceClose|] == service.value
  {
    match service
    case None => "{}"
    case Some(s) => ServiceOpen + s + ServiceClose
  }

  /** The serialized trust document that lets `service` assume the role. */
  function TrustDocument(service: Option<string>): (doc: string)
    ensures ParseTrustDocument(doc) == Some(service)
  {
    var p := Principal(service);
    var doc := TrustPrefix + p + TrustSuffix;
    assert doc[..|TrustPrefix|] == TrustPrefix;
    assert doc[|doc| - |TrustSuffix|..] == TrustSuffix;
    assert doc[|TrustPrefix|..|doc| - |TrustSuffix|] == p;
    doc
  }

  /** Reads the principal back out of a trust document; `None` when `doc` is not one. */
  function ParseTrustDocument(doc: string): Option<Option<string>> {
    if |doc| >= |TrustPrefix| + |TrustSuffix|
       && doc[..|TrustPrefix|] == TrustPrefix
       && doc[|doc| - |TrustSuffix|..] == TrustSuffix
    then ParsePrincipal(doc[|TrustPrefix|..|doc| - |TrustSuffix|])
    else None
  }

  function ParsePrincipal(p: string): Option<Option<string>> {
    if p == "{}" then Some(None)
    else if |p| >= |ServiceOpen| + |ServiceClose|
         && p[..|ServiceOpen|] == ServiceOpen
         && p[|p| - |ServiceClose|..] == ServiceClose
    then Some(Some(p[|ServiceOpen|..|p| - |ServiceClose|]))
    else None
  }

  /** Every trust document has the fixed version, effect and action, and names the service it was built for. */
  lemma TrustDocumentRoundTrip(service: Option<string>)
    ensures ParseTrustDocument(TrustDocument(service)) == Some(service)
    ensures TrustDocument(service)[..|TrustPrefix|] == TrustPrefix
    ensures service.None? ==> TrustDocument(service) == TrustPrefix + "{}" + TrustSuffix
  {
    var doc := TrustDocument(service);
    var p := Principal(service);
    assert doc[..|TrustPrefix|] == TrustPrefix;
    assert doc[|doc| - |TrustSuffix|..] == TrustSuffix;
    assert doc[|TrustPrefix|..|doc| - |TrustSuffix|] == p;
    if service.Some? {
      var s := service.value;
      assert p[..|ServiceOpen|] == ServiceOpen;
      assert p[|p| - |ServiceClose|..] == ServiceClose;
      assert p[|ServiceOpen|..|p| - |ServiceClose|] == s;
    }
  }

  /** Conversely, every string the parser accepts is exactly the document built for what it read. */
  lemma TrustDocumentParsed(doc: string, service: Option<string>)
    requires ParseTrustDocument(doc) == Some(service)
    ensures TrustDocument(service) == doc
  {
    var p := doc[|TrustPrefix|..|doc| - |TrustSuffix|];
    assert ParsePrincipal(p) == Some(service);
    if service.Some? {
      assert p == ServiceOpen + service.value + ServiceClose by {
        assert p == p[..|ServiceOpen|] + p[|ServiceOpen|..|p| - |ServiceClose|] + p[|p| - |ServiceClose|..];
      }
    }
    assert doc == doc[..|TrustPrefix|] + p + doc[|doc| - |TrustSuffix|..];
  }

  /** Two services give the same trust document only when they are the same service. */
  lemma TrustDocumentInjective(a: Option<string>, b: Option<string>)
    requires TrustDocument(a) == TrustDocument(b)
    ensures a == b
  {
    TrustDocumentRoundTrip(a);
    TrustDocumentRoundTrip(b);
  }

  // ---------------------------------------------------------------------
  // The IAM client and the traces of the helpers
  // ---------------------------------------------------------------------

  /** The error an event is answered with; a wait never fails. */
  function FaultOf(faults: map<Event, string>, e: Event): Option<string> {
    if e.Sleep? || e !in faults then None else Some(faults[e])
  }

  /**
   * The IAM client: it appends every event it is asked for to `log`, fails
   * the calls that `faults` names with the given message, and answers
   * createRole with `roleArn`.
   */
  class Iam {
    var log: seq<Event>
    const faults: map<Event, string>
    const roleArn: string

    constructor (faults: map<Event, string>, roleArn: string)
      ensures log == [] && this.faults == faults && this.roleArn == roleArn
    {
      log := [];
      this.faults := faults;
      this.roleArn := roleArn;
    }

    /** Issues one event: it is logged whether or not it fails. */
    method Issue(e: Event) returns (err: Option<string>)
      modifies this
      ensures log == old(log) + [e]
      ensures err == FaultOf(faults, e)
    {
      log := log + [e];
      err := FaultOf(faults, e);
    }
  }

  /** What a sequence of awaited calls does: the events it issued and the error it stopped on. */
  datatype Trace = Trace(events: seq<Event>, err: Option<string>)

  const Done := Trace([], None)

  function Issued(faults: map<Event, string>, e: Event): Trace {
    Trace([e], FaultOf(faults, e))
  }

  /** `await a; await b`: `b` runs only when `a` raised nothing. */
  function Then(a: Trace, b: Trace): Trace {
    if a.err.Some? then a else Trace(a.events + b.events, b.err)
  }

  /**
   * A chain of awaited calls: every call before the last succeeded, a chain
   * that completed saw no failure, and an error is the last call's failure.
   */
  predicate Awaited(t: Trace, faults: map<Event, string>) {
    && (forall k :: 0 <= k < |t.events| - 1 ==> FaultOf(faults, t.events[k]).None?)
    && (t.err.None? ==> forall k :: 0 <= k < |t.events| ==> FaultOf(faults, t.events[k]).None?)
    && (t.err.Some? ==> |t.events| > 0 && t.err == FaultOf(faults, t.events[|t.events| - 1]))
  }

  lemma ThenAwaited(a: Trace, b: Trace, faults: map<Event, string>)
    requires Awaited(a, faults) && Awaited(b, faults)
    ensures Awaited(Then(a, b), faults)
  {
    if a.err.None? {
      var t := Then(a, b);
      assert forall k :: 0 <= k < |a.events| ==> t.events[k] == a.events[k];
      assert forall k :: |a.events| <= k < |t.events| ==> t.events[k] == b.events[k - |a.events|];
    }
  }

  /** The message a detach is answered with when the policy no longer exists. */
  function PolicyNotFoundMessage(arn: string): string {
    "Policy " + arn + " was not found."
  }

  function AttachTrace(faults: map<Event, string>, roleName: string, policy: Policy): Trace {
    Then(Issued(faults, AttachRolePolicyCall(roleName, policy.arn)), Issued(faults, Sleep(SettleMillis)))
  }

  function DetachTrace(faults: map<Event, string>, roleName: string, policy: Policy): Trace {
    Issued(faults, DetachRolePolicyCall(roleName, policy.arn))
  }

  function CreateTrace(faults: map<Event, string>, cfg: RoleConfig): Trace {
    Then(Issued(faults, CreateRoleCall(cfg.roleName, RolePath, TrustDocument(cfg.service))),
         AttachTrace(faults, cfg.roleName, cfg.policy))
  }

  function UpdateTrustTrace(faults: map<Event, string>, roleName: string, service: Option<string>): Trace {
    Issued(faults, UpdateAssumeRolePolicyCall(roleName, TrustDocument(service)))
  }

  /** Detach (a vanished policy is tolerated), then delete the role. */
  function DeleteTrace(faults: map<Event, string>, roleName: string, policy: Policy): (d: Trace)
    ensures 1 <= |d.events| <= 2 && d.events[0] == DetachRolePolicyCall(roleName, policy.arn)
    ensures |d.events| == 2 <==>
      || FaultOf(faults, DetachRolePolicyCall(roleName, policy.arn)).None?
      || FaultOf(faults, DetachRolePolicyCall(roleName, policy.arn)) == Some(PolicyNotFoundMessage(policy.arn))
    ensures |d.events| == 2 ==> d.events[1] == DeleteRoleCall(roleName)
    ensures d.err == FaultOf(faults, d.events[|d.events| - 1])
  {
    var detach := DetachTrace(faults, roleName, policy);
    if detach.err.Some? && detach.err.value != PolicyNotFoundMessage(policy.arn) then detach
    else Then(Trace(detach.events, None), Issued(faults, DeleteRoleCall(roleName)))
  }

  /** Deploy takes the create path on a first deployment and whenever the role name changed. */
  predicate CreatesRole(cfg: RoleConfig, prev: Option<Snapshot>) {
    prev.None? || cfg.roleName != prev.value.roleName
  }

  /** The update path: the trust update when the service changed, then the policy swap when the policy changed. */
  function UpdateTrace(faults: map<Event, string>, cfg: RoleConfig, p: Snapshot): Trace {
    Then(if p.service != cfg.service then UpdateTrustTrace(faults, cfg.roleName, cfg.service) else Done,
         if p.policy != cfg.policy
         then Then(DetachTrace(faults, p.roleName, p.policy), AttachTrace(faults, cfg.roleName, cfg.policy))
         else Done)
  }

  /**
   * The calls deploy awaits, in order: at most four, starting with createRole
   * on the create path; on the update path none exactly when nothing changed.
   */
  function DeployTrace(faults: map<Event, string>, cfg: RoleConfig, prev: Option<Snapshot>): (t: Trace)
    ensures |t.events| <= 4
    ensures CreatesRole(cfg, prev) ==>
      t.events != [] && t.events[0] == CreateRoleCall(cfg.roleName, RolePath, TrustDocument(cfg.service))
    ensures !CreatesRole(cfg, prev) ==> (t.events == [] <==> Project(prev.value) == cfg)
  {
    if CreatesRole(cfg, prev) then CreateTrace(faults, cfg) else UpdateTrace(faults, cfg, prev.value)
  }

  /** Remove: the delete sequence, with any error that mentions a missing role swallowed. */
  function RemoveTrace(faults: map<Event, string>, roleName: string, policy: Policy): (t: Trace)
    ensures 1 <= |t.events| <= 2 && t.events[0] == DetachRolePolicyCall(roleName, policy.arn)
    ensures |t.events| == 2 <==>
      || FaultOf(faults, DetachRolePolicyCall(roleName, policy.arn)).None?
      || FaultOf(faults, DetachRolePolicyCall(roleName, policy.arn)) == Some(PolicyNotFoundMessage(policy.arn))
    ensures |t.events| == 2 ==> t.events[1] == DeleteRoleCall(roleName)
    ensures t.err.Some? ==> !Contains(t.err.value, RoleNotFound)
    ensures var last := FaultOf(faults, t.events[|t.events| - 1]);
      t.err == (if last.Some? && Contains(last.value, RoleNotFound) then None else last)
    ensures t.events == DeleteTrace(faults, roleName, policy).events
  {
    var t := DeleteTrace(faults, roleName, policy);
    if t.err.Some? && Contains(t.err.value, RoleNotFound) then Trace(t.events, None) else t
  }

  // ---------------------------------------------------------------------
  // The helpers, issuing their calls one at a time
  // ---------------------------------------------------------------------

  method AttachRolePolicy(iam: Iam, roleName: string, policy: Policy) returns (err: Option<string>)
    modifies iam
    ensures iam.log == old(iam.log) + AttachTrace(iam.faults, roleName, policy).events
    ensures err == AttachTrace(iam.faults, roleName, policy).err
  {
    err := iam.Issue(AttachRolePolicyCall(roleName, policy.arn));
    if err.None? {
      err := iam.Issue(Sleep(SettleMillis));
    }
  }

  method DetachRolePolicy(iam: Iam, roleName: string, policy: Policy) returns (err: Option<string>)
    modifies iam
    ensures iam.log == old(iam.log) + DetachTrace(iam.faults, roleName, policy).events
    ensures err == DetachTrace(iam.faults, roleName, policy).err
  {
    err := iam.Issue(DetachRolePolicyCall(roleName, policy.arn));
  }

  /** Creates the role, attaches its policy and answers with the new role's arn. */
  method CreateRole(iam: Iam, cfg: RoleConfig) returns (arn: string, err: Option<string>)
    modifies iam
    ensures iam.log == old(iam.log) + CreateTrace(iam.faults, cfg).events
    ensures err == CreateTrace(iam.faults, cfg).err
    ensures arn == iam.roleArn
  {
    arn := iam.roleArn;
    err := iam.Issue(CreateRoleCall(cfg.roleName, RolePath, TrustDocument(cfg.service)));
    if err.None? {
      err := AttachRolePolicy(iam, cfg.roleName, cfg.policy);
    }
  }

  method UpdateAssumeRolePolicy(iam: Iam, roleName: string, service: Option<string>) returns (err: Option<string>)
    modifies iam
    ensures iam.log == old(iam.log) + UpdateTrustTrace(iam.faults, roleName, service).events
    ensures err == UpdateTrustTrace(iam.faults, roleName, service).err
  {
    err := iam.Issue(UpdateAssumeRolePolicyCall(roleName, TrustDocument(service)));
  }

  method DeleteRole(iam: Iam, roleName: string, policy: Policy) returns (err: Option<string>)
    modifies iam
    ensures iam.log == old(iam.log) + DeleteTrace(iam.faults, roleName, policy).events
    ensures err == DeleteTrace(iam.faults, roleName, policy).err
  {
    err := DetachRolePolicy(iam, roleName, policy);
    if err.Some? && err.value != PolicyNotFoundMessage(policy.arn) {
      return;
    }
    err := iam.Issue(DeleteRoleCall(roleName));
  }

  /** The update branch of deploy: refresh the trust document, then swap the policy, as needed. */
  method UpdateRole(iam: Iam, cfg: RoleConfig, p: Snapshot) returns (err: Option<string>)
    modifies iam
    ensures iam.log == old(iam.log) + UpdateTrace(iam.faults, cfg, p).events
    ensures err == UpdateTrace(iam.faults, cfg, p).err
  {
    err := None;
    if p.service != cfg.service {
      err := UpdateAssumeRolePolicy(iam, cfg.roleName, cfg.service);
    }
    if err.None? && p.policy != cfg.policy {
      err := DetachRolePolicy(iam, p.roleName, p.policy);
      if err.None? {
        err := AttachRolePolicy(iam, cfg.roleName, cfg.policy);
      }
    }
  }

  // ---------------------------------------------------------------------
  // The component
  // ---------------------------------------------------------------------

  /** One AwsIamRole instance: its resolved inputs and the arn of the role it manages. */
  class Role {
    const instanceId: string
    var service: Option<string>
    var policy: Policy
    var roleName: string
    var arn: Option<string>

    /** construct: the policy defaults to AdministratorAccess and the role name to `role-<instanceId>`. */
    constructor (inputs: Inputs, instanceId: string)
      ensures this.instanceId == instanceId
      ensures service == inputs.service
      ensures inputs.policy.None? ==> policy == PolicyLiteral(AdministratorAccessArn)
      ensures inputs.policy.Some? ==> policy == inputs.policy.value
      ensures inputs.roleName.None? ==> roleName == "role-" + instanceId
      ensures inputs.roleName.Some? ==> roleName == inputs.roleName.value
      ensures arn.None?
    {
      this.instanceId := instanceId;
      service := inputs.service;
      policy := inputs.policy.GetOr(DefaultPolicy);
      roleName := inputs.roleName.GetOr("role-" + instanceId);
      arn := None;
    }

    function Config(): RoleConfig
      reads this
    {
      RoleConfig(roleName, service, policy)
    }

    /**
     * deploy: creates the role (and sets `arn`) on the create path,
     * otherwise updates the trust document and swaps the policy as needed.
     */
    method Deploy(prev: Option<Snapshot>, iam: Iam) returns (err: Option<string>)
      modifies this`arn, iam
      ensures iam.log == old(iam.log) + DeployTrace(iam.faults, Config(), prev).events
      ensures err == DeployTrace(iam.faults, Config(), prev).err
      ensures arn == (if CreatesRole(Config(), prev) && err.None? then Some(iam.roleArn) else old(arn))
    {
      if prev.None? || roleName != prev.value.roleName {
        var created;
        created, err := CreateRole(iam, Config());
        if err.None? {
          arn := Some(created);
        }
      } else {
        err := UpdateRole(iam, Config(), prev.value);
      }
    }

    /** remove: deletes the role; on success `arn` becomes null, a missing role is not an error. */
    method Remove(iam: Iam) returns (err: Option<string>)
      modifies this`arn, iam
      ensures iam.log == old(iam.log) + RemoveTrace(iam.faults, roleName, policy).events
      ensures err == RemoveTrace(iam.faults, roleName, policy).err
      ensures arn == (if DeleteTrace(iam.faults, roleName, policy).err.None? then None else old(arn))
    {
      err := DeleteRole(iam, roleName, policy);
      if err.None? {
        arn := None;
      } else if Contains(err.value, RoleNotFound) {
        err := None;
      }
    }
  }

  // ---------------------------------------------------------------------
  // shouldDeploy and define
  // ---------------------------------------------------------------------

  /** `pick(['roleName', 'service', 'policy'], prevInstance)`. */
  function Project(prev: Snapshot): (cfg: RoleConfig)
    ensures cfg.roleName == prev.roleName && cfg.service == prev.service && cfg.policy == prev.policy
  {
    RoleConfig(prev.roleName, prev.service, prev.policy)
  }

  /** shouldDeploy: a changed role name means replace; otherwise any change (or no previous instance) means deploy. */
  function ShouldDeploy(cfg: RoleConfig, prev: Option<Snapshot>): (r: Option<Action>)
    ensures r == Some(Replace) <==> prev.Some? && prev.value.roleName != cfg.roleName
    ensures r == Some(Deploy) <==> prev.None? || (prev.value.roleName == cfg.roleName && Project(prev.value) != cfg)
    ensures r == None <==> prev.Some? && Project(prev.value) == cfg
  {
    if prev.Some? && prev.value.roleName != cfg.roleName then Some(Replace)
    else if prev.None? || Project(prev.value) != cfg then Some(Deploy)
    else None
  }

  /** define: an AwsIamPolicy component given as the policy is this component's one child. */
  function Define(policy: Policy): (children: Option<Policy>)
    ensures children.Some? <==> policy.PolicyComponent?
    ensures children.Some? ==> children.value == policy
  {
    if policy.PolicyComponent? then Some(policy) else None
  }

  // ---------------------------------------------------------------------
  // Properties of the lifecycle
  // ---------------------------------------------------------------------

  /** The three events of the create path, in the order they are issued. */
  function CreateEvents(cfg: RoleConfig): seq<Event> {
    [CreateRoleCall(cfg.roleName, RolePath, TrustDocument(cfg.service)),
     AttachRolePolicyCall(cfg.roleName, cfg.policy.arn),
     Sleep(SettleMillis)]
  }

  /**
   * On the create path deploy issues a prefix of createRole, attachRolePolicy,
   * sleep(15000) and stops at the first failing call; it completes exactly
   * when all three were issued, and it never updates, detaches or deletes.
   */
  lemma CreatePathTrace(faults: map<Event, string>, cfg: RoleConfig, prev: Option<Snapshot>)
    requires CreatesRole(cfg, prev)
    ensures var t := DeployTrace(faults, cfg, prev);
      && 1 <= |t.events| <= 3
      && t.events == CreateEvents(cfg)[..|t.events|]
      && (t.err.None? <==> t.events == CreateEvents(cfg))
      && (t.err.Some? ==> t.err == FaultOf(faults, t.events[|t.events| - 1]))
  {
    var t := DeployTrace(faults, cfg, prev);
    var c := CreateEvents(cfg);
    if FaultOf(faults, c[0]).None? && FaultOf(faults, c[1]).None? {
      assert t.events == c;
    }
  }

  /**
   * deploy awaits its calls one after another: every call before the last
   * succeeded, a deploy that completed saw no failure, and a failed deploy
   * reports the failure of the last call it issued.
   */
  lemma {:induction false} DeployStopsAtFirstFailure(faults: map<Event, string>, cfg: RoleConfig, prev: Option<Snapshot>)
    ensures Awaited(DeployTrace(faults, cfg, prev), faults)
  {
    var attach := AttachTrace(faults, cfg.roleName, cfg.policy);
    ThenAwaited(Issued(faults, AttachRolePolicyCall(cfg.roleName, cfg.policy.arn)), Issued(faults, Sleep(SettleMillis)), faults);
    if CreatesRole(cfg, prev) {
      ThenAwaited(Issued(faults, CreateRoleCall(cfg.roleName, RolePath, TrustDocument(cfg.service))), attach, faults);
    } else {
      var p := prev.value;
      var trust := if p.service != cfg.service then UpdateTrustTrace(faults, cfg.roleName, cfg.service) else Done;
      ThenAwaited(DetachTrace(faults, p.roleName, p.policy), attach, faults);
      var swap := if p.policy != cfg.policy then Then(DetachTrace(faults, p.roleName, p.policy), attach) else Done;
      ThenAwaited(trust, swap, faults);
    }
  }

  /**
   * `t` runs the calls of `plan` one after another and stops at the first
   * that fails: its events are a prefix of the plan, and it completes
   * exactly when no call of the plan fails, having issued all of them.
   */
  predicate Follows(t: Trace, plan: seq<Event>, faults: map<Event, string>) {
    && |t.events| <= |plan| && t.events == plan[..|t.events|]
    && (t.err.None? <==> forall k :: 0 <= k < |plan| ==> FaultOf(faults, plan[k]).None?)
    && (t.err.None? ==> t.events == plan)
  }

  lemma IssuedFollows(e: Event, faults: map<Event, string>)
    ensures Follows(Issued(faults, e), [e], faults)
  {
    assert [e][..1] == [e];
    assert FaultOf(faults, [e][0]) == FaultOf(faults, e);
  }

  lemma ThenFollows(a: Trace, pa: seq<Event>, b: Trace, pb: seq<Event>, faults: map<Event, string>)
    requires Follows(a, pa, faults) && Follows(b, pb, faults)
    ensures Follows(Then(a, b), pa + pb, faults)
  {
    var t := Then(a, b);
    if a.err.Some? {
      assert (pa + pb)[..|a.events|] == pa[..|a.events|];
      var k :| 0 <= k < |pa| && FaultOf(faults, pa[k]).Some?;
      assert (pa + pb)[k] == pa[k];
    } else {
      assert t.events == (pa + pb)[..|pa| + |b.events|];
      if b.err.Some? {
        var k :| 0 <= k < |pb| && FaultOf(faults, pb[k]).Some?;
        assert (pa + pb)[|pa| + k] == pb[k];
      } else {
        forall k | 0 <= k < |pa + pb|
          ensures FaultOf(faults, (pa + pb)[k]).None?
        {
          if k < |pa| {
            assert (pa + pb)[k] == pa[k];
          } else {
            assert (pa + pb)[k] == pb[k - |pa|];
          }
        }
      }
    }
  }

  /** The calls of the update path, in order, when IAM answers all of them. */
  function UpdateEvents(cfg: RoleConfig, p: Snapshot): seq<Event> {
    (if p.service != cfg.service then [UpdateAssumeRolePolicyCall(cfg.roleName, TrustDocument(cfg.service))] else [])
    + (if p.policy != cfg.policy
       then [DetachRolePolicyCall(p.roleName, p.policy.arn), AttachRolePolicyCall(cfg.roleName, cfg.policy.arn), Sleep(SettleMillis)]
       else [])
  }

  /**
   * On the update path under any faults, deploy issues a prefix of the calls
   * it would issue without faults, skipping none; it completes exactly when
   * none of those calls fails, and then it has issued all of them.
   */
  lemma {:induction false} UpdatePathPrefix(faults: map<Event, string>, cfg: RoleConfig, prev: Option<Snapshot>)
    requires !CreatesRole(cfg, prev)
    ensures DeployTrace(map[], cfg, prev).events == UpdateEvents(cfg, prev.value)
    ensures var t := DeployTrace(faults, cfg, prev);
      var full := UpdateEvents(cfg, prev.value);
      && |t.events| <= |full| && t.events == full[..|t.events|]
      && (t.err.None? <==> forall k :: 0 <= k < |full| ==> FaultOf(faults, full[k]).None?)
      && (t.err.None? ==> t.events == full)
  {
    var p := prev.value;
    var u := UpdateAssumeRolePolicyCall(cfg.roleName, TrustDocument(cfg.service));
    var d := DetachRolePolicyCall(p.roleName, p.policy.arn);
    var a := AttachRolePolicyCall(cfg.roleName, cfg.policy.arn);
    var z := Sleep(SettleMillis);
    var trustPlan: seq<Event> := if p.service != cfg.service then [u] else [];
    var swapPlan: seq<Event> := if p.policy != cfg.policy then [d, a, z] else [];
    var trust := if p.service != cfg.service then UpdateTrustTrace(faults, cfg.roleName, cfg.service) else Done;
    var attach := AttachTrace(faults, cfg.roleName, cfg.policy);
    IssuedFollows(u, faults);
    IssuedFollows(d, faults);
    IssuedFollows(a, faults);
    IssuedFollows(z, faults);
    ThenFollows(Issued(faults, a), [a], Issued(faults, z), [z], faults);
    ThenFollows(Issued(faults, d), [d], attach, [a] + [z], faults);
    assert [d] + ([a] + [z]) == [d, a, z];
    var swap := if p.policy != cfg.policy then Then(DetachTrace(faults, p.roleName, p.policy), attach) else Done;
    assert Follows(trust, trustPlan, faults);
    assert Follows(swap, swapPlan, faults);
    ThenFollows(trust, trustPlan, swap, swapPlan, faults);
    assert DeployTrace(faults, cfg, prev) == Then(trust, swap);
    UpdatePathTrace(cfg, p);
  }

  /** A first deployment answered without errors: create, attach the policy, wait 15 s. */
  lemma FirstDeploy(cfg: RoleConfig)
    ensures DeployTrace(map[], cfg, None) == Trace(CreateEvents(cfg), None)
    ensures cfg.service.Some? ==> ParseTrustDocument(DeployTrace(map[], cfg, None).events[0].assumeRolePolicyDocument) == Some(cfg.service)
  {
    TrustDocumentRoundTrip(cfg.service);
  }

  /** A role whose name is unchanged is never created again, nor deleted. */
  lemma UpdatePathNeverCreates(faults: map<Event, string>, cfg: RoleConfig, prev: Option<Snapshot>)
    requires !CreatesRole(cfg, prev)
    ensures forall e <- DeployTrace(faults, cfg, prev).events :: !e.CreateRoleCall? && !e.DeleteRoleCall?
  {
    var p := prev.value;
    var trust := if p.service != cfg.service then UpdateTrustTrace(faults, cfg.roleName, cfg.service) else Done;
    var swap := if p.policy != cfg.policy
      then Then(DetachTrace(faults, p.roleName, p.policy), AttachTrace(faults, cfg.roleName, cfg.policy))
      else Done;
    assert forall e <- trust.events :: e.UpdateAssumeRolePolicyCall?;
    assert forall e <- swap.events :: !e.CreateRoleCall? && !e.DeleteRoleCall?;
    assert DeployTrace(faults, cfg, prev) == Then(trust, swap);
  }

  /**
   * With the role name unchanged and IAM answering every call: the trust
   * document is updated exactly when the service changed, and the previous
   * policy is detached and the new one attached (then a 15 s wait) exactly
   * when the policies differ, in that order.
   */
  lemma UpdatePathTrace(cfg: RoleConfig, prev: Snapshot)
    requires prev.roleName == cfg.roleName
    ensures DeployTrace(map[], cfg, Some(prev)) == Trace(UpdateEvents(cfg, prev), None)
  {
  }

  /**
   * The classifier and deploy agree: no verdict means deploy issues nothing,
   * replace means deploy starts by creating the role under its new name, and
   * deploy on an unchanged name issues at least one call and no create.
   */
  lemma ShouldDeployAgreesWithDeploy(faults: map<Event, string>, cfg: RoleConfig, prev: Option<Snapshot>)
    ensures ShouldDeploy(cfg, prev).None? ==> DeployTrace(faults, cfg, prev) == Done
    ensures ShouldDeploy(cfg, prev) == Some(Replace) ==>
      DeployTrace(faults, cfg, prev).events[0] == CreateRoleCall(cfg.roleName, RolePath, TrustDocument(cfg.service))
    ensures ShouldDeploy(cfg, prev) == Some(Deploy) && prev.Some? ==>
      DeployTrace(faults, cfg, prev).events != []
      && forall e <- DeployTrace(faults, cfg, prev).events :: !e.CreateRoleCall?
  {
    if ShouldDeploy(cfg, prev) == Some(Deploy) && prev.Some? {
      UpdatePathNeverCreates(faults, cfg, prev);
    }
  }

  /** shouldDeploy looks only at the three compared fields: the arn and any other field are ignored. */
  lemma ShouldDeployIgnoresOtherFields(cfg: RoleConfig, prev: Snapshot, arn: Option<string>, extra: map<string, string>)
    ensures ShouldDeploy(cfg, Some(prev)) == ShouldDeploy(cfg, Some(prev.(arn := arn, extra := extra)))
  {
  }

  /** A remove answered without errors: detach the current policy, delete the role, and the delete succeeded. */
  lemma RemoveWithoutErrors(roleName: string, policy: Policy)
    ensures RemoveTrace(map[], roleName, policy) == Trace([DetachRolePolicyCall(roleName, policy.arn), DeleteRoleCall(roleName)], None)
    ensures DeleteTrace(map[], roleName, policy).err.None?
  {
  }

  /** A detach answered with `Policy <arn> was not found.` is tolerated: the role is still deleted. */
  lemma RemoveToleratesMissingPolicy(faults: map<Event, string>, roleName: string, policy: Policy)
    requires FaultOf(faults, DetachRolePolicyCall(roleName, policy.arn)) == Some(PolicyNotFoundMessage(policy.arn))
    ensures RemoveTrace(faults, roleName, policy).events == [DetachRolePolicyCall(roleName, policy.arn), DeleteRoleCall(roleName)]
    ensures DeleteTrace(faults, roleName, policy).err == FaultOf(faults, DeleteRoleCall(roleName))
  {
  }

  /** Any other detach error stops remove before the delete; it surfaces unless it mentions a missing role. */
  lemma RemoveStopsOnDetachError(faults: map<Event, string>, roleName: string, policy: Policy, message: string)
    requires FaultOf(faults, DetachRolePolicyCall(roleName, policy.arn)) == Some(message)
    requires message != PolicyNotFoundMessage(policy.arn)
    ensures RemoveTrace(faults, roleName, policy).events == [DetachRolePolicyCall(roleName, policy.arn)]
    ensures RemoveTrace(faults, roleName, policy).err == (if Contains(message, RoleNotFound) then None else Some(message))
  {
  }

  /**
   * Once the detach succeeded or reported the vanished policy, a deleteRole
   * error that does not mention a missing role is what remove raises.
   */
  lemma RemoveSurfacesDeleteError(faults: map<Event, string>, roleName: string, policy: Policy, message: string)
    requires || FaultOf(faults, DetachRolePolicyCall(roleName, policy.arn)).None?
             || FaultOf(faults, DetachRolePolicyCall(roleName, policy.arn)) == Some(PolicyNotFoundMessage(policy.arn))
    requires FaultOf(faults, DeleteRoleCall(roleName)) == Some(message)
    requires !Contains(message, RoleNotFound)
    ensures RemoveTrace(faults, roleName, policy).err == Some(message)
  {
  }

  /**
   * The delete sequence succeeds, so remove clears `arn`, exactly when both
   * calls were issued and deleteRole answered without an error.
   */
  lemma RemoveClearsArnOnSuccess(faults: map<Event, string>, roleName: string, policy: Policy)
    ensures DeleteTrace(faults, roleName, policy).err.None? <==>
      RemoveTrace(faults, roleName, policy).events == [DetachRolePolicyCall(roleName, policy.arn), DeleteRoleCall(roleName)]
      && FaultOf(faults, DeleteRoleCall(roleName)).None?
  {
  }

  /**
   * remove raises only errors that do not mention a missing role, and only
   * ones IAM answered: the delete's error, or a detach error other than the
   * vanished policy.
   */
  lemma RemoveErrors(faults: map<Event, string>, roleName: string, policy: Policy)
    ensures var t := RemoveTrace(faults, roleName, policy);
      t.err.Some? ==>
        && !Contains(t.err.value, RoleNotFound)
        && (|| t.err == FaultOf(faults, DeleteRoleCall(roleName))
            || (t.err == FaultOf(faults, DetachRolePolicyCall(roleName, policy.arn))
                && t.err.value != PolicyNotFoundMessage(policy.arn)))
  {
  }
}
