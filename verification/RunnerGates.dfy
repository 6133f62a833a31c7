/** Runner status transitions (ci/runners/garm/params/params.go, checked by
    ci/runners/garm/database/sql/instances.go) and the two token gates
    (ci/runners/garm/auth/instance_middleware.go, agent_middleware.go). */
module RunnerGates {
  import opened Wrappers

  /** The named statuses; any other non-empty string is Other. */
  datatype RunnerStatus =
    | Idle | Pending | Terminated | Installing | Failed | Active | Offline
    | Online | UnknownStatus | Other(text: string)

  datatype InstanceStatus =
    | Running | Stopped | Error | PendingDelete | PendingForceDelete | Deleting | Deleted
    | PendingCreate | Creating | UnknownInstance | OtherInstance(text: string)

  /** RunnerStatusTransitions; None for a status that is no key of the table. */
  function RunnerTransitions(s: RunnerStatus): Option<set<RunnerStatus>> {
    match s
    case Pending => Some({Failed, Installing, Terminated, Pending})
    case Installing => Some({Failed, Idle, Terminated, Installing})
    case Idle => Some({Offline, Active, Terminated, Idle})
    case Active => Some({Terminated, Active})
    case Failed => Some({Terminated, Failed})
    case Offline => Some({Idle, Active, Terminated, Offline})
    case Terminated => Some({Terminated})
    case _ => None
  }

  /** InstanceStatusTransitions. */
  function InstanceTransitions(s: InstanceStatus): Option<set<InstanceStatus>> {
    match s
    case Running => Some({PendingDelete, PendingForceDelete, Stopped, UnknownInstance})
    case Stopped => Some({PendingDelete, PendingForceDelete, Running, UnknownInstance})
    case Error => Some({PendingDelete, PendingForceDelete, UnknownInstance, Deleting})
    case PendingDelete => Some({Deleting, PendingForceDelete})
    case PendingForceDelete => Some({Deleting})
    case Deleting => Some({Error, Deleted})
    case Deleted => Some({})
    case PendingCreate => Some({PendingDelete, Creating, PendingForceDelete})
    case Creating => Some({Error, Running})
    case UnknownInstance =>
      Some({Running, Stopped, Error, PendingDelete, PendingForceDelete, Deleting, Deleted, PendingCreate, Creating})
    case OtherInstance(_) => None
  }

  datatype Instance = Instance(id: string, runnerStatus: RunnerStatus, status: InstanceStatus, createAttempt: int)

  /** UpdateInstanceParams: None and 0 leave a field alone. */
  datatype Update = Update(runnerStatus: Option<RunnerStatus>, status: Option<InstanceStatus>, createAttempt: int)

  predicate ValidRunnerStatus(current: RunnerStatus, wanted: Option<RunnerStatus>) {
    wanted.None? || wanted.value == current
    || (RunnerTransitions(current).Some? && wanted.value in RunnerTransitions(current).value)
  }

  predicate ValidInstanceStatus(current: InstanceStatus, wanted: Option<InstanceStatus>) {
    wanted.None? || wanted.value == current
    || (InstanceTransitions(current).Some? && wanted.value in InstanceTransitions(current).value)
  }

  function Apply(i: Instance, u: Update): Instance {
    Instance(i.id,
             if u.runnerStatus.Some? then u.runnerStatus.value else i.runnerStatus,
             if u.status.Some? then u.status.value else i.status,
             if u.createAttempt != 0 then u.createAttempt else i.createAttempt)
  }

  /** UpdateInstance, or ForceUpdateInstance with `force`; None is its error. */
  function UpdateInstance(i: Instance, u: Update, force: bool): Option<Instance> {
    if !force && !(ValidRunnerStatus(i.runnerStatus, u.runnerStatus) && ValidInstanceStatus(i.status, u.status)) then
      None
    else
      Some(Apply(i, u))
  }

  // ---------------------------------------------------------------------
  // The gates
  // ---------------------------------------------------------------------

  datatype Claims = Claims(isAgent: bool, name: string, createAttempt: int)

  /** What the middlewares learn from the request. `fields` is None for an empty
      authorization header, otherwise the number of its space-separated parts. */
  datatype Request = Request(fields: Option<nat>, parses: bool, valid: bool, claims: Claims)

  datatype Reason = NoHeader | BadHeader | BadToken | WrongKind | NoInstance | NoID
                  | BadRunnerStatus | OldAttempt | BadInstanceStatus

  datatype Outcome = Admitted | Refused(reason: Reason)

  predicate BootstrapOpen(s: RunnerStatus) {
    s.Installing? || s.Pending?
  }

  predicate AgentOpen(s: RunnerStatus) {
    !(s.Active? || s.Terminated? || s.Failed?)
  }

  /** `found` is the stored instance named in the claims, together with its entity. */
  function BootstrapGate(r: Request, found: Option<Instance>): Outcome {
    if r.fields.None? then Refused(NoHeader)
    else if r.fields.value != 2 then Refused(BadHeader)
    else if !r.parses || !r.valid then Refused(BadToken)
    else if r.claims.isAgent then Refused(WrongKind)
    else if r.claims.name == "" || found.None? then Refused(NoInstance)
    else if found.value.id == "" then Refused(NoID)
    else if !BootstrapOpen(found.value.runnerStatus) then Refused(BadRunnerStatus)
    else if r.claims.createAttempt != found.value.createAttempt then Refused(OldAttempt)
    else if !(found.value.status.Creating? || found.value.status.Running?) then Refused(BadInstanceStatus)
    else Admitted
  }

  function AgentGate(r: Request, found: Option<Instance>): Outcome {
    if r.fields.None? then Refused(NoHeader)
    else if r.fields.value != 2 then Refused(BadHeader)
    else if !r.parses then Refused(BadToken)
    else if !r.claims.isAgent then Refused(WrongKind)
    else if !r.valid then Refused(BadToken)
    else if r.claims.name == "" || found.None? then Refused(NoInstance)
    else if found.value.id == "" then Refused(NoID)
    else if !AgentOpen(found.value.runnerStatus) then Refused(BadRunnerStatus)
    else if r.claims.createAttempt != found.value.createAttempt then Refused(OldAttempt)
    else if !found.value.status.Running? then Refused(BadInstanceStatus)
    else Admitted
  }

  // ---------------------------------------------------------------------
  // Runs
  // ---------------------------------------------------------------------

  datatype Step = Step(u: Update, force: bool)

  /** A refused update leaves the instance as it was. */
  function After(i: Instance, s: Step): Instance {
    var r := UpdateInstance(i, s.u, s.force);
    if r.Some? then r.value else i
  }

  function Run(i: Instance, steps: seq<Step>): Instance
    decreases |steps|
  {
    if steps == [] then i else Run(After(i, steps[0]), steps[1..])
  }

  /** Forced updates set the runner status only to members of `forced`. */
  predicate Forces(steps: seq<Step>, forced: set<RunnerStatus>) {
    forall k :: 0 <= k < |steps| && steps[k].force && steps[k].u.runnerStatus.Some?
                ==> steps[k].u.runnerStatus.value in forced
  }

  lemma {:induction false} BootstrapStaysClosed(i: Instance, steps: seq<Step>, forced: set<RunnerStatus>)
    requires !BootstrapOpen(i.runnerStatus) && Forces(steps, forced)
    requires forall s :: s in forced ==> !BootstrapOpen(s)
    ensures !BootstrapOpen(Run(i, steps).runnerStatus) && Run(i, steps).id == i.id
    decreases |steps|
  {
    if steps == [] {
    } else {
      BootstrapStaysClosed(After(i, steps[0]), steps[1..], forced);
    }
  }

  lemma {:induction false} AgentStaysClosed(i: Instance, steps: seq<Step>, forced: set<RunnerStatus>)
    requires !AgentOpen(i.runnerStatus) && Forces(steps, forced)
    requires forall s :: s in forced ==> !AgentOpen(s)
    ensures !AgentOpen(Run(i, steps).runnerStatus) && Run(i, steps).id == i.id
    decreases |steps|
  {
    if steps == [] {
    } else {
      AgentStaysClosed(After(i, steps[0]), steps[1..], forced);
    }
  }

  /** A refusal for runner status repeats after every run of updates. */
  ghost predicate BootstrapPermanent(forced: set<RunnerStatus>) {
    forall r, i, steps {:trigger BootstrapGate(r, Some(Run(i, steps))), Forces(steps, forced)} ::
      BootstrapGate(r, Some(i)) == Refused(BadRunnerStatus) && Forces(steps, forced)
      ==> BootstrapGate(r, Some(Run(i, steps))) == Refused(BadRunnerStatus)
  }

  ghost predicate AgentPermanent(forced: set<RunnerStatus>) {
    forall r, i, steps {:trigger AgentGate(r, Some(Run(i, steps))), Forces(steps, forced)} ::
      AgentGate(r, Some(i)) == Refused(BadRunnerStatus) && Forces(steps, forced)
      ==> AgentGate(r, Some(Run(i, steps))) == Refused(BadRunnerStatus)
  }

  function Good(isAgent: bool): Request {
    Request(Some(2), true, true, Claims(isAgent, "runner", 1))
  }

  function OneForced(s: RunnerStatus): seq<Step> {
    [Step(Update(Some(s), None, 0), true)]
  }

  lemma ForcedReopens(s: RunnerStatus, forced: set<RunnerStatus>)
    requires s in forced
    ensures var i := Instance("id", Terminated, Running, 1);
            Forces(OneForced(s), forced) && Run(i, OneForced(s)) == i.(runnerStatus := s)
  {
  }

  /** Main result on the bootstrap gate: a token refused for runner status stays
      refused in every run exactly when no forced update reopens the status. */
  lemma BootstrapPermanentIff(forced: set<RunnerStatus>)
    ensures BootstrapPermanent(forced) <==> Pending !in forced && Installing !in forced
  {
    if Pending !in forced && Installing !in forced {
      forall r, i, steps | BootstrapGate(r, Some(i)) == Refused(BadRunnerStatus) && Forces(steps, forced)
        ensures BootstrapGate(r, Some(Run(i, steps))) == Refused(BadRunnerStatus)
      {
        BootstrapStaysClosed(i, steps, forced);
      }
    } else {
      var s := if Pending in forced then Pending else Installing;
      var i := Instance("id", Terminated, Running, 1);
      ForcedReopens(s, forced);
      assert BootstrapGate(Good(false), Some(i)) == Refused(BadRunnerStatus);
      assert BootstrapGate(Good(false), Some(Run(i, OneForced(s)))) == Admitted;
    }
  }

  /** Main result on the agent gate. */
  lemma AgentPermanentIff(forced: set<RunnerStatus>)
    ensures AgentPermanent(forced) <==> forced <= {Active, Terminated, Failed}
  {
    if forced <= {Active, Terminated, Failed} {
      forall r, i, steps | AgentGate(r, Some(i)) == Refused(BadRunnerStatus) && Forces(steps, forced)
        ensures AgentGate(r, Some(Run(i, steps))) == Refused(BadRunnerStatus)
      {
        AgentStaysClosed(i, steps, forced);
      }
    } else {
      var s :| s in forced && s !in {Active, Terminated, Failed};
      var i := Instance("id", Terminated, Running, 1);
      ForcedReopens(s, forced);
      assert AgentGate(Good(true), Some(i)) == Refused(BadRunnerStatus);
      assert AgentGate(Good(true), Some(Run(i, OneForced(s)))) == Admitted;
    }
  }

  /** The program forces the runner status only to active and terminated
      (setInstanceRunnerStatus), so both gates are permanent in its runs. */
  lemma GatesArePermanent()
    ensures BootstrapPermanent({Active, Terminated}) && AgentPermanent({Active, Terminated})
  {
    BootstrapPermanentIff({Active, Terminated});
    AgentPermanentIff({Active, Terminated});
  }

  /** The update with which a failed instance is put back in the queue. */
  function RetryUpdate(i: Instance): Update {
    Update(Some(Pending), Some(PendingCreate), i.createAttempt + 1)
  }

  /** The requeueing update: sent unforced, it is stored exactly when the runner is
      still pending and the instance is pending creation or unknown. */
  lemma RetryAcceptedIff(i: Instance)
    ensures UpdateInstance(i, RetryUpdate(i), false).Some?
            <==> i.runnerStatus == Pending && i.status in {PendingCreate, UnknownInstance}
  {
  }

  /** retryFailedInstancesForOnePool sends it for instances in error, so it is
      refused every time, and no retry reopens a gate. */
  lemma RetryIsRefused(i: Instance)
    requires i.status == Error
    ensures UpdateInstance(i, RetryUpdate(i), false) == None
  {
    RetryAcceptedIff(i);
  }

  // ---------------------------------------------------------------------
  // Whom the gates admit
  // ---------------------------------------------------------------------

  /** A signed token of the given kind for a stored instance and its current attempt. */
  predicate TokenFor(r: Request, found: Option<Instance>, isAgent: bool) {
    && r.fields == Some(2) && r.parses && r.valid
    && r.claims.isAgent == isAgent && r.claims.name != ""
    && found.Some? && found.value.id != "" && r.claims.createAttempt == found.value.createAttempt
  }

  /** The bootstrap gate admits exactly the bootstrap token of the current attempt,
      while the runner is being set up and the instance is creating or running. */
  lemma BootstrapAdmitsIff(r: Request, found: Option<Instance>)
    ensures BootstrapGate(r, found) == Admitted
            <==> && TokenFor(r, found, false)
                 && found.value.runnerStatus in {Pending, Installing} && found.value.status in {Creating, Running}
  {
  }

  /** The agent gate admits exactly the agent token of the current attempt, while
      the runner has not started a job or ended and the instance is running. */
  lemma AgentAdmitsIff(r: Request, found: Option<Instance>)
    ensures AgentGate(r, found) == Admitted
            <==> && TokenFor(r, found, true)
                 && found.value.runnerStatus !in {Active, Terminated, Failed} && found.value.status == Running
  {
  }

  /** No request passes both gates, whatever is stored. */
  lemma NoneForBoth(r: Request, found: Option<Instance>, other: Option<Instance>)
    ensures !(BootstrapGate(r, found) == Admitted && AgentGate(r, other) == Admitted)
  {
  }

  /** Requeueing an instance, forced or not, revokes all its tokens so far. */
  lemma RetryRevokesTokens(i: Instance, force: bool, r: Request)
    requires i.createAttempt >= 0 && r.claims.createAttempt <= i.createAttempt
    requires UpdateInstance(i, RetryUpdate(i), force).Some?
    ensures var after := UpdateInstance(i, RetryUpdate(i), force);
            && after.value.runnerStatus == Pending && after.value.status == PendingCreate
            && after.value.createAttempt == i.createAttempt + 1
            && BootstrapGate(r, after) != Admitted && AgentGate(r, after) != Admitted
  {
  }

  /** An accepted update stores the statuses and the attempt it names and leaves the
      others. */
  lemma AcceptedUpdate(i: Instance, u: Update, force: bool)
    requires UpdateInstance(i, u, force).Some?
    ensures var after := UpdateInstance(i, u, force).value;
            && after.id == i.id
            && (u.runnerStatus.Some? ==> after.runnerStatus == u.runnerStatus.value)
            && (u.runnerStatus.None? ==> after.runnerStatus == i.runnerStatus)
            && (u.status.Some? ==> after.status == u.status.value)
            && (u.status.None? ==> after.status == i.status)
            && after.createAttempt == if u.createAttempt != 0 then u.createAttempt else i.createAttempt
  {
  }

  // ---------------------------------------------------------------------
  // The tables, in terms of a runner's and an instance's life
  // ---------------------------------------------------------------------

  /** The stages of a runner that is set up and gets a job. */
  function Stage(s: RunnerStatus): int {
    match s
    case Pending => 1
    case Installing => 2
    case Idle => 3
    case Offline => 3
    case Active => 4
    case _ => 0
  }

  /** Unforced, a runner goes on by one stage (idle and offline are one), fails
      while it is set up, or is terminated. */
  lemma RunnerStepIff(s: RunnerStatus, t: RunnerStatus)
    requires RunnerTransitions(s).Some? && s != t
    ensures ValidRunnerStatus(s, Some(t))
            <==> || (Stage(s) > 0 && t != Offline && Stage(t) == Stage(s) + 1)
                 || (Stage(s) == 3 && Stage(t) == 3)
                 || (t == Failed && s in {Pending, Installing})
                 || (t == Terminated)
  {
  }

  /** Which statuses have no way on but to themselves. */
  lemma NoTransitionsIff(s: RunnerStatus, i: InstanceStatus)
    ensures RunnerTransitions(s).None? <==> s in {Online, UnknownStatus} || s.Other?
    ensures InstanceTransitions(i).None? <==> i.OtherInstance?
  {
  }

  /** Unforced, an instance is created, runs or stops; deletion is asked for, can be
      forced, and then goes through; creation and deletion can err; and unknown
      stands between all others. */
  lemma InstanceStepIff(s: InstanceStatus, t: InstanceStatus)
    requires InstanceTransitions(s).Some? && s != t
    ensures ValidInstanceStatus(s, Some(t))
            <==> || (s == PendingCreate && t == Creating)
                 || (s == Creating && t in {Running, Error})
                 || ({s, t} == {Running, Stopped})
                 || (t in {PendingDelete, PendingForceDelete} && s in {PendingCreate, Running, Stopped, Error})
                 || (s == PendingDelete && t == PendingForceDelete)
                 || (t == Deleting && s in {PendingDelete, PendingForceDelete, Error})
                 || (s == Deleting && t in {Deleted, Error})
                 || (t == UnknownInstance && s in {Running, Stopped, Error})
                 || (s == UnknownInstance && !t.OtherInstance?)
  {
  }

  // ---------------------------------------------------------------------
  // Deletion shuts both gates
  // ---------------------------------------------------------------------

  const GOING: set<InstanceStatus> := {PendingDelete, PendingForceDelete, Deleting, Deleted}

  /** The instance status is set unforced only, and only to members of `allowed`. */
  predicate SetsStatus(steps: seq<Step>, allowed: set<InstanceStatus>) {
    forall k :: 0 <= k < |steps| && steps[k].u.status.Some? ==> !steps[k].force && steps[k].u.status.value in allowed
  }

  /** What the status can be after such a run from a status of GOING. */
  ghost predicate Possible(allowed: set<InstanceStatus>, s: InstanceStatus) {
    if Error in allowed && UnknownInstance in allowed then
      s in GOING || s in allowed
    else
      s in GOING || (s == Error && Error in allowed)
  }

  lemma {:induction false} StaysPossible(i: Instance, steps: seq<Step>, allowed: set<InstanceStatus>)
    requires Possible(allowed, i.status) && SetsStatus(steps, allowed)
    ensures Possible(allowed, Run(i, steps).status)
    decreases |steps|
  {
    if steps == [] {
    } else {
      var after := After(i, steps[0]);
      assert forall k :: 0 <= k < |steps| - 1 ==> steps[1..][k] == steps[k + 1];
      assert after.status == i.status
             || (steps[0].u.status == Some(after.status) && after.status in allowed
                 && ValidInstanceStatus(i.status, Some(after.status)));
      StaysPossible(after, steps[1..], allowed);
    }
  }

  /** From deletion on, no run of such updates leads to an admission. */
  ghost predicate BootstrapShut(allowed: set<InstanceStatus>) {
    forall r, i: Instance, steps {:trigger BootstrapGate(r, Some(Run(i, steps))), SetsStatus(steps, allowed)} ::
      i.status in GOING && SetsStatus(steps, allowed) ==> BootstrapGate(r, Some(Run(i, steps))) != Admitted
  }

  ghost predicate AgentShut(allowed: set<InstanceStatus>) {
    forall r, i: Instance, steps {:trigger AgentGate(r, Some(Run(i, steps))), SetsStatus(steps, allowed)} ::
      i.status in GOING && SetsStatus(steps, allowed) ==> AgentGate(r, Some(Run(i, steps))) != Admitted
  }

  /** Deleting, then an error, then unknown, then s again. */
  function Reviving(s: InstanceStatus): seq<Step> {
    [Step(Update(None, Some(Error), 0), false), Step(Update(None, Some(UnknownInstance), 0), false),
     Step(Update(None, Some(s), 0), false)]
  }

  lemma RevivesTo(rs: RunnerStatus, s: InstanceStatus, allowed: set<InstanceStatus>)
    requires s in {Running, Creating} && {Error, UnknownInstance, s} <= allowed
    ensures var i := Instance("id", rs, Deleting, 1);
            SetsStatus(Reviving(s), allowed) && Run(i, Reviving(s)) == i.(status := s)
  {
    var i, steps := Instance("id", rs, Deleting, 1), Reviving(s);
    var i1 := After(i, steps[0]);
    var i2 := After(i1, steps[1]);
    var i3 := After(i2, steps[2]);
    assert steps[1..] == [steps[1], steps[2]] && steps[1..][1..] == [steps[2]] && steps[1..][1..][1..] == [];
    assert Run(i3, []) == i3 && Run(i2, [steps[2]]) == i3 && Run(i1, steps[1..]) == i3 && Run(i, steps) == i3;
  }

  /** Main result on deletion, bootstrap gate: once deletion has begun no request is
      ever admitted exactly when unforced updates do not set error, unknown, and
      one of running and creating. */
  lemma BootstrapShutIff(allowed: set<InstanceStatus>)
    ensures BootstrapShut(allowed)
            <==> !(Error in allowed && UnknownInstance in allowed && (Running in allowed || Creating in allowed))
  {
    if Error in allowed && UnknownInstance in allowed && (Running in allowed || Creating in allowed) {
      var s := if Running in allowed then Running else Creating;
      var i := Instance("id", Installing, Deleting, 1);
      RevivesTo(Installing, s, allowed);
      assert BootstrapGate(Good(false), Some(Run(i, Reviving(s)))) == Admitted;
    } else {
      forall r, i: Instance, steps | i.status in GOING && SetsStatus(steps, allowed)
        ensures BootstrapGate(r, Some(Run(i, steps))) != Admitted
      {
        StaysPossible(i, steps, allowed);
      }
    }
  }

  /** Main result on deletion, agent gate. */
  lemma AgentShutIff(allowed: set<InstanceStatus>)
    ensures AgentShut(allowed) <==> !({Error, UnknownInstance, Running} <= allowed)
  {
    if {Error, UnknownInstance, Running} <= allowed {
      var i := Instance("id", Idle, Deleting, 1);
      RevivesTo(Idle, Running, allowed);
      assert AgentGate(Good(true), Some(Run(i, Reviving(Running)))) == Admitted;
    } else {
      forall r, i: Instance, steps | i.status in GOING && SetsStatus(steps, allowed)
        ensures AgentGate(r, Some(Run(i, steps))) != Admitted
      {
        StaysPossible(i, steps, allowed);
      }
    }
  }
}
