/**
 * Roles, multi-signature proposals and the two-step admin transfer of
 * contracts/access_control/src/access_control.rs.
 */
module AccessControl {
  import opened Common

  type Address = nat

  datatype Role = Guest | Member | Staff | Admin

  function Rank(r: Role): nat {
    match r
    case Guest => 0
    case Member => 1
    case Staff => 2
    case Admin => 3
  }

  datatype Membership = Membership(role: Role, assignedAt: nat)

  datatype MultiSig = MultiSig(threshold: nat, criticalThreshold: nat, timeLock: nat)

  datatype Config = Config(multisig: MultiSig, paused: bool)

  datatype Action = SetRole(user: Address, role: Role) | RemoveRole(user: Address) | SetAdmin(to: Address) | Upgrade(hash: nat)

  datatype Proposal = Proposal(proposer: Address, action: Action, approvals: seq<Address>, createdAt: nat, executionTime: nat)

  datatype Transfer = Transfer(nominee: Address, proposedAt: nat)

  datatype Error =
    | Unauthorized | AdminNotSet | UserNotFound | ProposalNotFound | AlreadyApproved | ThresholdNotMet
    | TimeLockActive | ContractPaused | NoPendingTransfer | TimelockNotExpired | Trap

  type Roles = map<Address, Membership>

  datatype Chair = Chair(admin: Option<Address>, pending: Option<Transfer>)

  datatype Docket = Docket(count: nat, proposals: map<nat, Proposal>)

  datatype State = State(chair: Chair, config: Option<Config>, roles: Roles, docket: Docket, upgrade: Option<nat>)

  const ADMIN_TRANSFER_LOCK: nat := 48 * 60 * 60

  const DEFAULT_CONFIG: Config := Config(MultiSig(1, 2, 0), false)

  type Outcome = Result<State, Error>

  function LoadConfig(s: State): Config { if s.config.Some? then s.config.value else DEFAULT_CONFIG }

  predicate Paused(s: State) { LoadConfig(s).paused }

  function CheckAccess(roles: Roles, user: Address, required: Role): bool {
    Rank(required) <= Rank(if user in roles then roles[user].role else Guest)
  }

  function RequireAdmin(s: State, caller: Address): Option<Error> {
    if s.chair.admin.None? then Some(AdminNotSet)
    else if caller != s.chair.admin.value then Some(Unauthorized)
    else None
  }

  predicate Critical(a: Action) { a.SetAdmin? || a.Upgrade? }

  function Required(m: MultiSig, a: Action): nat { if Critical(a) then m.criticalThreshold else m.threshold }

  // ---------------------------------------------------------------- one call

  function DoInitialize(s: State, now: nat, admin: Address, multisig: MultiSig): State {
    s.(chair := s.chair.(admin := Some(admin)),
       config := Some(Config(multisig, false)),
       roles := s.roles[admin := Membership(Admin, now)])
  }

  function DoSetRole(s: State, now: nat, caller: Address, user: Address, role: Role): Outcome {
    if Paused(s) then Failure(ContractPaused)
    else if RequireAdmin(s, caller).Some? then Failure(RequireAdmin(s, caller).value)
    else Success(s.(roles := s.roles[user := Membership(role, now)]))
  }

  function DoRemoveRole(s: State, caller: Address, user: Address): Outcome {
    if Paused(s) then Failure(ContractPaused)
    else if RequireAdmin(s, caller).Some? then Failure(RequireAdmin(s, caller).value)
    else if user !in s.roles then Failure(UserNotFound)
    else Success(s.(roles := s.roles - {user}))
  }

  function DoUpdateConfig(s: State, caller: Address, config: Config): Outcome {
    if RequireAdmin(s, caller).Some? then Failure(RequireAdmin(s, caller).value)
    else Success(s.(config := Some(config)))
  }

  function DoSetPaused(s: State, caller: Address, paused: bool): Outcome {
    if RequireAdmin(s, caller).Some? then Failure(RequireAdmin(s, caller).value)
    else Success(s.(config := Some(LoadConfig(s).(paused := paused))))
  }

  function DoCreate(s: State, now: nat, proposer: Address, action: Action): Outcome {
    var lock := LoadConfig(s).multisig.timeLock;
    if Paused(s) then Failure(ContractPaused)
    else if !CheckAccess(s.roles, proposer, Staff) then Failure(Unauthorized)
    else if now + lock > U64_MAX then Failure(Trap)
    else
      var id := s.docket.count + 1;
      var p := Proposal(proposer, action, [proposer], now, now + lock);
      Success(s.(docket := Docket(id, s.docket.proposals[id := p])))
  }

  function DoApprove(s: State, approver: Address, id: nat): Outcome {
    if Paused(s) then Failure(ContractPaused)
    else if !CheckAccess(s.roles, approver, Staff) then Failure(Unauthorized)
    else if id !in s.docket.proposals then Failure(ProposalNotFound)
    else
      var p := s.docket.proposals[id];
      if approver in p.approvals then Failure(AlreadyApproved)
      else
        Success(s.(docket := s.docket.(proposals := s.docket.proposals[id := p.(approvals := p.approvals + [approver])])))
  }

  function TakeEffect(s: State, now: nat, action: Action): State {
    match action
    case SetRole(user, role) => s.(roles := s.roles[user := Membership(role, now)])
    case RemoveRole(user) => s.(roles := s.roles - {user})
    case SetAdmin(to) => s.(chair := s.chair.(admin := Some(to)), roles := s.roles[to := Membership(Admin, now)])
    case Upgrade(hash) => s.(upgrade := Some(hash))
  }

  function DoExecute(s: State, now: nat, id: nat): Outcome {
    if Paused(s) then Failure(ContractPaused)
    else if id !in s.docket.proposals then Failure(ProposalNotFound)
    else
      var p := s.docket.proposals[id];
      if |p.approvals| < Required(LoadConfig(s).multisig, p.action) then Failure(ThresholdNotMet)
      else if now < p.executionTime then Failure(TimeLockActive)
      else Success(TakeEffect(s.(docket := s.docket.(proposals := s.docket.proposals - {id})), now, p.action))
  }

  function DoNominate(s: State, now: nat, caller: Address, nominee: Address): Outcome {
    if Paused(s) then Failure(ContractPaused)
    else if RequireAdmin(s, caller).Some? then Failure(RequireAdmin(s, caller).value)
    else Success(s.(chair := s.chair.(pending := Some(Transfer(nominee, now)))))
  }

  function DoAccept(s: State, now: nat, caller: Address): Outcome {
    var pending := s.chair.pending;
    if Paused(s) then Failure(ContractPaused)
    else if pending.None? then Failure(NoPendingTransfer)
    else if caller != pending.value.nominee then Failure(Unauthorized)
    else if pending.value.proposedAt + ADMIN_TRANSFER_LOCK > U64_MAX then Failure(Trap)
    else if now < pending.value.proposedAt + ADMIN_TRANSFER_LOCK then Failure(TimelockNotExpired)
    else Success(s.(chair := Chair(Some(caller), None), roles := s.roles[caller := Membership(Admin, now)]))
  }

  function DoWithdraw(s: State, caller: Address): Outcome {
    if RequireAdmin(s, caller).Some? then Failure(RequireAdmin(s, caller).value)
    else if s.chair.pending.None? then Failure(NoPendingTransfer)
    else Success(s.(chair := s.chair.(pending := None)))
  }

  // ---------------------------------------------------------------- runs

  datatype Call =
    | CallSetRole(user: Address, role: Role)
    | CallRemoveRole(user: Address)
    | CallUpdateConfig(config: Config)
    | CallSetPaused(paused: bool)
    | CallCreate(action: Action)
    | CallApprove(id: nat)
    | CallExecute(id: nat)
    | CallNominate(nominee: Address)
    | CallAccept
    | CallWithdraw

  /** One call, its authenticated caller and the ledger time. Re-initialization is not part of a run. */
  datatype Step = Step(now: nat, caller: Address, call: Call)

  function Do(s: State, e: Step): Outcome {
    match e.call
    case CallSetRole(user, role) => DoSetRole(s, e.now, e.caller, user, role)
    case CallRemoveRole(user) => DoRemoveRole(s, e.caller, user)
    case CallUpdateConfig(config) => DoUpdateConfig(s, e.caller, config)
    case CallSetPaused(paused) => DoSetPaused(s, e.caller, paused)
    case CallCreate(action) => DoCreate(s, e.now, e.caller, action)
    case CallApprove(id) => DoApprove(s, e.caller, id)
    case CallExecute(id) => DoExecute(s, e.now, id)
    case CallNominate(nominee) => DoNominate(s, e.now, e.caller, nominee)
    case CallAccept => DoAccept(s, e.now, e.caller)
    case CallWithdraw => DoWithdraw(s, e.caller)
  }

  function After(s: State, o: Outcome): State { if o.Success? then o.value else s }

  function Run(s0: State, steps: seq<Step>): State {
    if steps == [] then s0
    else
      var s := Run(s0, steps[..|steps| - 1]);
      After(s, Do(s, steps[|steps| - 1]))
  }

  /** A new contract, before its initialization. */
  const DEPLOYED: State := State(Chair(None, None), None, map[], Docket(0, map[]), None)

  /** Nothing proposed and nobody nominated yet. */
  predicate Fresh(s: State) { s.docket.proposals == map[] && s.chair.pending.None? }

  // ---------------------------------------------------------------- who really approved

  /** This step is someone who is then Staff or above, in an unpaused contract, backing proposal id. */
  predicate Endorses(s: State, e: Step, id: nat) {
    && !Paused(s)
    && CheckAccess(s.roles, e.caller, Staff)
    && ((e.call.CallCreate? && id == s.docket.count + 1 && e.now + LoadConfig(s).multisig.timeLock <= U64_MAX)
        || (e.call == CallApprove(id) && id in s.docket.proposals))
  }

  /** Everyone who ever endorsed proposal id, read off the history alone. */
  function Endorsers(s0: State, steps: seq<Step>, id: nat): set<Address> {
    if steps == [] then {}
    else
      var front, last := steps[..|steps| - 1], steps[|steps| - 1];
      Endorsers(s0, front, id) + (if Endorses(Run(s0, front), last, id) then {last.caller} else {})
  }

  /** How often proposal id took effect. */
  function Executions(s0: State, steps: seq<Step>, id: nat): nat {
    if steps == [] then 0
    else
      var front, last := steps[..|steps| - 1], steps[|steps| - 1];
      Executions(s0, front, id) + (if last.call == CallExecute(id) && Do(Run(s0, front), last).Success? then 1 else 0)
  }

  datatype Birth = Birth(action: Action, at: nat, timeLock: nat)

  /** When, and under which lock, proposal id was created. */
  function BirthOf(s0: State, steps: seq<Step>, id: nat): Option<Birth> {
    if steps == [] then None
    else
      var front, last := steps[..|steps| - 1], steps[|steps| - 1];
      var s := Run(s0, front);
      if last.call.CallCreate? && id == s.docket.count + 1 && Do(s, last).Success?
      then Some(Birth(last.call.action, last.now, LoadConfig(s).multisig.timeLock))
      else BirthOf(s0, front, id)
  }

  datatype Nomination = Nomination(nominator: Address, nominee: Address, at: nat)

  /** The latest nomination not withdrawn or accepted since, and who made it. */
  function LatestNomination(s0: State, steps: seq<Step>): Option<Nomination> {
    if steps == [] then None
    else
      var front, last := steps[..|steps| - 1], steps[|steps| - 1];
      var before := LatestNomination(s0, front);
      if Do(Run(s0, front), last).Failure? then before
      else
        match last.call
        case CallNominate(nominee) => Some(Nomination(last.caller, nominee, last.now))
        case CallAccept => None
        case CallWithdraw => None
        case _ => before
  }

  predicate Distinct(xs: seq<Address>) {
    xs == [] || (xs[|xs| - 1] !in xs[..|xs| - 1] && Distinct(xs[..|xs| - 1]))
  }

  lemma {:induction false} DistinctSize(xs: seq<Address>, who: set<Address>)
    requires Distinct(xs) && (forall x :: x in xs <==> x in who)
    ensures |xs| == |who|
  {
    if xs == [] {
      assert who == {};
    } else {
      var last, front := xs[|xs| - 1], xs[..|xs| - 1];
      assert xs == front + [last];
      DistinctSize(front, who - {last});
    }
  }

  /** What the docket says of proposal id, against the history. */
  ghost predicate Recorded(s0: State, steps: seq<Step>, id: nat) {
    var docket := Run(s0, steps).docket;
    && (id > docket.count ==> id !in docket.proposals && Endorsers(s0, steps, id) == {} &&
                              Executions(s0, steps, id) == 0 && BirthOf(s0, steps, id).None?)
    && Executions(s0, steps, id) <= 1
    && (id in docket.proposals ==>
          var p, birth := docket.proposals[id], BirthOf(s0, steps, id);
          && Executions(s0, steps, id) == 0
          && Distinct(p.approvals)
          && (forall who :: who in p.approvals <==> who in Endorsers(s0, steps, id))
          && birth.Some? && birth.value.action == p.action
          && p.executionTime == birth.value.at + birth.value.timeLock)
  }

  /** A call changes the docket by at most one proposal, and only these three calls do. */
  lemma DocketStep(s: State, e: Step)
    ensures var d, d' := s.docket, After(s, Do(s, e)).docket;
            match e.call
            case CallCreate(action) =>
              if Do(s, e).Success?
              then d' == Docket(d.count + 1, d.proposals[d.count + 1 := Proposal(e.caller, action, [e.caller], e.now, e.now + LoadConfig(s).multisig.timeLock)])
              else d' == d
            case CallApprove(id) =>
              if Do(s, e).Success?
              then id in d.proposals && e.caller !in d.proposals[id].approvals &&
                   d' == d.(proposals := d.proposals[id := d.proposals[id].(approvals := d.proposals[id].approvals + [e.caller])])
              else d' == d
            case CallExecute(id) =>
              if Do(s, e).Success? then id in d.proposals && d' == d.(proposals := d.proposals - {id}) else d' == d
            case _ => d' == d
  {
  }

  lemma {:induction false} RunIsRecorded(s0: State, steps: seq<Step>, id: nat)
    requires Fresh(s0) && id > s0.docket.count
    ensures Recorded(s0, steps, id)
  {
    if steps != [] {
      var front, e := steps[..|steps| - 1], steps[|steps| - 1];
      RunIsRecorded(s0, front, id);
      StepIsRecorded(s0, front, e, id);
      assert front + [e] == steps;
    }
  }

  lemma EndorsementSucceeds(s: State, e: Step, id: nat)
    ensures Do(s, e).Success? && e.call == CallApprove(id) ==> Endorses(s, e, id)
    ensures e.call.CallCreate? ==> (Do(s, e).Success? && id == s.docket.count + 1 <==> Endorses(s, e, id))
    ensures Endorses(s, e, id) && e.call == CallApprove(id) && !Do(s, e).Success? ==>
              id in s.docket.proposals && e.caller in s.docket.proposals[id].approvals
    ensures Endorses(s, e, id) ==> (e.call.CallCreate? && id == s.docket.count + 1) || (e.call == CallApprove(id) && id in s.docket.proposals)
  {
  }

  lemma HistoryGrows(s0: State, front: seq<Step>, e: Step, id: nat)
    ensures var s, steps := Run(s0, front), front + [e];
            && Run(s0, steps) == After(s, Do(s, e))
            && Endorsers(s0, steps, id) == Endorsers(s0, front, id) + (if Endorses(s, e, id) then {e.caller} else {})
            && Executions(s0, steps, id) ==
               Executions(s0, front, id) + (if e.call == CallExecute(id) && Do(s, e).Success? then 1 else 0)
            && BirthOf(s0, steps, id) ==
               if e.call.CallCreate? && id == s.docket.count + 1 && Do(s, e).Success?
               then Some(Birth(e.call.action, e.now, LoadConfig(s).multisig.timeLock))
               else BirthOf(s0, front, id)
  {
    assert (front + [e])[..|front|] == front;
  }

  lemma StepIsRecorded(s0: State, front: seq<Step>, e: Step, id: nat)
    requires Recorded(s0, front, id)
    ensures Recorded(s0, front + [e], id)
  {
    hide Do, Run, Endorsers, Executions, BirthOf, Endorses, CheckAccess, LoadConfig;
    var steps := front + [e];
    var s := Run(s0, front);
    HistoryGrows(s0, front, e, id);
    DocketStep(s, e);
    EndorsementSucceeds(s, e, id);
    if e.call == CallApprove(id) && Do(s, e).Success? {
      var before, after := s.docket.proposals[id].approvals, Run(s0, steps).docket.proposals[id].approvals;
      assert after[..|after| - 1] == before;
    }
    var docket := Run(s0, steps).docket;
    if id in docket.proposals {
      var p := docket.proposals[id];
      assert Distinct(p.approvals);
      assert forall who :: who in p.approvals <==> who in Endorsers(s0, steps, id);
    }
  }

  /** Main result: an open proposal's approvals are, without repetition, exactly those given by then-Staff. */
  lemma ApprovalsAreEndorsements(s0: State, steps: seq<Step>, id: nat)
    requires Fresh(s0) && id > s0.docket.count && id in Run(s0, steps).docket.proposals
    ensures var approvals := Run(s0, steps).docket.proposals[id].approvals;
            && (forall who :: who in approvals <==> who in Endorsers(s0, steps, id))
            && |approvals| == |Endorsers(s0, steps, id)|
  {
    RunIsRecorded(s0, steps, id);
    DistinctSize(Run(s0, steps).docket.proposals[id].approvals, Endorsers(s0, steps, id));
  }

  /** Ids handed out in a run start after the count the run starts from. */
  lemma {:induction false} IdsAreNew(s0: State, steps: seq<Step>)
    requires Fresh(s0)
    ensures var docket := Run(s0, steps).docket;
            s0.docket.count <= docket.count && forall id :: id in docket.proposals ==> s0.docket.count < id <= docket.count
  {
    if steps != [] {
      var front, e := steps[..|steps| - 1], steps[|steps| - 1];
      IdsAreNew(s0, front);
      DocketStep(Run(s0, front), e);
    }
  }

  /** Step k creates proposal id. */
  predicate Creates(s0: State, steps: seq<Step>, k: nat, id: nat)
    requires k < |steps|
  {
    var s := Run(s0, steps[..k]);
    steps[k].call.CallCreate? && Do(s, steps[k]).Success? && id == s.docket.count + 1
  }

  lemma {:induction false} CountGrows(s0: State, steps: seq<Step>, i: nat, j: nat)
    requires i <= j <= |steps|
    ensures Run(s0, steps[..i]).docket.count <= Run(s0, steps[..j]).docket.count
  {
    if i < j {
      CountGrows(s0, steps, i, j - 1);
      assert steps[..j][..j - 1] == steps[..j - 1];
      DocketStep(Run(s0, steps[..j - 1]), steps[j - 1]);
    }
  }

  /** A created proposal is stored under an id that was free, and that no other step of the run creates. */
  lemma IdsAreNeverReused(s0: State, steps: seq<Step>, i: nat, j: nat, id: nat)
    requires Fresh(s0) && i < |steps| && j < |steps| && Creates(s0, steps, i, id)
    ensures id !in Run(s0, steps[..i]).docket.proposals && id in Run(s0, steps[..i + 1]).docket.proposals
    ensures Creates(s0, steps, j, id) ==> j == i
  {
    IdsAreNew(s0, steps[..i]);
    assert steps[..i + 1][..i] == steps[..i] && steps[..j + 1][..j] == steps[..j];
    DocketStep(Run(s0, steps[..i]), steps[i]);
    DocketStep(Run(s0, steps[..j]), steps[j]);
    hide Do, Run;
    if i < j { CountGrows(s0, steps, i + 1, j); } else if j < i { CountGrows(s0, steps, j + 1, i); }
  }

  /** Main result: whatever takes effect was created earlier, waited out the lock of its creation, and has enough backers. */
  lemma ExecutionIsBacked(s0: State, steps: seq<Step>, e: Step)
    requires Fresh(s0) && e.call.CallExecute?
    requires Do(Run(s0, steps), e).Success?
    ensures var id, s := e.call.id, Run(s0, steps);
            var birth := BirthOf(s0, steps, id);
            && !Paused(s)
            && birth.Some?
            && |Endorsers(s0, steps, id)| >= Required(LoadConfig(s).multisig, birth.value.action)
            && e.now >= birth.value.at + birth.value.timeLock
            && Executions(s0, steps, id) == 0
            && After(s, Do(s, e)) ==
               TakeEffect(s.(docket := s.docket.(proposals := s.docket.proposals - {id})), e.now, birth.value.action)
  {
    IdsAreNew(s0, steps);
    RunIsRecorded(s0, steps, e.call.id);
    ApprovalsAreEndorsements(s0, steps, e.call.id);
  }

  lemma TakesEffectAtMostOnce(s0: State, steps: seq<Step>, id: nat)
    requires Fresh(s0) && id > s0.docket.count
    ensures Executions(s0, steps, id) <= 1
  {
    RunIsRecorded(s0, steps, id);
  }

  // ---------------------------------------------------------------- who may do what, written out

  /** Holds the role Staff or the role Admin; a plain Member or Guest does not. */
  predicate IsOfficer(roles: Roles, who: Address) { who in roles && (roles[who].role == Staff || roles[who].role == Admin) }

  /** What each level of access takes: nothing, any role but Guest, Staff or Admin, Admin. */
  lemma AccessIs(roles: Roles, who: Address, required: Role)
    ensures CheckAccess(roles, who, required) <==>
            match required
            case Guest => true
            case Member => who in roles && roles[who].role in {Member, Staff, Admin}
            case Staff => who in roles && roles[who].role in {Staff, Admin}
            case Admin => who in roles && roles[who].role == Admin
  {
  }

  lemma OfficersAreStaffOrAbove(roles: Roles, who: Address)
    ensures CheckAccess(roles, who, Staff) <==> IsOfficer(roles, who)
  {
  }

  predicate IsPaused(s: State) { s.config.Some? && s.config.value.paused }

  /** Step k of the run backs proposal id: an officer, in an unpaused contract, creates or approves it. */
  ghost predicate BacksAt(s0: State, steps: seq<Step>, k: nat, id: nat, who: Address)
    requires k < |steps|
  {
    var s, e := Run(s0, steps[..k]), steps[k];
    && e.caller == who && !IsPaused(s) && IsOfficer(s.roles, who)
    && ((e.call.CallCreate? && s.docket.count + 1 == id) || e.call == CallApprove(id))
  }

  lemma {:induction false} EndorsersBacked(s0: State, steps: seq<Step>, id: nat, who: Address)
    requires who in Endorsers(s0, steps, id)
    ensures exists k :: 0 <= k < |steps| && BacksAt(s0, steps, k, id, who)
  {
    var m := |steps| - 1;
    var front, e := steps[..m], steps[m];
    if Endorses(Run(s0, front), e, id) && e.caller == who {
      OfficersAreStaffOrAbove(Run(s0, front).roles, who);
      assert BacksAt(s0, steps, m, id, who);
    } else {
      EndorsersBacked(s0, front, id, who);
      var k :| 0 <= k < m && BacksAt(s0, front, k, id, who);
      assert steps[..k] == front[..k] && steps[k] == front[k];
      assert BacksAt(s0, steps, k, id, who);
    }
  }

  /** Main result: whoever stands among the approvals of an open proposal created or approved it as an officer of that moment. */
  lemma ApproversWereOfficers(s0: State, steps: seq<Step>, id: nat, who: Address)
    requires Fresh(s0) && id > s0.docket.count && id in Run(s0, steps).docket.proposals
    requires who in Run(s0, steps).docket.proposals[id].approvals
    ensures exists k :: 0 <= k < |steps| && BacksAt(s0, steps, k, id, who)
  {
    ApprovalsAreEndorsements(s0, steps, id);
    EndorsersBacked(s0, steps, id, who);
  }

  /** A proposal needs its approvals counted by name, and the critical number when it is for the Admin or the code. */
  ghost predicate Enough(s: State, p: Proposal) {
    var m := if s.config.Some? then s.config.value.multisig else MultiSig(1, 2, 0);
    |p.approvals| >= match p.action
                     case SetAdmin(_) => m.criticalThreshold
                     case Upgrade(_) => m.criticalThreshold
                     case SetRole(_, _) => m.threshold
                     case RemoveRole(_) => m.threshold
  }

  lemma CreateDoes(s: State, now: nat, proposer: Address, action: Action)
    ensures var o := DoCreate(s, now, proposer, action);
            var lock := if s.config.Some? then s.config.value.multisig.timeLock else 0;
            && (o == Failure(ContractPaused) <==> IsPaused(s))
            && (o == Failure(Unauthorized) <==> !IsPaused(s) && !IsOfficer(s.roles, proposer))
            && (o.Success? <==> !IsPaused(s) && IsOfficer(s.roles, proposer) && now + lock <= 0xFFFF_FFFF_FFFF_FFFF)
            && (o.Success? ==>
                  var id := s.docket.count + 1;
                  o.value == s.(docket := Docket(id, s.docket.proposals[id := Proposal(proposer, action, [proposer], now, now + lock)])))
  {
    OfficersAreStaffOrAbove(s.roles, proposer);
    hide CheckAccess;
  }

  lemma ApproveDoes(s: State, approver: Address, id: nat)
    ensures var o := DoApprove(s, approver, id);
            && (o == Failure(ContractPaused) <==> IsPaused(s))
            && (o == Failure(Unauthorized) <==> !IsPaused(s) && !IsOfficer(s.roles, approver))
            && (o.Success? <==> !IsPaused(s) && IsOfficer(s.roles, approver) && id in s.docket.proposals
                                && approver !in s.docket.proposals[id].approvals)
            && (o.Success? ==>
                  var p := s.docket.proposals[id];
                  o.value == s.(docket := s.docket.(proposals := s.docket.proposals[id := p.(approvals := p.approvals + [approver])])))
  {
    OfficersAreStaffOrAbove(s.roles, approver);
    hide CheckAccess;
  }

  /** Execution is open to anyone; it carries out the action and closes the proposal. */
  lemma ExecuteDoes(s: State, now: nat, id: nat)
    ensures var o := DoExecute(s, now, id);
            && (o.Success? <==>
                  !IsPaused(s) && id in s.docket.proposals && Enough(s, s.docket.proposals[id]) && s.docket.proposals[id].executionTime <= now)
            && (o.Success? ==>
                  var after, closed := o.value, s.docket.(proposals := s.docket.proposals - {id});
                  match s.docket.proposals[id].action
                  case SetRole(user, role) => after == s.(docket := closed, roles := s.roles[user := Membership(role, now)])
                  case RemoveRole(user) => after == s.(docket := closed, roles := s.roles - {user})
                  case SetAdmin(to) =>
                    after == s.(docket := closed, chair := s.chair.(admin := Some(to)), roles := s.roles[to := Membership(Admin, now)])
                  case Upgrade(hash) => after == s.(docket := closed, upgrade := Some(hash)))
  {
  }

  lemma InitializeDoes(s: State, now: nat, admin: Address, multisig: MultiSig)
    ensures var after := DoInitialize(s, now, admin, multisig);
            && after.chair == Chair(Some(admin), s.chair.pending) && after.config == Some(Config(multisig, false))
            && after.roles == s.roles[admin := Membership(Admin, now)] && after.docket == s.docket && after.upgrade == s.upgrade
  {
  }

  /** What only the Admin in office can do, and which of it a pause stops. */
  lemma AdminCallsDo(s: State, e: Step)
    ensures var o, isAdmin := Do(s, e), s.chair.admin == Some(e.caller);
            match e.call
            case CallSetRole(user, role) =>
              && (o.Success? <==> isAdmin && !IsPaused(s))
              && (o.Success? ==> o.value == s.(roles := s.roles[user := Membership(role, e.now)]))
            case CallRemoveRole(user) =>
              && (o.Success? <==> isAdmin && !IsPaused(s) && user in s.roles)
              && (o.Success? ==> o.value == s.(roles := s.roles - {user}))
            case CallUpdateConfig(config) =>
              (o.Success? <==> isAdmin) && (o.Success? ==> o.value == s.(config := Some(config)))
            case CallSetPaused(paused) =>
              && (o.Success? <==> isAdmin)
              && (o.Success? ==>
                    && IsPaused(o.value) == paused && LoadConfig(o.value).multisig == LoadConfig(s).multisig
                    && o.value == s.(config := o.value.config))
            case CallNominate(nominee) =>
              && (o.Success? <==> isAdmin && !IsPaused(s))
              && (o.Success? ==> o.value == s.(chair := Chair(Some(e.caller), Some(Transfer(nominee, e.now)))))
            case CallWithdraw =>
              && (o.Success? <==> isAdmin && s.chair.pending.Some?)
              && (o.Success? ==> o.value == s.(chair := Chair(Some(e.caller), None)))
            case _ => true
  {
  }

  /** The nominee takes over two days or more after the nomination. */
  lemma AcceptDoes(s: State, now: nat, caller: Address)
    ensures var o := DoAccept(s, now, caller);
            && (o.Success? <==>
                  && !IsPaused(s) && s.chair.pending.Some? && s.chair.pending.value.nominee == caller
                  && s.chair.pending.value.proposedAt + 172_800 <= Min(now, 0xFFFF_FFFF_FFFF_FFFF))
            && (o.Success? ==> o.value == s.(chair := Chair(Some(caller), None), roles := s.roles[caller := Membership(Admin, now)]))
  {
  }

  /** What each error code says about the call that got it. */
  ghost predicate Explains(s: State, e: Step, error: Error) {
    var proposal := match e.call case CallApprove(id) => Some(id) case CallExecute(id) => Some(id) case _ => None;
    var known := proposal.Some? && proposal.value in s.docket.proposals;
    match error
    case AdminNotSet => s.chair.admin == None
    case ContractPaused => IsPaused(s)
    case Unauthorized =>
      if e.call.CallCreate? || e.call.CallApprove? then !IsOfficer(s.roles, e.caller)
      else if e.call.CallAccept? then s.chair.pending.Some? && s.chair.pending.value.nominee != e.caller
      else s.chair.admin != Some(e.caller)
    case UserNotFound => e.call.CallRemoveRole? && e.call.user !in s.roles
    case ProposalNotFound => proposal.Some? && !known
    case AlreadyApproved => known && e.caller in s.docket.proposals[proposal.value].approvals
    case ThresholdNotMet => known && !Enough(s, s.docket.proposals[proposal.value])
    case TimeLockActive => known && e.now < s.docket.proposals[proposal.value].executionTime
    case NoPendingTransfer => s.chair.pending == None
    case TimelockNotExpired => s.chair.pending.Some? && e.now < s.chair.pending.value.proposedAt + 172_800
    case Trap =>
      if e.call.CallCreate? then e.now + LoadConfig(s).multisig.timeLock > 0xFFFF_FFFF_FFFF_FFFF
      else s.chair.pending.Some? && s.chair.pending.value.proposedAt + 172_800 > 0xFFFF_FFFF_FFFF_FFFF
  }

  /** Every error answered is true of the call. */
  lemma ErrorsExplain(s: State, e: Step)
    requires Do(s, e).Failure?
    ensures Explains(s, e, Do(s, e).error)
  {
    OfficersAreStaffOrAbove(s.roles, e.caller);
    hide CheckAccess;
  }

  // ---------------------------------------------------------------- who becomes Admin

  lemma {:induction false} PendingIsLatestNomination(s0: State, steps: seq<Step>)
    requires Fresh(s0)
    ensures var pending, latest := Run(s0, steps).chair.pending, LatestNomination(s0, steps);
            && (pending.Some? <==> latest.Some?)
            && (pending.Some? ==> pending.value == Transfer(latest.value.nominee, latest.value.at))
  {
    if steps != [] { PendingIsLatestNomination(s0, steps[..|steps| - 1]); }
  }

  /** Only the Admin of that moment can have made the latest nomination. */
  lemma {:induction false} NominatedByThenAdmin(s0: State, steps: seq<Step>)
    requires LatestNomination(s0, steps).Some?
    ensures var n := LatestNomination(s0, steps).value;
            exists k :: 0 <= k < |steps| && Nominates(s0, steps, k, n)
  {
    var m := |steps| - 1;
    var front, e := steps[..m], steps[m];
    var n := LatestNomination(s0, steps).value;
    if e.call.CallNominate? && Do(Run(s0, front), e).Success? {
      assert Nominates(s0, steps, m, n);
    } else {
      NominatedByThenAdmin(s0, front);
      var k :| 0 <= k < |front| && Nominates(s0, front, k, n);
      assert steps[..k] == front[..k];
      assert Nominates(s0, steps, k, n);
    }
  }

  /** Step k is the then-Admin making nomination n. */
  predicate Nominates(s0: State, steps: seq<Step>, k: nat, n: Nomination)
    requires k < |steps|
  {
    && steps[k] == Step(n.at, n.nominator, CallNominate(n.nominee))
    && Run(s0, steps[..k]).chair.admin == Some(n.nominator)
  }

  /** The only calls that replace the Admin. */
  lemma ChairStep(s: State, e: Step)
    ensures var to := After(s, Do(s, e)).chair.admin;
            to != s.chair.admin ==>
              && Do(s, e).Success?
              && (|| (e.call.CallExecute? && e.call.id in s.docket.proposals
                      && to.Some? && s.docket.proposals[e.call.id].action == SetAdmin(to.value))
                  || (e.call.CallAccept? && to == Some(e.caller) && s.chair.pending.Some?
                      && s.chair.pending.value.nominee == e.caller
                      && e.now >= s.chair.pending.value.proposedAt + ADMIN_TRANSFER_LOCK))
  {
  }

  /**
   * Main result: a step changes the Admin only by executing a backed SetAdmin, or by the nominee of the
   * latest nomination accepting at least 48 hours after it.
   */
  lemma AdminChangesOnlyTheseWays(s0: State, steps: seq<Step>, e: Step)
    requires Fresh(s0)
    ensures var s := Run(s0, steps);
            var to := After(s, Do(s, e)).chair.admin;
            to != s.chair.admin ==>
              || (&& e.call.CallExecute?
                  && (var id := e.call.id;
                      var birth := BirthOf(s0, steps, id);
                      && birth.Some? && birth.value.action.SetAdmin? && to == Some(birth.value.action.to)
                      && |Endorsers(s0, steps, id)| >= LoadConfig(s).multisig.criticalThreshold
                      && e.now >= birth.value.at + birth.value.timeLock))
              || (&& e.call.CallAccept?
                  && to == Some(e.caller)
                  && (var latest := LatestNomination(s0, steps);
                      latest.Some? && latest.value.nominee == e.caller && e.now >= latest.value.at + ADMIN_TRANSFER_LOCK))
  {
    hide Endorsers, BirthOf, LatestNomination, Run, After;
    var s := Run(s0, steps);
    ChairStep(s, e);
    if Do(s, e).Success? && e.call.CallExecute? {
      ExecutionIsBacked(s0, steps, e);
    } else {
      PendingIsLatestNomination(s0, steps);
    }
  }

  function RoleOf(s: State, user: Address): Role { if user in s.roles then s.roles[user].role else Guest }

  /** The only calls that change what a user may do. */
  lemma RoleStep(s: State, e: Step, user: Address)
    ensures var role := RoleOf(After(s, Do(s, e)), user);
            role != RoleOf(s, user) ==>
              && Do(s, e).Success?
              && (|| (s.chair.admin == Some(e.caller) && (e.call == CallSetRole(user, role) || (e.call == CallRemoveRole(user) && role.Guest?)))
                  || (e.call.CallAccept? && e.caller == user && role.Admin?)
                  || (e.call.CallExecute? && e.call.id in s.docket.proposals && Grants(s.docket.proposals[e.call.id].action, user, role)))
  {
  }

  /** Carrying out this action gives the user this role. */
  predicate Grants(a: Action, user: Address, role: Role) {
    match a
    case SetRole(u, r) => u == user && r == role
    case RemoveRole(u) => u == user && role.Guest?
    case SetAdmin(to) => to == user && role.Admin?
    case Upgrade(_) => false
  }

  /** And it does: after an execution a user whose role changed has exactly the role the action grants. */
  lemma ExecutionGrants(s: State, e: Step, user: Address, role: Role)
    requires e.call.CallExecute? && Do(s, e).Success? && RoleOf(Do(s, e).value, user) != RoleOf(s, user)
    ensures Grants(s.docket.proposals[e.call.id].action, user, role) <==> RoleOf(Do(s, e).value, user) == role
  {
  }

  /** Main result: a role changes only by the Admin's own call, by accepting a nomination, or by a backed proposal for it. */
  lemma RolesChangeOnlyTheseWays(s0: State, steps: seq<Step>, e: Step, user: Address)
    requires Fresh(s0)
    ensures var s := Run(s0, steps);
            var role := RoleOf(After(s, Do(s, e)), user);
            role != RoleOf(s, user) ==>
              || (s.chair.admin == Some(e.caller) && (e.call == CallSetRole(user, role) || (e.call == CallRemoveRole(user) && role.Guest?)))
              || (e.call.CallAccept? && e.caller == user && role.Admin?
                  && (var latest := LatestNomination(s0, steps);
                      latest.Some? && latest.value.nominee == user && e.now >= latest.value.at + ADMIN_TRANSFER_LOCK))
              || (e.call.CallExecute?
                  && (var id := e.call.id;
                      var birth := BirthOf(s0, steps, id);
                      && birth.Some? && Grants(birth.value.action, user, role)
                      && |Endorsers(s0, steps, id)| >= Required(LoadConfig(s).multisig, birth.value.action)
                      && e.now >= birth.value.at + birth.value.timeLock))
  {
    hide RoleOf, Endorsers, BirthOf, LatestNomination, Run, After;
    var s := Run(s0, steps);
    RoleStep(s, e, user);
    PendingIsLatestNomination(s0, steps);
    if Do(s, e).Success? && e.call.CallExecute? {
      ExecutionIsBacked(s0, steps, e);
      RunIsRecorded(s0, steps, e.call.id) by { IdsAreNew(s0, steps); }
    }
  }

  // ---------------------------------------------------------------- does a nominee still have the Admin's word?

  /** This call carries out a stored SetAdmin for somebody other than the Admin in office. */
  predicate Displaces(s: State, e: Step) {
    && e.call.CallExecute? && e.call.id in s.docket.proposals
    && var action := s.docket.proposals[e.call.id].action;
       action.SetAdmin? && s.chair.admin != Some(action.to)
  }

  /** This call neither makes a nomination nor clears the pending one. */
  predicate KeepsNomination(s: State, e: Step) {
    && s.chair.pending.Some?
    && (Do(s, e).Success? ==> !e.call.CallNominate? && After(s, Do(s, e)).chair.pending.Some?)
  }

  /** While a nomination is pending, a successful call leaves the Admin in office exactly when it displaces nobody. */
  lemma OfficeKeptIff(s: State, e: Step)
    requires KeepsNomination(s, e) && Do(s, e).Success?
    ensures After(s, Do(s, e)).chair.admin == s.chair.admin <==> !Displaces(s, e)
    ensures After(s, Do(s, e)).chair.pending == s.chair.pending
  {
  }

  /** Over all states of a run: nothing touches the nomination, and nobody is displaced. */
  predicate NominationUntouched(s0: State, steps: seq<Step>) {
    steps == []
    || (&& NominationUntouched(s0, steps[..|steps| - 1])
        && KeepsNomination(Run(s0, steps[..|steps| - 1]), steps[|steps| - 1]))
  }

  predicate NobodyDisplaced(s0: State, steps: seq<Step>) {
    steps == []
    || (&& NobodyDisplaced(s0, steps[..|steps| - 1])
        && var s, e := Run(s0, steps[..|steps| - 1]), steps[|steps| - 1];
           !(Do(s, e).Success? && Displaces(s, e)))
  }

  /** The Admin a run starts with is in office after every call of it. */
  predicate InOfficeThroughout(s0: State, steps: seq<Step>) {
    && Run(s0, steps).chair.admin == s0.chair.admin
    && (steps == [] || InOfficeThroughout(s0, steps[..|steps| - 1]))
  }

  lemma {:induction false} InOfficeIffNobodyDisplaced(s: State, more: seq<Step>)
    requires NominationUntouched(s, more)
    ensures InOfficeThroughout(s, more) <==> NobodyDisplaced(s, more)
  {
    if more != [] {
      var front, e := more[..|more| - 1], more[|more| - 1];
      InOfficeIffNobodyDisplaced(s, front);
      if Do(Run(s, front), e).Success? { OfficeKeptIff(Run(s, front), e); }
    }
  }

  /** Splitting a run. */
  lemma {:induction false} RunConcat(s0: State, steps: seq<Step>, more: seq<Step>)
    ensures Run(s0, steps + more) == Run(Run(s0, steps), more)
  {
    if more == [] {
      assert steps + more == steps;
    } else {
      RunConcat(s0, steps, more[..|more| - 1]);
      assert (steps + more)[..|steps| + |more| - 1] == steps + more[..|more| - 1];
    }
  }

  lemma {:induction false} NominationStands(s0: State, steps: seq<Step>, more: seq<Step>)
    requires NominationUntouched(Run(s0, steps), more)
    ensures LatestNomination(s0, steps + more) == LatestNomination(s0, steps)
  {
    if more == [] {
      assert steps + more == steps;
    } else {
      var n := |more| - 1;
      NominationStands(s0, steps, more[..n]);
      RunConcat(s0, steps, more[..n]);
      assert (steps + more)[..|steps| + n] == steps + more[..n];
    }
  }

  /**
   * Main result: a nomination just made stands while no call touches it, and its maker stays in office all
   * along exactly when no SetAdmin for somebody else is executed; an acceptance then hands over from its maker.
   */
  lemma NominatorInOfficeIff(s0: State, steps: seq<Step>, e: Step, more: seq<Step>)
    requires e.call.CallNominate? && Do(Run(s0, steps), e).Success?
    requires NominationUntouched(Run(s0, steps + [e]), more)
    ensures var made := Run(s0, steps + [e]);
            && LatestNomination(s0, steps + [e] + more) == Some(Nomination(e.caller, e.call.nominee, e.now))
            && made.chair.admin == Some(e.caller)
            && (InOfficeThroughout(made, more) <==> NobodyDisplaced(made, more))
            && (NobodyDisplaced(made, more) ==> Run(s0, steps + [e] + more).chair.admin == Some(e.caller))
  {
    var made := Run(s0, steps + [e]);
    Extend(s0, steps, e);
    NominationStands(s0, steps + [e], more);
    RunConcat(s0, steps + [e], more);
    InOfficeIffNobodyDisplaced(made, more);
  }

  lemma Extend(s0: State, steps: seq<Step>, e: Step)
    ensures var s := Run(s0, steps);
            && Run(s0, steps + [e]) == After(s, Do(s, e))
            && LatestNomination(s0, steps + [e]) ==
               if Do(s, e).Failure? then LatestNomination(s0, steps)
               else
                 match e.call
                 case CallNominate(nominee) => Some(Nomination(e.caller, nominee, e.now))
                 case CallAccept => None
                 case CallWithdraw => None
                 case _ => LatestNomination(s0, steps)
  {
    assert (steps + [e])[..|steps|] == steps;
  }

  /** Admin 1 makes 5 Staff and nominates 2; a proposal of 1, approved by 5, makes 3 the Admin. */
  lemma ReplacedAdmin(s0: State, steps: seq<Step>)
    requires s0 == DoInitialize(DEPLOYED, 0, 1, MultiSig(1, 2, 0))
    requires steps == [Step(0, 1, CallSetRole(5, Staff)), Step(0, 1, CallNominate(2)), Step(0, 1, CallCreate(SetAdmin(3))),
                       Step(0, 5, CallApprove(1)), Step(0, 5, CallExecute(1))]
    ensures Run(s0, steps).chair == Chair(Some(3), Some(Transfer(2, 0))) && !Paused(Run(s0, steps))
    ensures LatestNomination(s0, steps) == Some(Nomination(1, 2, 0))
  {
    var a, b, c, d, e := steps[0], steps[1], steps[2], steps[3], steps[4];
    assert Run(s0, []) == s0;
    hide Run, LatestNomination, CheckAccess;
    Extend(s0, [], a);
    assert [] + [a] == [a];
    Extend(s0, [a], b);
    assert [a] + [b] == [a, b];
    OfficersMayAct(Run(s0, [a, b]).roles);
    Extend(s0, [a, b], c);
    assert [a, b] + [c] == [a, b, c];
    Extend(s0, [a, b, c], d);
    assert [a, b, c] + [d] == [a, b, c, d];
    Extend(s0, [a, b, c, d], e);
    assert [a, b, c, d] + [e] == steps;
  }

  lemma OfficersMayAct(roles: Roles)
    ensures forall who :: who in roles && (roles[who].role.Admin? || roles[who].role.Staff?) ==> CheckAccess(roles, who, Staff)
  {
  }

  /** The displaced case is reachable from deployment: the old Admin's nominee accepts under the new Admin. */
  lemma StaleNominationSucceeds()
    ensures exists admin: Address, multisig: MultiSig, steps: seq<Step>, e: Step ::
              var s0 := DoInitialize(DEPLOYED, 0, admin, multisig);
              && e.call.CallAccept? && Do(Run(s0, steps), e).Success?
              && LatestNomination(s0, steps).Some?
              && Run(s0, steps).chair.admin != Some(LatestNomination(s0, steps).value.nominator)
  {
    var s0 := DoInitialize(DEPLOYED, 0, 1, MultiSig(1, 2, 0));
    var steps := [Step(0, 1, CallSetRole(5, Staff)), Step(0, 1, CallNominate(2)), Step(0, 1, CallCreate(SetAdmin(3))),
                  Step(0, 5, CallApprove(1)), Step(0, 5, CallExecute(1))];
    ReplacedAdmin(s0, steps);
    hide Run, LatestNomination, DoInitialize;
    assert Do(Run(s0, steps), Step(ADMIN_TRANSFER_LOCK, 2, CallAccept)).Success?;
  }

  /** Runs after one initialization of a new contract start as the theorems above ask. */
  lemma InitializedIsFresh(now: nat, admin: Address, multisig: MultiSig)
    ensures Fresh(DoInitialize(DEPLOYED, now, admin, multisig))
  {
  }

  /**
   * From deployment: each new Admin after the first is put in by Staff in number, after the lock of their
   * proposal, or nominated by the Admin of some earlier moment and accepting two days later.
   */
  lemma AdminsAfterDeployment(now: nat, admin: Address, multisig: MultiSig, steps: seq<Step>, e: Step)
    ensures var s0 := DoInitialize(DEPLOYED, now, admin, multisig);
            var s := Run(s0, steps);
            var to := After(s, Do(s, e)).chair.admin;
            to != s.chair.admin ==>
              || (&& e.call.CallExecute?
                  && var birth := BirthOf(s0, steps, e.call.id);
                     && birth.Some? && birth.value.action.SetAdmin? && to == Some(birth.value.action.to)
                     && |Endorsers(s0, steps, e.call.id)| >= LoadConfig(s).multisig.criticalThreshold
                     && e.now >= birth.value.at + birth.value.timeLock)
              || (&& e.call.CallAccept? && to == Some(e.caller)
                  && exists k, n :: 0 <= k < |steps| && Nominates(s0, steps, k, n) && n.nominee == e.caller && e.now >= n.at + ADMIN_TRANSFER_LOCK)
  {
    var s0 := DoInitialize(DEPLOYED, now, admin, multisig);
    InitializedIsFresh(now, admin, multisig);
    AdminChangesOnlyTheseWays(s0, steps, e);
    hide Run, Do, After, BirthOf, Endorsers, LatestNomination, DoInitialize, Nominates;
    if LatestNomination(s0, steps).Some? { NominatedByThenAdmin(s0, steps); }
  }

  // ---------------------------------------------------------------- the contract

  /** The new state and the answer are those of `o`. */
  ghost predicate Answered(before: State, o: Outcome, after: State, r: Result<(), Error>) {
    && after == After(before, o)
    && (o.Success? ==> r == Success(()))
    && (o.Failure? ==> r == Failure(o.error))
  }

  class Contract {
    var admin: Option<Address>
    var pendingAdmin: Option<Transfer>
    var config: Option<Config>
    var roles: Roles
    var proposalCount: nat
    var proposals: map<nat, Proposal>
    var pendingUpgrade: Option<nat>

    ghost function Abs(): State
      reads this
    {
      State(Chair(admin, pendingAdmin), config, roles, Docket(proposalCount, proposals), pendingUpgrade)
    }

    constructor ()
      ensures Abs() == DEPLOYED
    {
      admin, pendingAdmin, config, roles := None, None, None, map[];
      proposalCount, proposals, pendingUpgrade := 0, map[], None;
    }

    method Initialize(now: nat, newAdmin: Address, multisig: MultiSig)
      modifies this
      ensures Abs() == DoInitialize(old(Abs()), now, newAdmin, multisig)
    {
      admin := Some(newAdmin);
      config := Some(Config(multisig, false));
      roles := roles[newAdmin := Membership(Admin, now)];
    }

    method ReadConfig() returns (c: Config)
      ensures c == LoadConfig(Abs())
    {
      c := DEFAULT_CONFIG;
      if config.Some? { c := config.value; }
    }

    method CheckAdmin(caller: Address) returns (refusal: Option<Error>)
      ensures refusal == RequireAdmin(Abs(), caller)
    {
      if admin.None? { return Some(AdminNotSet); }
      if caller != admin.value { return Some(Unauthorized); }
      refusal := None;
    }

    method AssignRole(now: nat, caller: Address, user: Address, role: Role) returns (r: Result<(), Error>)
      modifies this
      ensures Answered(old(Abs()), DoSetRole(old(Abs()), now, caller, user, role), Abs(), r)
    {
      var c := ReadConfig();
      if c.paused { return Failure(ContractPaused); }
      var refusal := CheckAdmin(caller);
      if refusal.Some? { return Failure(refusal.value); }
      roles := roles[user := Membership(role, now)];
      r := Success(());
    }

    method DropRole(caller: Address, user: Address) returns (r: Result<(), Error>)
      modifies this
      ensures Answered(old(Abs()), DoRemoveRole(old(Abs()), caller, user), Abs(), r)
    {
      var c := ReadConfig();
      if c.paused { return Failure(ContractPaused); }
      var refusal := CheckAdmin(caller);
      if refusal.Some? { return Failure(refusal.value); }
      if user !in roles { return Failure(UserNotFound); }
      roles := roles - {user};
      r := Success(());
    }

    method UpdateConfig(caller: Address, newConfig: Config) returns (r: Result<(), Error>)
      modifies this
      ensures Answered(old(Abs()), DoUpdateConfig(old(Abs()), caller, newConfig), Abs(), r)
    {
      var refusal := CheckAdmin(caller);
      if refusal.Some? { return Failure(refusal.value); }
      config := Some(newConfig);
      r := Success(());
    }

    method SetPaused(caller: Address, paused: bool) returns (r: Result<(), Error>)
      modifies this
      ensures Answered(old(Abs()), DoSetPaused(old(Abs()), caller, paused), Abs(), r)
    {
      var refusal := CheckAdmin(caller);
      if refusal.Some? { return Failure(refusal.value); }
      var c := ReadConfig();
      config := Some(c.(paused := paused));
      r := Success(());
    }

    method CreateProposal(now: nat, proposer: Address, action: Action) returns (r: Result<(), Error>, id: nat)
      modifies this
      ensures Answered(old(Abs()), DoCreate(old(Abs()), now, proposer, action), Abs(), r)
      ensures r.Success? ==> id == old(proposalCount) + 1 && id in proposals
    {
      id := 0;
      var c := ReadConfig();
      if c.paused { return Failure(ContractPaused), id; }
      if !CheckAccess(roles, proposer, Staff) { return Failure(Unauthorized), id; }
      if now + c.multisig.timeLock > U64_MAX { return Failure(Trap), id; }
      id := proposalCount + 1;
      proposalCount := id;
      proposals := proposals[id := Proposal(proposer, action, [proposer], now, now + c.multisig.timeLock)];
      r := Success(());
    }

    method ApproveProposal(approver: Address, id: nat) returns (r: Result<(), Error>)
      modifies this
      ensures Answered(old(Abs()), DoApprove(old(Abs()), approver, id), Abs(), r)
    {
      var c := ReadConfig();
      if c.paused { return Failure(ContractPaused); }
      if !CheckAccess(roles, approver, Staff) { return Failure(Unauthorized); }
      if id !in proposals { return Failure(ProposalNotFound); }
      var p := proposals[id];
      if approver in p.approvals { return Failure(AlreadyApproved); }
      p := p.(approvals := p.approvals + [approver]);
      proposals := proposals[id := p];
      r := Success(());
    }

    method ExecuteProposal(now: nat, id: nat) returns (r: Result<(), Error>)
      modifies this
      ensures Answered(old(Abs()), DoExecute(old(Abs()), now, id), Abs(), r)
    {
      var c := ReadConfig();
      if c.paused { return Failure(ContractPaused); }
      if id !in proposals { return Failure(ProposalNotFound); }
      var p := proposals[id];
      var required := if Critical(p.action) then c.multisig.criticalThreshold else c.multisig.threshold;
      if |p.approvals| < required { return Failure(ThresholdNotMet); }
      if now < p.executionTime { return Failure(TimeLockActive); }
      match p.action {
        case SetRole(user, role) =>
          roles := roles[user := Membership(role, now)];
        case RemoveRole(user) =>
          roles := roles - {user};
        case SetAdmin(to) =>
          admin := Some(to);
          roles := roles[to := Membership(Admin, now)];
        case Upgrade(hash) =>
          pendingUpgrade := Some(hash);
      }
      proposals := proposals - {id};
      r := Success(());
    }

    method ProposeAdminTransfer(now: nat, caller: Address, nominee: Address) returns (r: Result<(), Error>)
      modifies this
      ensures Answered(old(Abs()), DoNominate(old(Abs()), now, caller, nominee), Abs(), r)
    {
      var c := ReadConfig();
      if c.paused { return Failure(ContractPaused); }
      var refusal := CheckAdmin(caller);
      if refusal.Some? { return Failure(refusal.value); }
      pendingAdmin := Some(Transfer(nominee, now));
      r := Success(());
    }

    method AcceptAdminTransfer(now: nat, caller: Address) returns (r: Result<(), Error>)
      modifies this
      ensures Answered(old(Abs()), DoAccept(old(Abs()), now, caller), Abs(), r)
    {
      var c := ReadConfig();
      if c.paused { return Failure(ContractPaused); }
      if pendingAdmin.None? { return Failure(NoPendingTransfer); }
      var pending := pendingAdmin.value;
      if caller != pending.nominee { return Failure(Unauthorized); }
      if pending.proposedAt + ADMIN_TRANSFER_LOCK > U64_MAX { return Failure(Trap); }
      if now < pending.proposedAt + ADMIN_TRANSFER_LOCK { return Failure(TimelockNotExpired); }
      admin := Some(caller);
      roles := roles[caller := Membership(Admin, now)];
      pendingAdmin := None;
      r := Success(());
    }

    method CancelAdminTransfer(caller: Address) returns (r: Result<(), Error>)
      modifies this
      ensures Answered(old(Abs()), DoWithdraw(old(Abs()), caller), Abs(), r)
    {
      var refusal := CheckAdmin(caller);
      if refusal.Some? { return Failure(refusal.value); }
      if pendingAdmin.None? { return Failure(NoPendingTransfer); }
      pendingAdmin := None;
      r := Success(());
    }
  }
}
