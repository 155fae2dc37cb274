/** Platform and account kill switches with monotone safety epochs, and the authority guard
    that compares a command's authorization with them. */
module KillSwitches {
  import opened Numbers
  import Execution

  datatype Scope = Platform | Account

  datatype Switch = Switch(scope: Scope, active: bool, epoch: nat, account: Option<int>)

  datatype Request = Request(switch: Switch, steppedUp: bool, healthy: bool)

  /** `update_kill_switch`. */
  function Updated(previous: Option<Switch>, r: Request): Result<Switch, string> {
    if !r.steppedUp then Failure("kill-switch changes require step-up verification")
    else if previous.Some? && previous.value.scope != r.switch.scope then Failure("kill-switch scope cannot change")
    else if r.switch.scope == Account && r.switch.account.None?
    then Failure("account kill switch requires account scope")
    else if previous.Some? && previous.value.active && !r.switch.active && !r.healthy
    then Failure("kill-switch deactivation requires fresh broker/account health")
    else Success(r.switch.(epoch := if previous.Some? then previous.value.epoch + 1 else 1))
  }

  /** An update is accepted exactly with step-up verification, for an unchanged scope with its account, and with
      fresh health where it turns an active switch off; it stores the request under the next epoch. */
  lemma UpdateAcceptedExactly(previous: Option<Switch>, r: Request)
    ensures Updated(previous, r).Success? <==>
      && r.steppedUp
      && (r.switch.scope == Account ==> r.switch.account.Some?)
      && (previous.Some? ==> previous.value.scope == r.switch.scope)
      && (previous.Some? && previous.value.active && !r.healthy ==> r.switch.active)
    ensures Updated(previous, r).Success? ==>
      var next := Updated(previous, r).value;
      && next.active == r.switch.active && next.scope == r.switch.scope && next.account == r.switch.account
      && next.epoch == if previous.None? then 1 else previous.value.epoch + 1
  {
  }

  /** A switch nobody has set is inactive at epoch zero. */
  function Current(record: Option<Switch>, scope: Scope, account: Option<int>): Switch {
    if record.Some? then record.value else Switch(scope, false, 0, account)
  }

  /** The persisted record after a run of requests; refused requests change nothing. */
  function RecordAfter(record: Option<Switch>, requests: seq<Request>): Option<Switch> {
    if requests == [] then record
    else
      var before := RecordAfter(record, requests[..|requests| - 1]);
      var r := Updated(before, requests[|requests| - 1]);
      if r.Success? then Some(r.value) else before
  }

  /** How many of the requests were accepted. */
  function Updates(record: Option<Switch>, requests: seq<Request>): nat {
    if requests == [] then 0
    else
      Updates(record, requests[..|requests| - 1])
        + if Updated(RecordAfter(record, requests[..|requests| - 1]), requests[|requests| - 1]).Success? then 1 else 0
  }

  /** The epoch counts accepted updates. */
  lemma {:induction false} EpochCountsUpdates(record: Option<Switch>, requests: seq<Request>, scope: Scope,
                                              account: Option<int>)
    ensures Current(RecordAfter(record, requests), scope, account).epoch
         == Current(record, scope, account).epoch + Updates(record, requests)
    ensures Updates(record, requests) == 0 ==> RecordAfter(record, requests) == record
    decreases |requests|
  {
    if requests != [] {
      EpochCountsUpdates(record, requests[..|requests| - 1], scope, account);
    }
  }

  // ----- authorization and the authority guard

  datatype Action = PlaceOrder | CancelOrder | ChangeStop | ChangeTarget | PartialClose | FullExit

  datatype Permissions = Permissions(newEntry: bool, cancellation: bool, stop: bool, target: bool, partial: bool,
                                     exit: bool)

  predicate Allows(p: Permissions, a: Action) {
    match a
    case PlaceOrder => p.newEntry
    case CancelOrder => p.cancellation
    case ChangeStop => p.stop
    case ChangeTarget => p.target
    case PartialClose => p.partial
    case FullExit => p.exit
  }

  datatype PlanState = Constructed | ValidatingPlan | BlockedPlan | Ready | AuthorizedPlan | ExecutionPending
    | Executing | ActivePlan | ExpiredPlan | CancelledPlan | RevalidationRequired

  // `payload` is the postcondition an entry command of this plan must request.
  datatype Plan = Plan(id: int, account: int, state: PlanState, hardBlocked: bool, hasTicket: bool,
                       payload: Execution.Postcondition, expiresAt: int)

  datatype Authorization = Authorization(id: int, account: int, action: Action, platformEpoch: nat, accountEpoch: nat,
                                         expiresAt: int)

  datatype Order = Order(account: int, action: Action, authorization: int, payload: Execution.Postcondition)

  predicate MayAuthorize(a: Action, s: PlanState) {
    if a == PlaceOrder then s == Ready || s == AuthorizedPlan
    else s == ActivePlan || s == AuthorizedPlan || s == ExecutionPending
  }

  /** `authorize_action`; an entry also marks the plan authorized. */
  function Authorize(id: int, plan: Plan, a: Action, p: Permissions, platform: Switch, account: Switch, now: int,
                     ttl: int): Result<Authorization, string> {
    if !MayAuthorize(a, plan.state) then Failure("trade plan is not eligible for the requested action")
    else if a == PlaceOrder && plan.expiresAt <= now then Failure("trade plan has expired")
    else if plan.hardBlocked then Failure("hard-blocked trade plans cannot be authorized")
    else if !Allows(p, a) then Failure("permission is disabled")
    else if platform.active || account.active then Failure("platform or account kill switch is active")
    else Success(Authorization(id, plan.account, a, platform.epoch, account.epoch, now + ttl))
  }

  /** The guard compares every entry field but the list of later targets. */
  predicate SameOrder(asked: Execution.Postcondition, planned: Execution.Postcondition) {
    asked.Entry? && planned.Entry? && asked.(targets := planned.targets) == planned
  }

  predicate MayExecute(a: Action, s: PlanState) {
    || s == AuthorizedPlan || s == ExecutionPending
    || (a != PlaceOrder && s == ActivePlan)
  }

  /** `assert_command_authority`: every guard in turn; `None` is acceptance. */
  function AuthorityError(o: Order, auth: Authorization, plan: Plan, p: Permissions, platform: Switch, account: Switch,
                          now: int): Option<string> {
    if o.account != auth.account || o.account != plan.account
    then Some("command, authorization, and plan account scopes differ")
    else if o.authorization != auth.id then Some("command is not bound to the supplied authorization")
    else if auth.expiresAt <= now || (o.action == PlaceOrder && plan.expiresAt <= now)
    then Some("authorization or trade plan expired")
    else if !MayExecute(o.action, plan.state) then Some("trade plan is not authorized")
    else if auth.action != o.action then Some("authorization does not permit the requested action")
    else if plan.hardBlocked then Some("hard-blocked risk result cannot execute")
    else if o.action == PlaceOrder && plan.hasTicket && !SameOrder(o.payload, plan.payload)
    then Some("entry command differs from authorized broker-sized Trade Plan")
    else if !Allows(p, o.action) then Some("action is disabled for the account")
    else if platform.active || account.active then Some("kill switch is active")
    else if auth.platformEpoch != platform.epoch || auth.accountEpoch != account.epoch
    then Some("kill-switch safety epoch changed")
    else None
  }

  lemma AuthorizedRecordsEpochs(id: int, plan: Plan, a: Action, p: Permissions, platform: Switch, account: Switch,
                                now: int, ttl: int)
    ensures var r := Authorize(id, plan, a, p, platform, account, now, ttl);
      r.Success? ==>
        && !platform.active && !account.active
        && r.value == Authorization(id, plan.account, a, platform.epoch, account.epoch, now + ttl)
  {
  }

  lemma AcceptedComparesEpochs(o: Order, auth: Authorization, plan: Plan, p: Permissions, platform: Switch,
                               account: Switch, now: int)
    ensures AuthorityError(o, auth, plan, p, platform, account, now).None? ==>
      && auth.platformEpoch == platform.epoch && auth.accountEpoch == account.epoch
      && o.action == auth.action && o.account == auth.account && now < auth.expiresAt
  {
  }

  /** No ABA: if a command is accepted after any run of kill-switch requests since its authorization,
      then none of them was accepted, not even on and off again, and both switches were inactive at
      authorization and are inactive now. */
  lemma AcceptedMeansSwitchesUntouched(
      id: int, atPlan: Plan, a: Action, atPermissions: Permissions, authorizedAt: int, ttl: int,
      platform: Option<Switch>, account: Option<Switch>, accountId: Option<int>,
      platformRequests: seq<Request>, accountRequests: seq<Request>,
      o: Order, plan: Plan, p: Permissions, now: int)
    requires
      var auth := Authorize(id, atPlan, a, atPermissions, Current(platform, Platform, None),
                            Current(account, Account, accountId), authorizedAt, ttl);
      && auth.Success?
      && AuthorityError(o, auth.value, plan, p,
                        Current(RecordAfter(platform, platformRequests), Platform, None),
                        Current(RecordAfter(account, accountRequests), Account, accountId), now).None?
    ensures Updates(platform, platformRequests) == 0 && Updates(account, accountRequests) == 0
    ensures RecordAfter(platform, platformRequests) == platform && RecordAfter(account, accountRequests) == account
    ensures !Current(platform, Platform, None).active && !Current(account, Account, accountId).active
    ensures o.action == a && o.account == atPlan.account && now < authorizedAt + ttl
  {
    hide Authorize, AuthorityError, RecordAfter, Updates, Updated;
    var platform', account' := RecordAfter(platform, platformRequests), RecordAfter(account, accountRequests);
    AuthorizedRecordsEpochs(id, atPlan, a, atPermissions, Current(platform, Platform, None),
                            Current(account, Account, accountId), authorizedAt, ttl);
    var auth := Authorize(id, atPlan, a, atPermissions, Current(platform, Platform, None),
                          Current(account, Account, accountId), authorizedAt, ttl).value;
    AcceptedComparesEpochs(o, auth, plan, p, Current(platform', Platform, None), Current(account', Account, accountId),
                           now);
    EpochCountsUpdates(platform, platformRequests, Platform, None);
    EpochCountsUpdates(account, accountRequests, Account, accountId);
  }

  /** The guard refuses a command as soon as one update was accepted, whatever it set. */
  lemma AnyUpdateRevokes(
      auth: Authorization, platform: Option<Switch>, account: Option<Switch>, accountId: Option<int>,
      platformRequests: seq<Request>, accountRequests: seq<Request>, o: Order, plan: Plan, p: Permissions, now: int)
    requires auth.platformEpoch == Current(platform, Platform, None).epoch
    requires auth.accountEpoch == Current(account, Account, accountId).epoch
    requires Updates(platform, platformRequests) + Updates(account, accountRequests) > 0
    ensures AuthorityError(o, auth, plan, p,
                           Current(RecordAfter(platform, platformRequests), Platform, None),
                           Current(RecordAfter(account, accountRequests), Account, accountId), now).Some?
  {
    hide AuthorityError, RecordAfter, Updates, Updated;
    var platform', account' := RecordAfter(platform, platformRequests), RecordAfter(account, accountRequests);
    AcceptedComparesEpochs(o, auth, plan, p, Current(platform', Platform, None), Current(account', Account, accountId),
                           now);
    EpochCountsUpdates(platform, platformRequests, Platform, None);
    EpochCountsUpdates(account, accountRequests, Account, accountId);
  }
}
