/** Entry queueing: one transaction revalidates a plan against live terms and current risk, reserves,
    authorizes and queues a command, or changes nothing it was not meant to change. */
module Coordinator {
  import opened Numbers
  import opened Risk
  import opened Reservations
  import P = RiskProofs
  import E = Execution
  import K = KillSwitches

  datatype TradePlan = TradePlan(
    id: int, owner: int, account: int, state: K.PlanState, decision: Decision, candidateRisk: real, size: real,
    instrument: string, category: string, kind: Instrument, hasContract: bool,
    venue: string, specification: string,
    side: P.Side, entry: real, stop: real, targets: seq<real>, ticket: Option<P.Ticket>, expiresAt: int,
    reservation: Option<nat>, authorization: Option<K.Authorization>, command: Option<int>, version: nat)

  // A persisted command; its attempts and outcome are written later.
  datatype CommandRow = CommandRow(
    id: int, account: int, plan: int, authorization: int, key: string, payload: E.Postcondition,
    state: E.CommandState, version: nat)

  // Native terms of the plan's instrument specification.
  datatype NativeTerms = NativeTerms(step: real, multiplier: real, tickSize: real, tickValue: Option<real>,
                                     financing: real)

  // What the transaction reads: broker snapshot freshness, live terms, the effective specification,
  // and the account's risk context with the reservations of the moment left out.
  datatype Reads = Reads(
    snapshotFresh: bool, terms: Result<P.Terms, string>, native: Option<NativeTerms>,
    context: Result<Context, string>, currencyVerified: bool)

  // What it reads to authorize, and the identities it draws.
  datatype Gate = Gate(
    permissions: K.Permissions, platform: K.Switch, account: K.Switch, now: int,
    commandId: int, authorizationId: int, key: string)

  datatype Books = Books(plans: map<int, TradePlan>, reservations: Table, commands: seq<CommandRow>)

  const AUTHORIZATION_TTL := 60_000_000
  const RESERVATION_TTL := 600_000_000

  // ----- revalidation

  function Ticks(plan: TradePlan): seq<Option<real>>
    requires plan.ticket.Some?
  {
    var scenarios := plan.ticket.value.targets;
    seq(|scenarios|, i requires 0 <= i < |scenarios| => scenarios[i].fraction)
  }

  predicate ValidCandidate(c: CandidateTrade) {
    c.requestedSize > 0.0 && c.entry > 0.0 && c.stop > 0.0 && c.riskPerUnit > 0.0 && c.increment > 0.0
      && c.financing >= 0.0
  }

  /** The candidate built from the plan and its specification; live terms replace the native ones. */
  function TypedCandidate(plan: TradePlan, native: Option<NativeTerms>,
                          terms: Option<P.Terms>): Result<Candidate, string> {
    if native.None? then Failure("fresh effective instrument specification is required")
    else if plan.candidateRisk > 0.0 && plan.size == 0.0 then Failure("division by zero")
    else
      var perUnit := if plan.candidateRisk > 0.0 then plan.candidateRisk / plan.size else Abs(plan.entry - plan.stop);
      var c := Construct(plan, native.value, perUnit);
      if perUnit <= 0.0 then Failure("bounded positive Stop Loss risk is required")
      else if !ValidCandidate(c) then Failure("invalid candidate")
      else if terms.None? then
        var typed: Candidate := c;
        Success(typed)
      else if terms.value.step <= 0.0 then Failure("invalid quantity step")
      else
        var live: Candidate := P.WithTerms(c, terms.value);
        Success(live)
  }

  function Construct(plan: TradePlan, n: NativeTerms, perUnit: real): CandidateTrade {
    CandidateTrade(plan.category, None, map[], plan.size, plan.entry, plan.stop, perUnit, n.step, n.financing,
                   Some(plan.kind), true, Some(plan.specification), true, plan.hasContract, n.multiplier,
                   Some(n.tickSize), n.tickValue)
  }

  function InContext(ctx: Context, t: Table, owner: int, account: int): Context {
    ctx.(reservations := ActiveAmounts(t, owner, account))
  }

  /** Why live terms stop the plan, if they do. */
  function TermsError(plan: TradePlan, terms: Result<P.Terms, string>): Option<string>
    requires plan.ticket.Some?
  {
    if terms.Failure? then Some(terms.error)
    else if plan.ticket.value.currency != terms.value.currency
    then Some("account currency changed since the Trade Plan was built")
    else P.SizeError(terms.value, plan.size)
  }

  predicate PerTradeLimitStands(ctx: Context) {
    var limit := Limit(ctx.constraints, MaxRiskPerTrade);
    limit.Some? && limit.value.hard && limit.value.value > 0.0
  }

  datatype Phase = Refuse(error: string) | Stop | Block(blocked: TradePlan) | Proceed(plan: TradePlan, verdict: Verdict)

  /** Everything before the reservation. */
  function Revalidated(plan: TradePlan, r: Reads, t: Table): Phase {
    var ticketed := plan.ticket.Some?;
    if plan.state == K.BlockedPlan || plan.decision == HardBlock then Stop
    else if !r.snapshotFresh then Refuse("fresh broker snapshot is required")
    else if ticketed && TermsError(plan, r.terms).Some? then Block(plan.(state := K.BlockedPlan))
    else
      var candidate := TypedCandidate(plan, r.native, if ticketed then Some(r.terms.value) else None);
      if candidate.Failure? then Refuse(candidate.error)
      else if r.context.Failure? then Refuse(r.context.error)
      else Judged(plan, r, InContext(r.context.value, t, plan.owner, plan.account), candidate.value)
  }

  function Judged(plan: TradePlan, r: Reads, ctx: Context, cand: Candidate): Phase
    requires plan.ticket.Some? ==> r.terms.Success?
  {
    var ticketed := plan.ticket.Some?;
    match Evaluated(ctx, cand)
    case Raised(reason) => Refuse(reason)
    case Decided(v) =>
      if v.decision == HardBlock || (ticketed && (!r.currencyVerified || !PerTradeLimitStands(ctx)))
      then Block(plan.(state := K.BlockedPlan, decision := HardBlock, candidateRisk := v.candidateRisk))
      else
        var sized := plan.(decision := v.decision, candidateRisk := v.candidateRisk, size := v.approvedSize);
        if !ticketed then Proceed(sized, v)
        else
          var ticket := P.BuildTicket(r.terms.value, plan.kind, plan.side, plan.entry, plan.stop, plan.targets,
                                      Ticks(plan),
                                      Limit(ctx.constraints, MaxRiskPerTrade).value.value, v);
          if ticket.Failure? then Block(sized.(state := K.BlockedPlan))
          else Proceed(sized.(ticket := Some(ticket.value)), v)
  }

  // ----- reservation, authorization, command

  /** The plan as the authorization sees it. */
  function Guarded(plan: TradePlan): K.Plan {
    var nothing := E.Management("no target", E.Requested(None, None, None, None, None));
    K.Plan(plan.id, plan.account, plan.state, plan.decision == HardBlock, plan.ticket.Some?,
           if plan.targets == [] then nothing else Payload(plan), plan.expiresAt)
  }

  /** The requested postcondition of an entry; the first target is the broker's take-profit. */
  function Payload(plan: TradePlan): E.Postcondition
    requires plan.targets != []
  {
    var maxLoss := if plan.ticket.Some? then Some(plan.candidateRisk) else None;
    E.Entry(plan.instrument, if plan.side == P.Buy then "BUY" else "SELL", plan.size, plan.entry, plan.stop,
            plan.targets, plan.targets[0], maxLoss, plan.venue, plan.specification)
  }

  function Row(plan: TradePlan, g: Gate): CommandRow
    requires plan.targets != []
  {
    CommandRow(g.commandId, plan.account, plan.id, g.authorizationId, g.key, Payload(plan), E.Queued, 3)
  }

  function FindId(rows: seq<CommandRow>, id: int): (found: Option<nat>)
    ensures found.Some? ==> found.value < |rows| && rows[found.value].id == id
    ensures found.None? ==> forall i :: 0 <= i < |rows| ==> rows[i].id != id
  {
    LastIndex(rows, (r: CommandRow) => r.id == id)
  }

  function FindKey(rows: seq<CommandRow>, key: string): (found: Option<nat>)
    ensures found.Some? ==> found.value < |rows| && rows[found.value].key == key
    ensures found.None? ==> forall i :: 0 <= i < |rows| ==> rows[i].key != key
  {
    LastIndex(rows, (r: CommandRow) => r.key == key)
  }

  /** `persist_command`: the row that now stands for the command. */
  function Persisted(rows: seq<CommandRow>, row: CommandRow): Result<CommandRow, string> {
    var same, bound := FindId(rows, row.id), FindKey(rows, row.key);
    if same.Some? then
      if rows[same.value].key != row.key then Failure("command id is bound to a different idempotency identity")
      else Success(rows[same.value])
    else if bound.Some? then
      if rows[bound.value].payload != row.payload
      then Failure("idempotency key is bound to a different command payload")
      else Success(rows[bound.value])
    else Success(row)
  }

  function WithRow(rows: seq<CommandRow>, row: CommandRow): seq<CommandRow> {
    if FindId(rows, row.id).None? && FindKey(rows, row.key).None? then rows + [row] else rows
  }

  datatype Outcome = Refused(error: string) | Halted(plan: TradePlan) | Entered(plan: TradePlan, command: CommandRow)

  datatype Effect = Effect(books: Books, outcome: Outcome)

  /** The claim half: reserve, authorize, mark the reservation pending, queue the command. */
  function Claimed(b: Books, plan: TradePlan, v: Verdict, g: Gate): Result<Effect, string> {
    var grant := Reserved(b.reservations, true, plan.owner, plan.account, plan.id, v.candidateRisk,
                          v.remainingPortfolio, g.now, RESERVATION_TTL);
    if grant.Failure? then Failure(grant.error)
    else
      var auth := K.Authorize(g.authorizationId, Guarded(plan), K.PlaceOrder, g.permissions, g.platform, g.account,
                              g.now, AUTHORIZATION_TTL);
      if auth.Failure? then Failure(auth.error)
      else if plan.targets == [] then Failure("list index out of range")
      else Recorded(b, plan, grant.value, auth.value, g)
  }

  /** The writes that follow an authorization. */
  function Recorded(b: Books, plan: TradePlan, grant: Granted, auth: K.Authorization, g: Gate): Result<Effect, string>
    requires plan.targets != []
  {
    var pending := Transitioned(grant.table, grant.id, plan.owner,
                                Change(CommandPending, Some(g.commandId), None, None));
    var stored := Persisted(b.commands, Row(plan, g));
    if pending.Failure? then Failure(pending.error)
    else if stored.Failure? then Failure(stored.error)
    else
      var queued := plan.(reservation := Some(grant.id), authorization := Some(auth), state := K.ExecutionPending,
                          command := Some(g.commandId), version := plan.version + 1);
      Success(Effect(Books(b.plans[plan.id := queued], pending.value, WithRow(b.commands, Row(plan, g))),
                     Entered(queued, stored.value)))
  }

  /** `persist_trade_plan`: a known plan keeps its record. */
  function Saved(b: Books, plan: TradePlan): Books {
    if plan.id in b.plans then b else b.(plans := b.plans[plan.id := plan])
  }

  /** The whole transaction; a refusal rolls everything back. */
  function Queueing(b: Books, plan: TradePlan, r: Reads, g: Gate): Effect {
    match Revalidated(plan, r, b.reservations)
    case Refuse(error) => Effect(b, Refused(error))
    case Stop => Effect(Saved(b, plan), Halted(Saved(b, plan).plans[plan.id]))
    case Block(blocked) => Effect(b.(plans := b.plans[plan.id := blocked]), Halted(blocked))
    case Proceed(sized, v) =>
      var claim := Claimed(Saved(b, plan), sized, v, g);
      if claim.Failure? then Effect(b, Refused(claim.error)) else claim.value
  }

  // ----- the coordinator

  class EntryCoordinator {
    var plans: map<int, TradePlan>
    var commands: seq<CommandRow>
    const store: ReservationStore

    constructor ()
      ensures Current() == Books(map[], [], []) && fresh(store)
    {
      plans, commands := map[], [];
      store := new ReservationStore();
    }

    function Current(): Books
      reads this, store
    {
      Books(plans, store.records, commands)
    }

    method PersistTradePlan(plan: TradePlan)
      modifies this`plans
      ensures Current() == Saved(old(Current()), plan)
    {
      if plan.id !in plans {
        plans := plans[plan.id := plan];
      }
    }

    method PersistCommand(row: CommandRow) returns (r: Result<CommandRow, string>)
      modifies this`commands
      ensures r == Persisted(old(commands), row)
      ensures commands == if r.Success? then WithRow(old(commands), row) else old(commands)
    {
      var same := FindId(commands, row.id);
      if same.Some? {
        if commands[same.value].key != row.key {
          return Failure("command id is bound to a different idempotency identity");
        }
        return Success(commands[same.value]);
      }
      var bound := FindKey(commands, row.key);
      if bound.Some? {
        if commands[bound.value].payload != row.payload {
          return Failure("idempotency key is bound to a different command payload");
        }
        return Success(commands[bound.value]);
      }
      commands := commands + [row];
      return Success(row);
    }

    /** Terms, candidate, context and risk, in the order they are read. */
    method Revalidate(plan: TradePlan, r: Reads) returns (phase: Phase)
      ensures phase == Revalidated(plan, r, store.records)
    {
      hide Evaluated, P.BuildTicket, P.SizeError, Limit, ActiveAmounts, TypedCandidate;
      if plan.state == K.BlockedPlan || plan.decision == HardBlock {
        return Stop;
      }
      if !r.snapshotFresh {
        return Refuse("fresh broker snapshot is required");
      }
      var terms: Option<P.Terms> := None;
      if plan.ticket.Some? {
        if TermsError(plan, r.terms).Some? {
          return Block(plan.(state := K.BlockedPlan));
        }
        terms := Some(r.terms.value);
      }
      var candidate := TypedCandidate(plan, r.native, terms);
      if candidate.Failure? {
        return Refuse(candidate.error);
      }
      if r.context.Failure? {
        return Refuse(r.context.error);
      }
      phase := Judge(plan, r, InContext(r.context.value, store.records, plan.owner, plan.account), candidate.value);
    }

    method Judge(plan: TradePlan, r: Reads, ctx: Context, cand: Candidate) returns (phase: Phase)
      requires plan.ticket.Some? ==> r.terms.Success?
      ensures phase == Judged(plan, r, ctx, cand)
    {
      hide Evaluated, P.BuildTicket, Limit;
      var outcome := Evaluate(ctx, cand);
      if outcome.Raised? {
        return Refuse(outcome.reason);
      }
      var risk := outcome.verdict;
      if plan.ticket.Some? {
        if !r.currencyVerified {
          risk := risk.(decision := HardBlock, approvedSize := 0.0);
        }
        if !PerTradeLimitStands(ctx) {
          risk := risk.(decision := HardBlock, approvedSize := 0.0);
        }
      }
      if risk.decision == HardBlock {
        return Block(plan.(state := K.BlockedPlan, decision := HardBlock, candidateRisk := risk.candidateRisk));
      }
      var sized := plan.(decision := risk.decision, candidateRisk := risk.candidateRisk, size := risk.approvedSize);
      if plan.ticket.Some? {
        var ticket := P.BuildTicket(r.terms.value, plan.kind, plan.side, plan.entry, plan.stop, plan.targets,
                                    Ticks(plan),
                                    Limit(ctx.constraints, MaxRiskPerTrade).value.value, risk);
        if ticket.Failure? {
          return Block(sized.(state := K.BlockedPlan));
        }
        sized := sized.(ticket := Some(ticket.value));
      }
      phase := Proceed(sized, risk);
    }

    /** Reserves, authorizes and queues; on a failure the caller rolls back. */
    method Claim(plan: TradePlan, v: Verdict, g: Gate) returns (r: Result<Outcome, string>)
      modifies this, store
      ensures
        var spec := Claimed(old(Current()), plan, v, g);
        && (r.Success? <==> spec.Success?)
        && (r.Success? ==> r.value == spec.value.outcome && Current() == spec.value.books)
        && (r.Failure? ==> r.error == spec.error)
    {
      hide Reserved, K.Authorize, Transitioned, Persisted, WithRow;
      var granted := store.Reserve(true, plan.owner, plan.account, plan.id, v.candidateRisk, v.remainingPortfolio,
                                   g.now, RESERVATION_TTL);
      if granted.Failure? {
        return Failure(granted.error);
      }
      var current := plan.(reservation := Some(granted.value));
      var auth := K.Authorize(g.authorizationId, Guarded(plan), K.PlaceOrder, g.permissions, g.platform, g.account,
                              g.now, AUTHORIZATION_TTL);
      if auth.Failure? {
        return Failure(auth.error);
      }
      current := current.(authorization := Some(auth.value), state := K.AuthorizedPlan);
      if current.targets == [] {
        return Failure("list index out of range");
      }
      var row := QueuedRow(plan, g);
      var pending := store.Transition(granted.value, plan.owner, Change(CommandPending, Some(g.commandId), None, None));
      if pending.Failure? {
        return Failure(pending.error);
      }
      current := current.(state := K.ExecutionPending, version := current.version + 1);
      current := current.(command := Some(g.commandId));
      plans := plans[plan.id := current];
      var stored := PersistCommand(row);
      if stored.Failure? {
        return Failure(stored.error);
      }
      r := Success(Entered(current, stored.value));
    }

    /** `authorize_and_queue_entry`. */
    method AuthorizeAndQueueEntry(plan: TradePlan, r: Reads, g: Gate) returns (outcome: Outcome)
      modifies this, store
      ensures Effect(Current(), outcome) == Queueing(old(Current()), plan, r, g)
    {
      hide Revalidated, Claimed;
      var before := Current();
      PersistTradePlan(plan);
      var phase := Revalidate(plan, r);
      match phase
      case Refuse(error) =>
        plans := before.plans;
        outcome := Refused(error);
      case Stop =>
        outcome := Halted(plans[plan.id]);
      case Block(blocked) =>
        plans := plans[plan.id := blocked];
        assert plans == before.plans[plan.id := blocked];
        outcome := Halted(blocked);
      case Proceed(sized, v) =>
        var claim := Claim(sized, v, g);
        if claim.Failure? {
          plans, commands, store.records := before.plans, before.commands, before.reservations;
          outcome := Refused(claim.error);
        } else {
          outcome := claim.value;
        }
    }
  }

  /** A fresh command walked to QUEUED, as it is stored. */
  method QueuedRow(plan: TradePlan, g: Gate) returns (row: CommandRow)
    requires plan.targets != []
    ensures row == Row(plan, g)
  {
    var attempts := new E.AttemptLog();
    var command := E.Command(g.commandId, plan.account, g.key, Payload(plan), E.Created, E.NoCertainty, None, 1,
                             attempts);
    command := E.Transition(command, E.Authorized).value;
    command := E.Transition(command, E.Queued).value;
    row := CommandRow(command.id, command.account, plan.id, g.authorizationId, command.key, command.payload,
                      command.state, command.version);
  }
}
