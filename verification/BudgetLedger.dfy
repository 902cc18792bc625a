/** The durable ledger of provider budget commands: four tables and one function for
    each store method. A store method runs in one immediate transaction, so each
    function is one atomic step; a refusal or a constraint violation rolls back. */
module BudgetLedger {
  import opened Wrappers

  /** UUIDs, and texts that the ledger only compares for equality, are opaque numbers. */
  type Id = nat
  type Text = nat
  type Time = int

  const LEASE_SECONDS: Time := 600
  const INTERRUPTED: Text := 0  // error code provider_execution_interrupted

  datatype TargetType = Campaign | AdSet | AdAccount
  datatype BudgetField = DailyBudget | LifetimeBudget | SpendCap
  datatype Target = Target(kind: TargetType, providerId: Text, field: BudgetField)

  datatype Status = Queued | InProgress | Applied | Conflict | Failed | Unknown

  datatype Request = Request(clientId: Id, target: Target, amountMinor: nat)

  datatype Command = Command(
    request: Request, key: Text, requestHash: Text, previewHash: Text,
    status: Status, confirmedAfter: Option<nat>, traceId: Option<Text>, errorCode: Option<Text>,
    attemptCount: nat, createdAt: Time, updatedAt: Time, completedAt: Option<Time>)

  datatype Attempt = Attempt(
    number: int, startedAt: Time, finishedAt: Time, outcome: Status,
    errorCode: Option<Text>, reconciliation: bool)

  datatype Lock = Lock(commandId: Id, token: Text, leaseUntil: Time, updatedAt: Time)

  datatype Quarantine = Quarantine(commandId: Id, createdAt: Time, updatedAt: Time)

  datatype Ledger = Ledger(
    commands: map<Id, Command>,
    attempts: map<Id, seq<Attempt>>,
    locks: map<Target, Lock>,
    quarantines: map<Target, Quarantine>)

  const EMPTY := Ledger(map[], map[], map[], map[])

  datatype LedgerError =
    | IdempotencyConflict | PreviewConsumed | TargetQuarantined
    | CommandNotFound | NotExecutable(status: Status)
    | InvalidTransition | NotInProgress
    | InvalidReconciliation | NotReconcilable
    | ConstraintViolation | OfflineProofMissing

  /** What the caller reports about one provider execution or one reconciliation read. */
  datatype Report = Report(
    status: Status, attempt: Attempt, confirmedAfter: Option<nat>,
    traceId: Option<Text>, errorCode: Option<Text>)

  datatype Submission = Submission(id: Id, replayed: bool)

  predicate IsTerminal(status: Status) {
    status == Applied || status == Conflict || status == Failed
  }

  predicate InFlight(s: Ledger, id: Id) {
    id in s.commands && s.commands[id].status == InProgress
  }

  predicate IsUnknown(s: Ledger, id: Id) {
    id in s.commands && s.commands[id].status == Unknown
  }

  predicate OnTarget(s: Ledger, id: Id, t: Target) {
    id in s.commands && s.commands[id].request.target == t
  }

  ghost predicate TargetInFlight(s: Ledger, t: Target) {
    exists id :: OnTarget(s, id, t) && InFlight(s, id)
  }

  function AttemptsOf(s: Ledger, id: Id): seq<Attempt> {
    if id in s.attempts then s.attempts[id] else []
  }

  function MaxNumber(attempts: seq<Attempt>): (n: int)
    ensures n >= 0
    ensures forall a :: a in attempts ==> a.number <= n
    ensures n == 0 || exists a :: a in attempts && a.number == n
  {
    if attempts == [] then 0
    else
      var rest := MaxNumber(attempts[1..]);
      if attempts[0].number > rest then attempts[0].number else rest
  }

  // ---------- create_or_replay ----------

  predicate HasKey(s: Ledger, id: Id, clientId: Id, key: Text) {
    id in s.commands && s.commands[id].request.clientId == clientId && s.commands[id].key == key
  }

  predicate HasPreview(s: Ledger, id: Id, previewHash: Text) {
    id in s.commands && s.commands[id].previewHash == previewHash
  }

  function NewCommand(request: Request, key: Text, requestHash: Text, previewHash: Text, now: Time): Command {
    Command(request, key, requestHash, previewHash, Queued, None, None, None, 0, now, now, None)
  }

  ghost function CreateOrReplay(s: Ledger, id: Id, request: Request, key: Text,
                                requestHash: Text, previewHash: Text, now: Time)
    : (Ledger, Result<Submission, LedgerError>)
  {
    if exists prior :: HasKey(s, prior, request.clientId, key) then
      var prior :| HasKey(s, prior, request.clientId, key);
      if s.commands[prior].requestHash != requestHash then (s, Err(IdempotencyConflict))
      else (s, Ok(Submission(prior, true)))
    else if exists prior :: HasPreview(s, prior, previewHash) then (s, Err(PreviewConsumed))
    else if request.target in s.quarantines then (s, Err(TargetQuarantined))
    else if id in s.commands then (s, Err(ConstraintViolation))
    else (s.(commands := s.commands[id := NewCommand(request, key, requestHash, previewHash, now)]),
          Ok(Submission(id, false)))
  }

  // ---------- claim_queued ----------

  function ClaimQueued(s: Ledger, id: Id, now: Time): (Ledger, Result<Command, LedgerError>) {
    if id !in s.commands then (s, Err(CommandNotFound))
    else
      var c := s.commands[id];
      if c.status != Queued then (s, Err(NotExecutable(c.status)))
      else
        var claimed := c.(status := InProgress, attemptCount := c.attemptCount + 1, updatedAt := now);
        (s.(commands := s.commands[id := claimed]), Ok(claimed))
  }

  // ---------- finish_execution and record_reconciliation ----------

  /** The attempt table's CHECK clauses and its UNIQUE(command_id, attempt_no). */
  predicate AttemptInsertable(s: Ledger, id: Id, attempt: Attempt) {
    && attempt.number > 0
    && (IsTerminal(attempt.outcome) || attempt.outcome == Unknown)
    && forall a :: a in AttemptsOf(s, id) ==> a.number != attempt.number
  }

  function WithAttempt(s: Ledger, id: Id, attempt: Attempt): Ledger {
    s.(attempts := s.attempts[id := AttemptsOf(s, id) + [attempt]])
  }

  /** Insert the target's quarantine row, or touch it if this command owns it already. */
  function UpsertQuarantine(s: Ledger, t: Target, id: Id, now: Time): Ledger {
    if t !in s.quarantines then
      s.(quarantines := s.quarantines[t := Quarantine(id, now, now)])
    else if s.quarantines[t].commandId == id then
      s.(quarantines := s.quarantines[t := s.quarantines[t].(updatedAt := now)])
    else s
  }

  function DropQuarantine(s: Ledger, t: Target, id: Id): Ledger {
    if t in s.quarantines && s.quarantines[t].commandId == id
    then s.(quarantines := s.quarantines - {t}) else s
  }

  function Settled(c: Command, r: Report, now: Time): Command {
    c.(status := r.status, confirmedAfter := r.confirmedAfter, traceId := r.traceId, errorCode := r.errorCode,
       updatedAt := now, completedAt := if r.status == Unknown then None else Some(now))
  }

  function FinishExecution(s: Ledger, id: Id, r: Report, now: Time): (Ledger, Result<Command, LedgerError>) {
    if !IsTerminal(r.status) && r.status != Unknown then (s, Err(InvalidTransition))
    else if !InFlight(s, id) then (s, Err(NotInProgress))
    else if !AttemptInsertable(s, id, r.attempt) then (s, Err(ConstraintViolation))
    else
      var c := s.commands[id];
      var done := Settled(c, r, now);
      var s1 := WithAttempt(s, id, r.attempt).(commands := s.commands[id := done]);
      (if r.status == Unknown then UpsertQuarantine(s1, c.request.target, id, now) else s1, Ok(done))
  }

  function Reconciled(c: Command, r: Report, now: Time): Command {
    Settled(c, r.(traceId := if r.traceId.Some? then r.traceId else c.traceId), now)
    .(attemptCount := c.attemptCount + 1)
  }

  function RecordReconciliation(s: Ledger, id: Id, r: Report, now: Time): (Ledger, Result<Command, LedgerError>) {
    if r.status != Applied && r.status != Conflict && r.status != Unknown then (s, Err(InvalidReconciliation))
    else if !IsUnknown(s, id) then (s, Err(NotReconcilable))
    else if !AttemptInsertable(s, id, r.attempt) then (s, Err(ConstraintViolation))
    else
      var c := s.commands[id];
      var done := Reconciled(c, r, now);
      var s1 := WithAttempt(s, id, r.attempt).(commands := s.commands[id := done]);
      (if r.status == Unknown then UpsertQuarantine(s1, c.request.target, id, now)
       else DropQuarantine(s1, c.request.target, id), Ok(done))
  }

  // ---------- acquire, renew and release of a target lock ----------

  /** Why an acquire is refused: another command's quarantine, a write in flight, or a live lease. */
  ghost predicate AcquireRefused(s: Ledger, id: Id, allowQuarantined: bool, now: Time)
    requires id in s.commands
  {
    var t := s.commands[id].request.target;
    || (t in s.quarantines && !(allowQuarantined && s.quarantines[t].commandId == id))
    || TargetInFlight(s, t)
    || (t in s.locks && s.locks[t].commandId in s.commands &&
        (s.locks[t].leaseUntil > now || InFlight(s, s.locks[t].commandId)))
  }

  ghost function AcquireLock(s: Ledger, id: Id, allowQuarantined: bool, token: Text, now: Time)
    : (Ledger, Option<Text>)
  {
    if id !in s.commands || AcquireRefused(s, id, allowQuarantined, now) then (s, None)
    else
      var t := s.commands[id].request.target;
      (s.(locks := s.locks[t := Lock(id, token, now + LEASE_SECONDS, now)]), Some(token))
  }

  predicate HoldsLock(s: Ledger, id: Id, token: Text) {
    id in s.commands && var t := s.commands[id].request.target;
    t in s.locks && s.locks[t].commandId == id && s.locks[t].token == token
  }

  function RenewLock(s: Ledger, id: Id, token: Text, now: Time): (Ledger, bool) {
    if !HoldsLock(s, id, token) || !InFlight(s, id) || s.commands[id].request.target in s.quarantines then (s, false)
    else
      var t := s.commands[id].request.target;
      (s.(locks := s.locks[t := s.locks[t].(leaseUntil := now + LEASE_SECONDS, updatedAt := now)],
          commands := s.commands[id := s.commands[id].(updatedAt := now)]), true)
  }

  function ReleaseLock(s: Ledger, id: Id, token: Text): Ledger {
    if HoldsLock(s, id, token) && !InFlight(s, id)
    then s.(locks := s.locks - {s.commands[id].request.target}) else s
  }

  // ---------- recover_interrupted_in_progress_offline ----------

  /** The SELECT of the recovery: every command in progress, once, oldest update first. */
  ghost predicate IsRecoveryOrder(s: Ledger, order: seq<Id>) {
    && (forall id :: id in order <==> InFlight(s, id))
    && (forall i, j :: 0 <= i < j < |order| ==> order[i] != order[j])
    && (forall i, j :: 0 <= i < j < |order| && order[i] in s.commands && order[j] in s.commands
          ==> s.commands[order[i]].updatedAt <= s.commands[order[j]].updatedAt)
  }

  function RecoveryNumber(s: Ledger, id: Id): int
    requires id in s.commands
  {
    var next := MaxNumber(AttemptsOf(s, id)) + 1;
    if s.commands[id].attemptCount > next then s.commands[id].attemptCount else next
  }

  function Interrupted(c: Command, number: nat, now: Time): Command {
    c.(status := Unknown, attemptCount := number, errorCode := Some(INTERRUPTED), updatedAt := now, completedAt := None)
  }

  function LocksWithout(locks: map<Target, Lock>, id: Id): map<Target, Lock> {
    map t | t in locks && locks[t].commandId != id :: locks[t]
  }

  function RecoverOne(s: Ledger, id: Id, now: Time): Ledger
    requires id in s.commands
  {
    var c := s.commands[id];
    var number := RecoveryNumber(s, id);
    var s1 := WithAttempt(s, id, Attempt(number, c.updatedAt, now, Unknown, Some(INTERRUPTED), false));
    var s2 := s1.(commands := s1.commands[id := Interrupted(c, number, now)]);
    var s3 := UpsertQuarantine(s2, c.request.target, id, now);
    s3.(locks := LocksWithout(s3.locks, id))
  }

  function RecoverRows(s: Ledger, order: seq<Id>, now: Time): (r: Ledger)
    requires forall id :: id in order ==> id in s.commands
    ensures r.commands.Keys == s.commands.Keys
  {
    if order == [] then s
    else
      var last := |order| - 1;
      RecoverOne(RecoverRows(s, order[..last], now), order[last], now)
  }
}
