/** What the ledger records about a command, told from the accepted calls alone. */
module BudgetStories {
  import opened Wrappers
  import opened BudgetLedger
  import opened BudgetRecovery
  import opened BudgetRuns
  import opened BudgetSafety

  /** Everything that changes about a command, and its attempts. */
  datatype Story = Story(status: Status, confirmed: Option<nat>, trace: Option<Text>, error: Option<Text>,
                         count: nat, touched: Time, completed: Option<Time>, attempts: seq<Attempt>)

  function Submitted(now: Time): Story {
    Story(Queued, None, None, None, 0, now, None, [])
  }

  /** An accepted report: its status, amount and error are recorded, its attempt is added. */
  function Told(before: Story, r: Report, now: Time): Story {
    Story(r.status, r.confirmedAfter, r.traceId, r.errorCode, before.count, now,
          if r.status == Unknown then None else Some(now), before.attempts + [r.attempt])
  }

  /** An accepted reconciliation counts, and keeps the trace if it brings none. */
  function Retold(before: Story, r: Report, now: Time): Story {
    Told(before, r, now).(count := before.count + 1, trace := if r.traceId.Some? then r.traceId else before.trace)
  }

  function Larger(a: int, b: int): int {
    if a > b then a else b
  }

  /** An interrupted command is unknown, with an attempt numbered above all its earlier ones. */
  function Broken(before: Story, now: Time): Story {
    var number: nat := Larger(before.count, MaxNumber(before.attempts) + 1);
    before.(status := Unknown, error := Some(INTERRUPTED), count := number, touched := now, completed := None,
            attempts := before.attempts + [Attempt(number, before.touched, now, Unknown, Some(INTERRUPTED), false)])
  }

  /** How one call, by its answer, changes the story of a command. */
  ghost function NextStory(w: World, c: Call, id: Id, before: Option<Story>): Option<Story> {
    match c
    case Create(x, request, key, hash, previewHash, now) =>
      if CreateOrReplay(w.db, x, request, key, hash, previewHash, now).1 == Ok(Submission(id, false))
      then Some(Submitted(now)) else before
    case Claim(x, now) =>
      if x == id && before.Some? && ClaimQueued(w.db, x, now).1.Ok?
      then Some(before.value.(status := InProgress, count := before.value.count + 1, touched := now)) else before
    case Finish(x, r, now) =>
      if x == id && before.Some? && FinishExecution(w.db, x, r, now).1.Ok? then Some(Told(before.value, r, now))
        else before
    case Reconcile(x, r, now) =>
      if x == id && before.Some? && RecordReconciliation(w.db, x, r, now).1.Ok?
      then Some(Retold(before.value, r, now)) else before
    case Renew(x, token, now) =>
      if x == id && before.Some? && RenewLock(w.db, x, token, now).1 then Some(before.value.(touched := now))
        else before
    case Recover(order, now) =>
      if IsRecoveryOrder(w.db, order) && before.Some? && before.value.status == InProgress
      then Some(Broken(before.value, now)) else before
    case Acquire(_, _, _, _) => before
    case Release(_, _) => before
  }

  ghost function StoryOf(calls: seq<Call>, id: Id): Option<Story> {
    if calls == [] then None
    else
      var rest := calls[..|calls| - 1];
      NextStory(Run(rest), calls[|calls| - 1], id, StoryOf(rest, id))
  }

  // ---------- the row tells the story ----------

  function RowStory(s: Ledger, id: Id): Option<Story> {
    if id !in s.commands then None
    else
      var c := s.commands[id];
      Some(Story(c.status, c.confirmedAfter, c.traceId, c.errorCode, c.attemptCount, c.updatedAt, c.completedAt,
                 AttemptsOf(s, id)))
  }

  /** No attempts without a command. */
  predicate NoStray(s: Ledger, id: Id) {
    id !in s.commands ==> AttemptsOf(s, id) == []
  }


  lemma CreateStory(w: World, x: Id, request: Request, key: Text, hash: Text, previewHash: Text, now: Time, id: Id)
    requires NoStray(w.db, id)
    ensures var c := Create(x, request, key, hash, previewHash, now); var r := Next(w, c).db;
            RowStory(r, id) == NextStory(w, c, id, RowStory(w.db, id)) && NoStray(r, id)
  {
  }

  lemma ClaimStory(w: World, x: Id, now: Time, id: Id)
    requires NoStray(w.db, id)
    ensures var c := Claim(x, now); var r := Next(w, c).db;
            RowStory(r, id) == NextStory(w, c, id, RowStory(w.db, id)) && NoStray(r, id)
  {
  }

  lemma FinishStory(w: World, x: Id, report: Report, now: Time, id: Id)
    requires NoStray(w.db, id)
    ensures var c := Finish(x, report, now); var r := Next(w, c).db;
            RowStory(r, id) == NextStory(w, c, id, RowStory(w.db, id)) && NoStray(r, id)
  {
    if x != id {
      OthersStory(w.db, x, report, now, id);
    } else {
      OwnFinish(w.db, id, report, now);
    }
  }

  lemma OwnFinish(s: Ledger, id: Id, report: Report, now: Time)
    requires NoStray(s, id)
    ensures var (r, answer) := FinishExecution(s, id, report, now);
            && NoStray(r, id)
            && (answer.Ok? ==> id in s.commands && RowStory(r, id) == Some(Told(RowStory(s, id).value, report, now)))
            && (answer.Err? ==> r == s)
  {
  }

  lemma ReconcileStory(w: World, x: Id, report: Report, now: Time, id: Id)
    requires NoStray(w.db, id)
    ensures var c := Reconcile(x, report, now); var r := Next(w, c).db;
            RowStory(r, id) == NextStory(w, c, id, RowStory(w.db, id)) && NoStray(r, id)
  {
    if x != id {
      OthersStory(w.db, x, report, now, id);
    }
  }

  lemma OthersStory(s: Ledger, x: Id, report: Report, now: Time, id: Id)
    requires x != id
    ensures RowStory(RecordReconciliation(s, x, report, now).0, id) == RowStory(s, id)
    ensures AttemptsOf(RecordReconciliation(s, x, report, now).0, id) == AttemptsOf(s, id)
    ensures RowStory(FinishExecution(s, x, report, now).0, id) == RowStory(s, id)
    ensures AttemptsOf(FinishExecution(s, x, report, now).0, id) == AttemptsOf(s, id)
  {
  }

  lemma LockStory(w: World, x: Id, allow: bool, token: Text, now: Time, id: Id)
    requires NoStray(w.db, id)
    ensures var c := Acquire(x, allow, token, now);
            RowStory(Next(w, c).db, id) == NextStory(w, c, id, RowStory(w.db, id)) && NoStray(Next(w, c).db, id)
    ensures var c := Renew(x, token, now);
            RowStory(Next(w, c).db, id) == NextStory(w, c, id, RowStory(w.db, id)) && NoStray(Next(w, c).db, id)
    ensures var c := Release(x, token);
            RowStory(Next(w, c).db, id) == NextStory(w, c, id, RowStory(w.db, id)) && NoStray(Next(w, c).db, id)
  {
  }

  lemma RecoverStory(w: World, order: seq<Id>, now: Time, id: Id)
    requires NoStray(w.db, id)
    ensures var c := Recover(order, now); var r := Next(w, c).db;
            RowStory(r, id) == NextStory(w, c, id, RowStory(w.db, id)) && NoStray(r, id)
  {
    if IsRecoveryOrder(w.db, order) {
      RecoverCommand(w.db, order, now, id);
    }
  }

  lemma StoryStep(w: World, c: Call, id: Id)
    requires NoStray(w.db, id)
    ensures RowStory(Next(w, c).db, id) == NextStory(w, c, id, RowStory(w.db, id)) && NoStray(Next(w, c).db, id)
  {
    match c
    case Create(x, request, key, hash, previewHash, now) => CreateStory(w, x, request, key, hash, previewHash, now, id);
    case Claim(x, now) => ClaimStory(w, x, now, id);
    case Finish(x, report, now) => FinishStory(w, x, report, now, id);
    case Reconcile(x, report, now) => ReconcileStory(w, x, report, now, id);
    case Acquire(x, allow, token, now) => LockStory(w, x, allow, token, now, id);
    case Renew(x, token, now) => LockStory(w, x, true, token, now, id);
    case Release(x, token) => LockStory(w, x, true, token, 0, id);
    case Recover(order, now) => RecoverStory(w, order, now, id);
  }

  /** In every run the row of a command and its attempts are exactly the story of the accepted calls. */
  lemma {:induction false} StoryIsRow(calls: seq<Call>, id: Id)
    ensures StoryOf(calls, id) == RowStory(Run(calls).db, id) && NoStray(Run(calls).db, id)
  {
    if calls != [] {
      var rest := calls[..|calls| - 1];
      StoryIsRow(rest, id);
      StoryStep(Run(rest), calls[|calls| - 1], id);
    }
  }

  // ---------- which calls are accepted ----------

  /** An attempt that can still be added to the story. */
  predicate Addable(story: Story, a: Attempt) {
    a.number > 0 && a.outcome in {Applied, Conflict, Failed, Unknown} && forall b :: b in story.attempts ==>
        b.number != a.number
  }

  /** A claim is accepted exactly for a queued command, an execution report exactly once the command was
      claimed and not yet reported, a reconciliation exactly for an unknown command; reports must end
      in one of their states and bring a new attempt. */
  lemma AcceptedIff(calls: seq<Call>, id: Id, r: Report, now: Time)
    ensures var s := Run(calls).db; var story := StoryOf(calls, id);
            && (ClaimQueued(s, id, now).1.Ok? <==> story.Some? && story.value.status == Queued)
            && (FinishExecution(s, id, r, now).1.Ok? <==>
                  story.Some? && story.value.status == InProgress && Addable(story.value, r.attempt)
                  && r.status in {Applied, Conflict, Failed, Unknown})
            && (RecordReconciliation(s, id, r, now).1.Ok? <==>
                  story.Some? && story.value.status == Unknown && Addable(story.value, r.attempt)
                  && r.status in {Applied, Conflict, Unknown})
  {
    StoryIsRow(calls, id);
  }

  /** An accepted call answers with the row it wrote. */
  lemma AnswerIsRow(s: Ledger, id: Id, r: Report, now: Time)
    ensures var (t, a) := ClaimQueued(s, id, now); a.Ok? ==> id in t.commands && a.value == t.commands[id]
    ensures var (t, a) := FinishExecution(s, id, r, now); a.Ok? ==> id in t.commands && a.value == t.commands[id]
    ensures var (t, a) := RecordReconciliation(s, id, r, now); a.Ok? ==> id in t.commands && a.value == t.commands[id]
  {
  }

  // ---------- the last report ----------

  /** The call is a report about the command, and was accepted. */
  ghost predicate Reports(w: World, c: Call, id: Id) {
    || (c.Finish? && c.id == id && FinishExecution(w.db, id, c.report, c.now).1.Ok?)
    || (c.Reconcile? && c.id == id && RecordReconciliation(w.db, id, c.report, c.now).1.Ok?)
  }

  ghost function NextReport(w: World, c: Call, id: Id, before: Option<Report>): Option<Report> {
    if Reports(w, c, id) then Some(c.report) else before
  }

  /** The last accepted report about a command. */
  ghost function LastReport(calls: seq<Call>, id: Id): Option<Report> {
    if calls == [] then None
    else
      var rest := calls[..|calls| - 1];
      NextReport(Run(rest), calls[|calls| - 1], id, LastReport(rest, id))
  }

  predicate Repeats(story: Option<Story>, r: Report) {
    story.Some? && story.value.status == r.status && story.value.confirmed == r.confirmedAfter
    && story.value.error == r.errorCode && story.value.completed.Some? == (r.status != Unknown)
    && r.attempt in story.value.attempts
  }

  predicate Outcome(status: Status) {
    status in {Applied, Conflict, Failed, Unknown}
  }

  /** Not reported yet: queued, in progress, or recovered. */
  predicate Open(s: Ledger, id: Id) {
    id in s.commands ==>
      var c := s.commands[id];
      c.status in {Queued, InProgress} || (c.status == Unknown && c.errorCode == Some(INTERRUPTED))
  }

  ghost predicate ShowsReport(s: Ledger, id: Id, last: Option<Report>) {
    && (last.Some? ==> Repeats(RowStory(s, id), last.value) && Outcome(last.value.status))
    && (last.None? ==> Open(s, id))
  }

  lemma ReportedStaysStep(w: World, c: Call, id: Id, story: Option<Story>, r: Report)
    requires story == RowStory(w.db, id) && Repeats(story, r) && Outcome(r.status) && !Reports(w, c, id)
    ensures Repeats(NextStory(w, c, id, story), r)
  {
  }

  lemma ReportStep(w: World, c: Call, id: Id, before: Option<Report>)
    requires NoStray(w.db, id) && ShowsReport(w.db, id, before)
    requires RowStory(Next(w, c).db, id) == NextStory(w, c, id, RowStory(w.db, id))
    ensures ShowsReport(Next(w, c).db, id, NextReport(w, c, id, before))
  {
    if !Reports(w, c, id) && before.Some? {
      ReportedStaysStep(w, c, id, RowStory(w.db, id), before.value);
    }
  }

  /** A command that has a report shows exactly the last accepted one: the reported status, amount and
      error, a completion time unless it is unknown, and the reported attempt. A command without one
      is queued, in progress, or was recovered. */
  lemma {:induction false} ShowsLastReport(calls: seq<Call>, id: Id)
    ensures ShowsReport(Run(calls).db, id, LastReport(calls, id))
  {
    if calls != [] {
      var rest, c := calls[..|calls| - 1], calls[|calls| - 1];
      ShowsLastReport(rest, id);
      StoryIsRow(rest, id);
      StoryStep(Run(rest), c, id);
      ReportStep(Run(rest), c, id, LastReport(rest, id));
    }
  }

  // ---------- replays ----------

  /** What a command was submitted with. */
  predicate SubmittedAs(s: Ledger, id: Id, q: Request, key: Text, hash: Text, previewHash: Text) {
    id in s.commands
    && s.commands[id].request == q && s.commands[id].key == key
    && s.commands[id].requestHash == hash && s.commands[id].previewHash == previewHash
  }

  lemma SubmissionStays(w: World, c: Call, id: Id, q: Request, key: Text, hash: Text, previewHash: Text)
    requires Inv(w) && SubmittedAs(w.db, id, q, key, hash, previewHash)
    ensures SubmittedAs(Next(w, c).db, id, q, key, hash, previewHash)
  {
    match c
    case Create(_, _, _, _, _, _) =>
    case Claim(x, now) => ClaimTables(w.db, x, now);
    case Finish(x, report, now) => FinishTables(w.db, x, report, now);
    case Reconcile(x, report, now) => ReconcileTables(w.db, x, report, now);
    case Acquire(_, _, _, _) =>
    case Renew(x, token, now) => RenewTables(w.db, x, token, now);
    case Release(_, _) =>
    case Recover(order, now) =>
      if IsRecoveryOrder(w.db, order) {
        RecoverTables(w.db, order, now);
      }
  }

  lemma {:induction false} SubmissionKept(calls: seq<Call>, more: seq<Call>, id: Id, q: Request, key: Text,
                                          hash: Text, previewHash: Text)
    requires SubmittedAs(Run(calls).db, id, q, key, hash, previewHash)
    ensures SubmittedAs(Run(calls + more).db, id, q, key, hash, previewHash)
  {
    if more == [] {
      assert calls + more == calls;
    } else {
      var n := |more| - 1;
      SubmissionKept(calls, more[..n], id, q, key, hash, previewHash);
      assert calls + more == (calls + more[..n]) + [more[n]];
      RunAppend(calls + more[..n], more[n]);
      RunKeeps(calls + more[..n]);
      SubmissionStays(Run(calls + more[..n]), more[n], id, q, key, hash, previewHash);
    }
  }

  /** Once a submission was accepted as a new command, the same submission is answered with that command
      as a replay, and the same key with another request as a conflict, whatever happened to the
      command since; neither changes a table. A new key for the consumed preview is refused. */
  lemma AcceptedThenReplayed(calls: seq<Call>, more: seq<Call>, id: Id, q: Request, key: Text, hash: Text,
                             previewHash: Text,
                             now: Time, again: Request, otherId: Id, otherKey: Text, otherHash: Text, later: Time)
    requires CreateOrReplay(Run(calls).db, id, q, key, hash, previewHash, now).1 == Ok(Submission(id, false))
    requires again.clientId == q.clientId
    ensures var s := Run(calls + [Create(id, q, key, hash, previewHash, now)] + more).db;
            && CreateOrReplay(s, otherId, again, key, otherHash, previewHash, later)
               == (s, if otherHash == hash then Ok(Submission(id, true)) else Err(IdempotencyConflict))
            && ((forall x :: !HasKey(s, x, again.clientId, otherKey)) ==>
                  CreateOrReplay(s, otherId, again, otherKey, otherHash, previewHash, later)
                      == (s, Err(PreviewConsumed)))
  {
    var c := Create(id, q, key, hash, previewHash, now);
    RunAppend(calls, c);
    assert SubmittedAs(Run(calls + [c]).db, id, q, key, hash, previewHash);
    SubmissionKept(calls + [c], more, id, q, key, hash, previewHash);
    SubmittedIsReplayed(calls + [c] + more, id, q, key, hash, previewHash, again, otherId, otherKey, otherHash, later);
  }

  lemma SubmittedIsReplayed(calls: seq<Call>, id: Id, q: Request, key: Text, hash: Text, previewHash: Text,
                            again: Request, otherId: Id, otherKey: Text, otherHash: Text, later: Time)
    requires SubmittedAs(Run(calls).db, id, q, key, hash, previewHash) && again.clientId == q.clientId
    ensures var s := Run(calls).db;
            && CreateOrReplay(s, otherId, again, key, otherHash, previewHash, later)
               == (s, if otherHash == hash then Ok(Submission(id, true)) else Err(IdempotencyConflict))
            && ((forall x :: !HasKey(s, x, again.clientId, otherKey)) ==>
                  CreateOrReplay(s, otherId, again, otherKey, otherHash, previewHash, later)
                      == (s, Err(PreviewConsumed)))
  {
    ReplayIsReadOnly(calls, id, otherId, again, otherHash, previewHash, later);
    assert HasPreview(Run(calls).db, id, previewHash);
  }

  /** A submission is accepted as a new command exactly when its key and its preview are unused and its
      target is not quarantined (identifiers are fresh). */
  lemma SubmittedIff(s: Ledger, id: Id, q: Request, key: Text, hash: Text, previewHash: Text, now: Time)
    requires id !in s.commands
    ensures var (t, a) := CreateOrReplay(s, id, q, key, hash, previewHash, now);
            a == Ok(Submission(id, false)) <==>
              && (forall x :: x in s.commands ==>
                    !(s.commands[x].request.clientId == q.clientId && s.commands[x].key == key)
                    && s.commands[x].previewHash != previewHash)
              && q.target !in s.quarantines
    ensures var (t, a) := CreateOrReplay(s, id, q, key, hash, previewHash, now);
            a == Ok(Submission(id, false)) ==> SubmittedAs(t, id, q, key, hash, previewHash)
  {
    assert forall x :: HasKey(s, x, q.clientId, key) <==>
             x in s.commands && s.commands[x].request.clientId == q.clientId && s.commands[x].key == key;
    assert forall x :: HasPreview(s, x, previewHash) <==> x in s.commands && s.commands[x].previewHash == previewHash;
  }
}
