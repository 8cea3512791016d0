/** The daily retention pass: capped statements repeated until the backlog is gone or the cap is reached. */
module Retention {
  import opened Text
  import opened StoreState
  import Sets
  import opened StoreInvariant
  import opened RetentionBatches
  import opened TranscriptStore

  const DAY: int := 24 * 60 * 60 * 1000
  const EVAL_RETENTION: int := 30 * DAY
  const CHAT_RETENTION: int := 30 * DAY
  const WATCH_RETENTION: int := 7 * DAY

  lemma RemovalKeepsValid(s: State, p: Purge, rows: set<RowKey>)
    requires Valid(s)
    ensures Valid(Removed(s, p, rows))
  {
    hide Valid, DeleteChats;
    if p == Chats {
      DeleteChatsKeepsValid(s, ChatIds(rows));
    } else {
      SameTranscriptsKeepValid(s, Removed(s, p, rows));
    }
  }

  /** `deleteTurnEvalsOlderThan`. */
  method DeleteTurnEvalsOlderThan(db: Store, before: Time, limit: nat) returns (deleted: nat, ghost batch: set<RowKey>)
    modifies db
    ensures IsBatch(old(db.View()), TurnEvals, Due(old(db.View()), TurnEvals, before), limit, batch)
    ensures db.View() == Removed(old(db.View()), TurnEvals, batch)
    ensures deleted == |batch|
  {
    hide NoOlder;
    var s := db.View();
    var due := Due(s, TurnEvals, before);
    ghost var some := BatchExists(s, TurnEvals, due, limit);
    var rows :| rows <= due && IsBatch(s, TurnEvals, due, limit, rows);
    db.evals := map k | k in s.evals && EvalRow(k) !in rows :: s.evals[k];
    deleted, batch := |rows|, rows;
  }

  /** `deleteWatchSubmissionsOlderThan`: any rows past the window. */
  method DeleteWatchSubmissionsOlderThan(db: Store, before: Time, limit: nat) returns (deleted: nat, ghost batch: set<RowKey>)
    modifies db
    ensures IsBatch(old(db.View()), Submissions, Due(old(db.View()), Submissions, before), limit, batch)
    ensures db.View() == Removed(old(db.View()), Submissions, batch)
    ensures deleted == |batch|
  {
    hide NoOlder;
    var s := db.View();
    var due := Due(s, Submissions, before);
    ghost var some := BatchExists(s, Submissions, due, limit);
    var rows :| rows <= due && IsBatch(s, Submissions, due, limit, rows);
    db.submissions := map k | k in s.submissions && SubmissionRow(k) !in rows :: s.submissions[k];
    deleted, batch := |rows|, rows;
  }

  /** `deleteTerminalWatchesOlderThan`: finished watches past the window. */
  method DeleteTerminalWatchesOlderThan(db: Store, before: Time, limit: nat) returns (deleted: nat, ghost batch: set<RowKey>)
    modifies db
    ensures IsBatch(old(db.View()), Watches, Due(old(db.View()), Watches, before), limit, batch)
    ensures db.View() == Removed(old(db.View()), Watches, batch)
    ensures deleted == |batch|
  {
    hide NoOlder, IsFinished, RetentionAt;
    var s := db.View();
    var due := Due(s, Watches, before);
    ghost var some := BatchExists(s, Watches, due, limit);
    var rows :| rows <= due && IsBatch(s, Watches, due, limit, rows);
    db.watches := map w | w in s.watches && WatchRow(w) !in rows :: s.watches[w];
    deleted, batch := |rows|, rows;
  }

  /** `hardDeleteChatsSoftDeletedBefore`: the chats with every row that hangs off them. */
  method HardDeleteChatsSoftDeletedBefore(db: Store, before: Time, limit: nat) returns (deleted: nat, ghost batch: set<RowKey>)
    requires Valid(db.View())
    modifies db
    ensures IsBatch(old(db.View()), Chats, Due(old(db.View()), Chats, before), limit, batch)
    ensures db.View() == Removed(old(db.View()), Chats, batch)
    ensures deleted == |batch|
  {
    hide NoOlder, Valid, DeleteChats;
    var s := db.View();
    var due := Due(s, Chats, before);
    ghost var some := BatchExists(s, Chats, due, limit);
    var rows :| rows <= due && IsBatch(s, Chats, due, limit, rows);
    var ids := ChatIds(rows);
    EveryDueChatIsOne(s, before, rows);
    var gone := db.DeleteChatsByIds(ids);
    assert gone == ids;
    deleted, batch := |gone|, rows;
  }

  lemma EveryDueChatIsOne(s: State, before: Time, rows: set<RowKey>)
    requires rows <= Due(s, Chats, before)
    ensures ChatIds(rows) <= s.chats.Keys && |ChatIds(rows)| == |rows|
    decreases rows
  {
    if rows != {} {
      var r :| r in rows;
      EveryDueChatIsOne(s, before, rows - {r});
      assert r.chat !in ChatIds(rows - {r});
      assert ChatIds(rows) == ChatIds(rows - {r}) + {r.chat};
    }
  }

  /** One statement of a pass; `up` says whether the database answers it. */
  method RunPurge(db: Store, p: Purge, before: Time, limit: nat, up: bool) returns (r: Reply<nat>, ghost batch: set<RowKey>)
    requires Valid(db.View())
    modifies db
    ensures !up ==> r == Err(Unavailable) && db.View() == old(db.View())
    ensures up ==>
      && r == Ok(|batch|)
      && IsBatch(old(db.View()), p, Due(old(db.View()), p, before), limit, batch)
      && db.View() == Removed(old(db.View()), p, batch)
    ensures Valid(db.View())
  {
    hide Valid, IsBatch, Removed;
    if !up { return Err(Unavailable), {}; }
    var deleted: nat;
    match p {
      case TurnEvals => deleted, batch := DeleteTurnEvalsOlderThan(db, before, limit);
      case Chats => deleted, batch := HardDeleteChatsSoftDeletedBefore(db, before, limit);
      case Watches => deleted, batch := DeleteTerminalWatchesOlderThan(db, before, limit);
      case Submissions => deleted, batch := DeleteWatchSubmissionsOlderThan(db, before, limit);
    }
    RemovalKeepsValid(old(db.View()), p, batch);
    r := Ok(deleted);
  }

  /** The statements a drain gets through: up to the first one the database does not answer. */
  function Answered(outage: Option<nat>, maxBatches: nat): nat {
    match outage
    case None => maxBatches
    case Some(n) => Min(n, maxBatches)
  }

  /** The drain comes to the statement that fails: every one before it was full. */
  predicate HitsOutage(s: State, p: Purge, before: Time, limit: nat, outage: Option<nat>, maxBatches: nat) {
    outage.Some? && outage.value < maxBatches && limit * outage.value <= |Due(s, p, before)|
  }

  /** `drain`: full batches until a short one, the cap or a failure; what was deleted stays deleted and is counted. */
  method Drain(db: Store, p: Purge, before: Time, limit: nat, maxBatches: nat, outage: Option<nat>)
    returns (total: nat, failed: bool)
    requires Valid(db.View())
    modifies db
    ensures Drained(old(db.View()), db.View(), p, before, limit, Answered(outage, maxBatches), total)
    ensures failed <==> HitsOutage(old(db.View()), p, before, limit, outage, maxBatches)
    ensures Valid(db.View())
  {
    hide Valid, Due, Removed, NoOlder, IsBatch, RemovedSoFar;
    ghost var s := db.View();
    ghost var due := Due(s, p, before);
    ghost var gone: set<RowKey> := {};
    NothingRemovedYet(s, p, before);
    total, failed := 0, false;
    var batch := 0;
    while batch < maxBatches
      invariant batch <= Answered(outage, maxBatches)
      invariant total == |gone| == limit * batch <= |due|
      invariant RemovedSoFar(s, db.View(), p, before, gone)
      invariant Valid(db.View())
    {
      ghost var s' := db.View();
      var deleted, rows := RunPurge(db, p, before, limit, outage != Some(batch));
      if deleted.Err? {
        failed := true;
        break;
      }
      BatchSize(s', p, before, limit, rows);
      OneMoreBatch(s, p, before, limit, gone, s', rows);
      gone := gone + rows;
      total := total + deleted.value;
      Steps(limit, batch, Answered(outage, maxBatches));
      if deleted.value < limit { break; }
      batch := batch + 1;
    }
    assert DrainedRows(s, db.View(), p, before, limit, Answered(outage, maxBatches), total, gone);
  }

  lemma Steps(limit: nat, batch: nat, batches: nat)
    requires batch < batches
    ensures limit * (batch + 1) == limit * batch + limit <= limit * batches
  {
    assert limit * batches == limit * (batch + 1) + limit * (batches - batch - 1);
  }

  lemma NothingRemovedYet(s: State, p: Purge, before: Time)
    ensures RemovedSoFar(s, s, p, before, {})
  {
    hide Due, Removed;
    RemovingNothing(s, p);
  }

  lemma BatchSize(s: State, p: Purge, before: Time, limit: nat, batch: set<RowKey>)
    requires IsBatch(s, p, Due(s, p, before), limit, batch)
    ensures |batch| == Min(limit, |Due(s, p, before)|)
  {
  }

  // ---- The pass ----

  datatype RetentionResult = RetentionResult(turnEvals: nat, chats: nat, watches: nat, watchSubmissions: nat)

  datatype PassReply = Swept(result: RetentionResult) | PassFailed(failed: seq<Purge>)

  /** What the pass asks of the database: a cap a statement, a cap on statements, and where each drain's database fails. */
  datatype Plan = Plan(
    now: Time,
    limit: nat,
    maxBatches: nat,
    evalOutage: Option<nat>,
    chatOutage: Option<nat>,
    watchOutage: Option<nat>,
    submissionOutage: Option<nat>)
  {
    function Cutoff(p: Purge): Time {
      match p
      case TurnEvals => now - EVAL_RETENTION
      case Chats => now - CHAT_RETENTION
      case Watches => now - WATCH_RETENTION
      case Submissions => now - WATCH_RETENTION
    }

    function Outage(p: Purge): Option<nat> {
      match p
      case TurnEvals => evalOutage
      case Chats => chatOutage
      case Watches => watchOutage
      case Submissions => submissionOutage
    }
  }

  /** One drain of the pass did its part. */
  ghost predicate Part(plan: Plan, p: Purge, s: State, s': State, total: nat) {
    Drained(s, s', p, plan.Cutoff(p), plan.limit, Answered(plan.Outage(p), plan.maxBatches), total)
  }

  predicate PartFails(plan: Plan, p: Purge, s: State) {
    HitsOutage(s, p, plan.Cutoff(p), plan.limit, plan.Outage(p), plan.maxBatches)
  }

  /** The store after each drain but the last. */
  datatype Between = Between(evalsGone: State, chatsGone: State, watchesGone: State)

  /** The failed drains, in the order they ran. */
  function Failures(plan: Plan, s: State, between: Between): seq<Purge> {
    (if PartFails(plan, TurnEvals, s) then [TurnEvals] else [])
    + (if PartFails(plan, Chats, between.evalsGone) then [Chats] else [])
    + (if PartFails(plan, Watches, between.chatsGone) then [Watches] else [])
    + (if PartFails(plan, Submissions, between.watchesGone) then [Submissions] else [])
  }

  /** Every drain did its part, one after the other. */
  ghost predicate Parts(plan: Plan, s: State, between: Between, s': State, totals: RetentionResult) {
    && Part(plan, TurnEvals, s, between.evalsGone, totals.turnEvals)
    && Part(plan, Chats, between.evalsGone, between.chatsGone, totals.chats)
    && Part(plan, Watches, between.chatsGone, between.watchesGone, totals.watches)
    && Part(plan, Submissions, between.watchesGone, s', totals.watchSubmissions)
  }

  /** `runDashboardAgentRetention`: every drain runs, whatever happened to the ones before it. */
  method RunDashboardAgentRetention(db: Store, plan: Plan)
    returns (r: PassReply, ghost totals: RetentionResult, ghost between: Between)
    requires Valid(db.View())
    modifies db
    ensures Parts(plan, old(db.View()), between, db.View(), totals)
    ensures var failed := Failures(plan, old(db.View()), between);
      r == if failed == [] then Swept(totals) else PassFailed(failed)
    ensures Valid(db.View())
  {
    hide Valid, Drained, HitsOutage, Answered;
    var failed: seq<Purge> := [];
    var turnEvals, evalsFailed := Drain(db, TurnEvals, plan.Cutoff(TurnEvals), plan.limit, plan.maxBatches, plan.evalOutage);
    if evalsFailed { failed := failed + [TurnEvals]; }
    ghost var evalsGone := db.View();
    var chats, chatsFailed := Drain(db, Chats, plan.Cutoff(Chats), plan.limit, plan.maxBatches, plan.chatOutage);
    if chatsFailed { failed := failed + [Chats]; }
    ghost var chatsGone := db.View();
    var watches, watchesFailed := Drain(db, Watches, plan.Cutoff(Watches), plan.limit, plan.maxBatches, plan.watchOutage);
    if watchesFailed { failed := failed + [Watches]; }
    ghost var watchesGone := db.View();
    var submissions, submissionsFailed :=
      Drain(db, Submissions, plan.Cutoff(Submissions), plan.limit, plan.maxBatches, plan.submissionOutage);
    if submissionsFailed { failed := failed + [Submissions]; }
    var result := RetentionResult(turnEvals, chats, watches, submissions);
    totals, between := result, Between(evalsGone, chatsGone, watchesGone);
    r := if |failed| > 0 then PassFailed(failed) else Swept(result);
  }

  /** A drain leaves the other tables' backlogs alone, except that a chat takes its own rows along. */
  lemma DrainsAreIndependent(s: State, s': State, p: Purge, before: Time, limit: nat, batches: nat, total: nat, q: Purge, cutoff: Time)
    requires Drained(s, s', p, before, limit, batches, total) && p != q
    ensures Due(s', q, cutoff) <= Due(s, q, cutoff)
    ensures p != Chats ==> Due(s', q, cutoff) == Due(s, q, cutoff)
  {
    hide DrainedRows;
    var gone :| DrainedRows(s, s', p, before, limit, batches, total, gone);
    assert s' == Removed(s, p, gone) by { DrainRemovesRows(s, s', p, before, limit, batches, total, gone); }
  }

  lemma DrainRemovesRows(s: State, s': State, p: Purge, before: Time, limit: nat, batches: nat, total: nat, gone: set<RowKey>)
    requires DrainedRows(s, s', p, before, limit, batches, total, gone)
    ensures s' == Removed(s, p, gone)
  {
    hide Due, Removed;
  }

  /** A backlog that was within the caps before a drain of another table still is. */
  lemma PartLeavesRoom(plan: Plan, p: Purge, s: State, s': State, total: nat, q: Purge)
    requires Part(plan, p, s, s', total) && p != q
    requires |Due(s, q, plan.Cutoff(q))| <= plan.limit * plan.maxBatches
    ensures |Due(s', q, plan.Cutoff(q))| <= plan.limit * plan.maxBatches
    ensures p != Chats ==> Due(s', q, plan.Cutoff(q)) == Due(s, q, plan.Cutoff(q))
    ensures Due(s, q, plan.Cutoff(q)) == {} ==> Due(s', q, plan.Cutoff(q)) == {}
  {
    hide Due, Drained;
    PartIsIndependent(plan, p, s, s', total, q);
    Sets.SubsetIsNoLarger(Due(s', q, plan.Cutoff(q)), Due(s, q, plan.Cutoff(q)));
  }

  /** When every backlog fits and the database answers, one pass leaves nothing past its window in any of the four tables. */
  lemma PassEmptiesEveryWindow(plan: Plan, s: State, between: Between, s': State, totals: RetentionResult)
    requires Parts(plan, s, between, s', totals)
    requires Failures(plan, s, between) == []
    requires forall p :: |Due(s, p, plan.Cutoff(p))| <= plan.limit * plan.maxBatches
    ensures forall p :: Due(s', p, plan.Cutoff(p)) == {}
    ensures totals.turnEvals == |Due(s, TurnEvals, plan.Cutoff(TurnEvals))|
    ensures totals.chats == |Due(s, Chats, plan.Cutoff(Chats))|
  {
    hide Due, Part, PartFails, HitsOutage, Answered, DrainedRows, Drained;
    var Between(s1, s2, s3) := between;
    PartEmpties(plan, TurnEvals, s, s1, totals.turnEvals);
    PartLeavesRoom(plan, TurnEvals, s, s1, totals.turnEvals, Chats);
    PartLeavesRoom(plan, TurnEvals, s, s1, totals.turnEvals, Watches);
    PartLeavesRoom(plan, TurnEvals, s, s1, totals.turnEvals, Submissions);
    PartEmpties(plan, Chats, s1, s2, totals.chats);
    PartLeavesRoom(plan, Chats, s1, s2, totals.chats, TurnEvals);
    PartLeavesRoom(plan, Chats, s1, s2, totals.chats, Watches);
    PartLeavesRoom(plan, Chats, s1, s2, totals.chats, Submissions);
    PartEmpties(plan, Watches, s2, s3, totals.watches);
    PartLeavesRoom(plan, Watches, s2, s3, totals.watches, TurnEvals);
    PartLeavesRoom(plan, Watches, s2, s3, totals.watches, Chats);
    PartLeavesRoom(plan, Watches, s2, s3, totals.watches, Submissions);
    PartEmpties(plan, Submissions, s3, s', totals.watchSubmissions);
    PartLeavesRoom(plan, Submissions, s3, s', totals.watchSubmissions, TurnEvals);
    PartLeavesRoom(plan, Submissions, s3, s', totals.watchSubmissions, Chats);
    PartLeavesRoom(plan, Submissions, s3, s', totals.watchSubmissions, Watches);
    forall p: Purge ensures Due(s', p, plan.Cutoff(p)) == {} {
      match p { case TurnEvals => {} case Chats => {} case Watches => {} case Submissions => {} }
    }
  }

  lemma PartEmpties(plan: Plan, p: Purge, s: State, s': State, total: nat)
    requires Part(plan, p, s, s', total) && !PartFails(plan, p, s)
    requires |Due(s, p, plan.Cutoff(p))| <= plan.limit * plan.maxBatches
    ensures Due(s', p, plan.Cutoff(p)) == {} && total == |Due(s, p, plan.Cutoff(p))|
  {
    hide Due, Drained;
    DrainIsOneDelete(s, s', p, plan.Cutoff(p), plan.limit, Answered(plan.Outage(p), plan.maxBatches), total);
  }

  lemma PartIsIndependent(plan: Plan, p: Purge, s: State, s': State, total: nat, q: Purge)
    requires Part(plan, p, s, s', total) && p != q
    ensures Due(s', q, plan.Cutoff(q)) <= Due(s, q, plan.Cutoff(q))
    ensures p != Chats ==> Due(s', q, plan.Cutoff(q)) == Due(s, q, plan.Cutoff(q))
  {
    hide Due, Drained;
    DrainsAreIndependent(s, s', p, plan.Cutoff(p), plan.limit, Answered(plan.Outage(p), plan.maxBatches), total, q, plan.Cutoff(q));
  }
}
