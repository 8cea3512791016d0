/** What retention takes and what it spares, said in the columns of the tables. */
module RetentionScope {
  import opened Text
  import opened StoreState
  import opened RetentionBatches
  import opened Retention
  import Sets

  /** Soft-deleted, at the cutoff or before it. */
  predicate ChatIsPast(chat: Chat, before: Time) {
    chat.deletedAt.Some? && chat.deletedAt.value <= before
  }

  predicate IsPast(t: Option<Time>, before: Time) {
    t.Some? ==> t.value <= before
  }

  /** Fired, expired or cancelled, with no wake owed or on its way, and nothing happened to it since the cutoff. */
  predicate WatchIsPast(w: Watch, before: Time) {
    && (w.status == Fired || w.status == Expired || w.status == Cancelled)
    && (w.delivery == NotRequired || w.delivery == Delivered)
    && w.createdAt <= before && IsPast(w.lastCheckedAt, before) && IsPast(w.firedAt, before)
    && IsPast(w.cancelledAt, before) && IsPast(w.deliveredAt, before)
  }

  lemma DueInColumns(s: State, before: Time)
    ensures forall c :: ChatRow(c) in Due(s, Chats, before) <==> c in s.chats && ChatIsPast(s.chats[c], before)
    ensures forall w :: WatchRow(w) in Due(s, Watches, before) <==> w in s.watches && WatchIsPast(s.watches[w], before)
    ensures forall k :: EvalRow(k) in Due(s, TurnEvals, before) <==> k in s.evals && s.evals[k] <= before
    ensures forall k :: SubmissionRow(k) in Due(s, Submissions, before) <==> k in s.submissions && s.submissions[k] <= before
    ensures forall r :: r in Due(s, Chats, before) ==> r.ChatRow?
    ensures forall r :: r in Due(s, Watches, before) ==> r.WatchRow?
    ensures forall r :: r in Due(s, TurnEvals, before) ==> r.EvalRow?
    ensures forall r :: r in Due(s, Submissions, before) ==> r.SubmissionRow?
  {
    hide RetentionAt;
    forall w | w in s.watches ensures RetentionAt(s.watches[w]) <= before <==> WatchClockIsPast(s.watches[w], before) {
      RetentionClock(s.watches[w], before);
    }
  }

  predicate WatchClockIsPast(w: Watch, before: Time) {
    && w.createdAt <= before && IsPast(w.lastCheckedAt, before) && IsPast(w.firedAt, before)
    && IsPast(w.cancelledAt, before) && IsPast(w.deliveredAt, before)
  }

  lemma RetentionClock(w: Watch, before: Time)
    ensures RetentionAt(w) <= before <==> WatchClockIsPast(w, before)
  {
  }

  /** How a drain uses its room: no more rows than fit, and rows past the cutoff are left only once it is used up. */
  predicate UsesItsRoom(gone: set<RowKey>, total: nat, room: nat, someLeft: bool) {
    total == |gone| <= room && (someLeft ==> total == room)
  }

  // ---- Chats ----

  predicate IsGone(s: State, s': State, c: Str) {
    c in s.chats && c !in s'.chats
  }

  /** The transcript tables and the investigations lost exactly the rows of the chats that are gone. */
  ghost predicate ChatRowsLeft(s: State, s': State) {
    && (forall k :: k in s'.messages <==> k in s.messages && !IsGone(s, s', k.chatId))
    && (forall k :: k in s'.messages ==> s'.messages[k] == s.messages[k])
    && (forall c :: c in s'.sessions <==> c in s.sessions && !IsGone(s, s', c))
    && (forall c :: c in s'.sessions ==> s'.sessions[c] == s.sessions[c])
    && (forall i :: i in s'.investigations <==> i in s.investigations && !IsGone(s, s', s.investigations[i].chatId))
    && (forall i :: i in s'.investigations ==> s'.investigations[i] == s.investigations[i])
  }

  /** So did the judged turns, the submissions and the watches. */
  ghost predicate LedgerRowsLeft(s: State, s': State) {
    && (forall k :: k in s'.evals <==> k in s.evals && !IsGone(s, s', k.chatId))
    && (forall k :: k in s'.evals ==> s'.evals[k] == s.evals[k])
    && (forall k :: k in s'.submissions <==> k in s.submissions && !IsGone(s, s', k.chatId))
    && (forall k :: k in s'.submissions ==> s'.submissions[k] == s.submissions[k])
    && (forall w :: w in s'.watches <==> w in s.watches && !IsGone(s, s', s.watches[w].chatId))
    && (forall w :: w in s'.watches ==> s'.watches[w] == s.watches[w])
  }

  /**
    The chat purge in columns: a chat never soft-deleted, or soft-deleted after the cutoff, stays with
    every row it has; the ones that go were deleted no later than any past the cutoff that stay,
    and as many go as fit.
   */
  lemma ChatPurgeIsExact(s: State, s': State, before: Time, limit: nat, batches: nat, total: nat)
    requires Drained(s, s', Chats, before, limit, batches, total)
    ensures forall c :: c in s'.chats ==> c in s.chats && s'.chats[c] == s.chats[c]
    ensures forall c :: c in s.chats && !ChatIsPast(s.chats[c], before) ==> c in s'.chats
    ensures ChatRowsLeft(s, s') && LedgerRowsLeft(s, s')
    ensures forall g, k :: IsGone(s, s', g) && k in s'.chats && ChatIsPast(s.chats[k], before) ==>
      s.chats[g].deletedAt.value <= s.chats[k].deletedAt.value
    ensures UsesItsRoom(set c | c in s.chats && c !in s'.chats :: ChatRow(c), total, limit * batches,
                        exists c :: c in s'.chats && ChatIsPast(s.chats[c], before))
  {
    hide Due, Removed, Age, NoOlder;
    var due := Due(s, Chats, before);
    var gone :| DrainedRows(s, s', Chats, before, limit, batches, total, gone);
    DueInColumns(s, before);
    RemovedChats(s, gone);
    RoomIsUsed(due, gone, limit * batches, total);
    assert gone == set c | c in s.chats && c !in s'.chats :: ChatRow(c) by {
      forall r | r in gone ensures r in (set c | c in s.chats && c !in s'.chats :: ChatRow(c)) { assert r == ChatRow(r.chat); }
    }
    forall g, k | IsGone(s, s', g) && k in s'.chats && ChatIsPast(s.chats[k], before)
      ensures s.chats[g].deletedAt.value <= s.chats[k].deletedAt.value
    {
      assert ChatRow(g) in gone && ChatRow(k) in due - gone;
      ChatAges(s, gone, due - gone, g, k);
    }
    if c :| c in s'.chats && ChatIsPast(s.chats[c], before) { assert ChatRow(c) in due - gone; }
  }

  lemma RemovedChats(s: State, gone: set<RowKey>)
    requires forall r :: r in gone ==> r.ChatRow? && r.chat in s.chats
    ensures var s' := Removed(s, Chats, gone);
      && (forall c :: c in s'.chats <==> c in s.chats && ChatRow(c) !in gone)
      && (forall c :: c in s'.chats ==> s'.chats[c] == s.chats[c])
      && ChatRowsLeft(s, s') && LedgerRowsLeft(s, s')
  {
    hide DeleteChats, ChatRowsLeft, LedgerRowsLeft, IsGone;
    var ids := ChatIds(gone);
    forall c ensures c in ids <==> ChatRow(c) in gone {
      if ChatRow(c) in gone { assert ChatRow(c).chat in ids; }
    }
    forall c | c in ids ensures c in s.chats { assert ChatRow(c) in gone; }
    DeletedChatRows(s, ids);
    DeletedLedgerRows(s, ids);
  }

  lemma DeletedChatRows(s: State, ids: set<Str>)
    requires forall c :: c in ids ==> c in s.chats
    ensures var s' := DeleteChats(s, ids);
      && ChatRowsLeft(s, s')
      && (forall c :: c in s'.chats <==> c in s.chats && c !in ids) && (forall c :: c in s'.chats ==> s'.chats[c] == s.chats[c])
  {
    hide EvalsWithout, SubmissionsWithout, WatchesWithout;
  }

  lemma DeletedLedgerRows(s: State, ids: set<Str>)
    requires forall c :: c in ids ==> c in s.chats
    ensures LedgerRowsLeft(s, DeleteChats(s, ids))
  {
    hide MessagesWithout, InquiriesWithout;
  }

  lemma ChatAges(s: State, gone: set<RowKey>, kept: set<RowKey>, g: Str, k: Str)
    requires NoOlder(s, gone, kept) && ChatRow(g) in gone && ChatRow(k) in kept
    requires g in s.chats && s.chats[g].deletedAt.Some? && k in s.chats && s.chats[k].deletedAt.Some?
    ensures s.chats[g].deletedAt.value <= s.chats[k].deletedAt.value
  {
    assert Age(s, ChatRow(g)) <= Age(s, ChatRow(k));
  }

  /** A drain that leaves something due has used all its room. */
  lemma RoomIsUsed(due: set<RowKey>, gone: set<RowKey>, room: nat, total: nat)
    requires gone <= due && total == |gone| == Min(room, |due|)
    ensures total <= room && (due - gone != {} ==> total == room)
  {
    if due - gone != {} {
      var r :| r in due - gone;
      Sets.SubsetWithoutOne(gone, due, r);
    }
  }

  // ---- Watches, judged turns, submissions ----

  /**
    The watch purge in columns: a watch that is active, owes or is delivering a wake, or that
    anything happened to after the cutoff, stays; no other table changes.
   */
  lemma WatchPurgeIsExact(s: State, s': State, before: Time, limit: nat, batches: nat, total: nat)
    requires Drained(s, s', Watches, before, limit, batches, total)
    ensures s' == s.(watches := s'.watches)
    ensures forall w :: w in s'.watches ==> w in s.watches && s'.watches[w] == s.watches[w]
    ensures forall w :: w in s.watches && !WatchIsPast(s.watches[w], before) ==> w in s'.watches
    ensures UsesItsRoom(set w | w in s.watches && w !in s'.watches :: WatchRow(w), total, limit * batches,
                        exists w :: w in s'.watches && WatchIsPast(s.watches[w], before))
  {
    hide Due, Age, NoOlder, WatchIsPast;
    var due := Due(s, Watches, before);
    var gone :| DrainedRows(s, s', Watches, before, limit, batches, total, gone);
    DueInColumns(s, before);
    RoomIsUsed(due, gone, limit * batches, total);
    assert gone == set w | w in s.watches && w !in s'.watches :: WatchRow(w) by {
      forall r | r in gone ensures r in (set w | w in s.watches && w !in s'.watches :: WatchRow(w)) { assert r == WatchRow(r.watch); }
    }
    if w :| w in s'.watches && WatchIsPast(s.watches[w], before) { assert WatchRow(w) in due - gone; }
  }

  /** The purge of judged turns in columns, oldest first. */
  lemma EvalPurgeIsExact(s: State, s': State, before: Time, limit: nat, batches: nat, total: nat)
    requires Drained(s, s', TurnEvals, before, limit, batches, total)
    ensures s' == s.(evals := s'.evals)
    ensures forall k :: k in s'.evals ==> k in s.evals && s'.evals[k] == s.evals[k]
    ensures forall k :: k in s.evals && s.evals[k] > before ==> k in s'.evals
    ensures forall g, k :: g in s.evals && g !in s'.evals && k in s'.evals ==> s.evals[g] <= s.evals[k]
    ensures UsesItsRoom(set k | k in s.evals && k !in s'.evals :: EvalRow(k), total, limit * batches,
                        exists k :: k in s'.evals && s.evals[k] <= before)
  {
    hide Due, Age, NoOlder;
    var due := Due(s, TurnEvals, before);
    var gone :| DrainedRows(s, s', TurnEvals, before, limit, batches, total, gone);
    DueInColumns(s, before);
    RoomIsUsed(due, gone, limit * batches, total);
    assert gone == set k | k in s.evals && k !in s'.evals :: EvalRow(k) by {
      forall r | r in gone ensures r in (set k | k in s.evals && k !in s'.evals :: EvalRow(k)) { assert r == EvalRow(r.eval); }
    }
    forall g, k | g in s.evals && g !in s'.evals && k in s'.evals ensures s.evals[g] <= s.evals[k] {
      assert EvalRow(g) in gone;
      if s.evals[k] <= before {
        assert EvalRow(k) in due - gone;
        EvalAges(s, gone, due - gone, g, k);
      }
    }
    if k :| k in s'.evals && s.evals[k] <= before { assert EvalRow(k) in due - gone; }
  }

  lemma EvalAges(s: State, gone: set<RowKey>, kept: set<RowKey>, g: EvalKey, k: EvalKey)
    requires NoOlder(s, gone, kept) && EvalRow(g) in gone && EvalRow(k) in kept && g in s.evals && k in s.evals
    ensures s.evals[g] <= s.evals[k]
  {
    assert Age(s, EvalRow(g)) <= Age(s, EvalRow(k));
  }

  /** The purge of the submission ledger in columns. */
  lemma SubmissionPurgeIsExact(s: State, s': State, before: Time, limit: nat, batches: nat, total: nat)
    requires Drained(s, s', Submissions, before, limit, batches, total)
    ensures s' == s.(submissions := s'.submissions)
    ensures forall k :: k in s'.submissions ==> k in s.submissions && s'.submissions[k] == s.submissions[k]
    ensures forall k :: k in s.submissions && s.submissions[k] > before ==> k in s'.submissions
    ensures UsesItsRoom(set k | k in s.submissions && k !in s'.submissions :: SubmissionRow(k), total, limit * batches,
                        exists k :: k in s'.submissions && s.submissions[k] <= before)
  {
    hide Due, Age, NoOlder;
    var due := Due(s, Submissions, before);
    var gone :| DrainedRows(s, s', Submissions, before, limit, batches, total, gone);
    DueInColumns(s, before);
    RoomIsUsed(due, gone, limit * batches, total);
    assert gone == set k | k in s.submissions && k !in s'.submissions :: SubmissionRow(k) by {
      forall r | r in gone ensures r in (set k | k in s.submissions && k !in s'.submissions :: SubmissionRow(k)) {
        assert r == SubmissionRow(r.submission);
      }
    }
    if k :| k in s'.submissions && s.submissions[k] <= before { assert SubmissionRow(k) in due - gone; }
  }

  // ---- A whole pass ----

  /** Thirty days and seven days, in milliseconds. */
  const MONTH: int := 2_592_000_000
  const WEEK: int := 604_800_000

  /** The four drains of a pass, each at its own cutoff. */
  lemma PassInColumns(plan: Plan, s: State, between: Between, s': State, totals: RetentionResult)
    requires Parts(plan, s, between, s', totals)
    ensures var n := plan.limit; var Between(s1, s2, s3) := between;
      && Drained(s, s1, TurnEvals, plan.now - MONTH, n, Answered(plan.evalOutage, plan.maxBatches), totals.turnEvals)
      && Drained(s1, s2, Chats, plan.now - MONTH, n, Answered(plan.chatOutage, plan.maxBatches), totals.chats)
      && Drained(s2, s3, Watches, plan.now - WEEK, n, Answered(plan.watchOutage, plan.maxBatches), totals.watches)
      && Drained(s3, s', Submissions, plan.now - WEEK, n, Answered(plan.submissionOutage, plan.maxBatches), totals.watchSubmissions)
  {
    hide Drained, Answered;
  }

  /**
    Over a whole pass, whichever of its statements fail, a chat goes only thirty days after its
    soft delete, and nobody's transcript, session or investigation goes but with its chat.
   */
  lemma PassSparesChats(plan: Plan, s: State, between: Between, s': State, totals: RetentionResult)
    requires Parts(plan, s, between, s', totals)
    ensures forall c :: c in s.chats && !ChatIsPast(s.chats[c], plan.now - MONTH) ==> c in s'.chats && s'.chats[c] == s.chats[c]
    ensures ChatRowsLeft(s, s')
  {
    hide Drained, Parts, WatchIsPast, Answered, LedgerRowsLeft;
    var Between(s1, s2, s3) := between;
    PassInColumns(plan, s, between, s', totals);
    EvalPurgeIsExact(s, s1, plan.now - MONTH, plan.limit, Answered(plan.evalOutage, plan.maxBatches), totals.turnEvals);
    ChatPurgeIsExact(s1, s2, plan.now - MONTH, plan.limit, Answered(plan.chatOutage, plan.maxBatches), totals.chats);
    WatchPurgeIsExact(s2, s3, plan.now - WEEK, plan.limit, Answered(plan.watchOutage, plan.maxBatches), totals.watches);
    SubmissionPurgeIsExact(s3, s', plan.now - WEEK, plan.limit, Answered(plan.submissionOutage, plan.maxBatches), totals.watchSubmissions);
    SameChatRows(s, s1, s2, s');
  }

  lemma SameChatRows(s: State, s1: State, s2: State, s': State)
    requires ChatRowsLeft(s1, s2) && s1 == s.(evals := s1.evals) && s' == s2.(watches := s'.watches, submissions := s'.submissions)
    ensures ChatRowsLeft(s, s')
  {
  }

  /**
    Over the same pass a kept chat loses a judged turn only after thirty days, and a watch or a
    submission only after seven quiet ones.
   */
  lemma PassSparesLedgers(plan: Plan, s: State, between: Between, s': State, totals: RetentionResult)
    requires Parts(plan, s, between, s', totals)
    ensures forall k :: k in s.evals && s.evals[k] > plan.now - MONTH && !IsGone(s, s', k.chatId) ==> k in s'.evals && s'.evals[k] == s.evals[k]
    ensures forall w :: w in s.watches && !WatchIsPast(s.watches[w], plan.now - WEEK) && !IsGone(s, s', s.watches[w].chatId) ==>
      w in s'.watches && s'.watches[w] == s.watches[w]
    ensures forall k :: k in s.submissions && s.submissions[k] > plan.now - WEEK && !IsGone(s, s', k.chatId) ==>
      k in s'.submissions && s'.submissions[k] == s.submissions[k]
  {
    hide Drained, Parts, WatchIsPast, Answered, ChatRowsLeft, UsesItsRoom;
    var Between(s1, s2, s3) := between;
    PassInColumns(plan, s, between, s', totals);
    EvalPurgeIsExact(s, s1, plan.now - MONTH, plan.limit, Answered(plan.evalOutage, plan.maxBatches), totals.turnEvals);
    ChatPurgeIsExact(s1, s2, plan.now - MONTH, plan.limit, Answered(plan.chatOutage, plan.maxBatches), totals.chats);
    WatchPurgeIsExact(s2, s3, plan.now - WEEK, plan.limit, Answered(plan.watchOutage, plan.maxBatches), totals.watches);
    SubmissionPurgeIsExact(s3, s', plan.now - WEEK, plan.limit, Answered(plan.submissionOutage, plan.maxBatches), totals.watchSubmissions);
  }
}
