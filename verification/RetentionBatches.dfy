/** What a bounded delete removes: a batch of the rows that are due, and what a chain of such batches adds up to. */
module RetentionBatches {
  import opened Text
  import opened StoreState
  import Sets

  /** The statements a retention pass repeats. */
  datatype Purge = TurnEvals | Chats | Watches | Submissions

  datatype RowKey =
    | EvalRow(eval: EvalKey)
    | ChatRow(chat: Str)
    | WatchRow(watch: Str)
    | SubmissionRow(submission: SubmissionKey)

  /** The statements for judged turns and chats have an `order by`; those for watches and the submission ledger have none. */
  predicate IsOrdered(p: Purge) {
    p.TurnEvals? || p.Chats?
  }

  function Latest(t: Time, u: Option<Time>): Time {
    if u.Some? && u.value > t then u.value else t
  }

  /** The generated retention clock of a watch: the last thing that happened to it. */
  function RetentionAt(w: Watch): Time {
    Latest(Latest(Latest(Latest(w.createdAt, w.lastCheckedAt), w.firedAt), w.cancelledAt), w.deliveredAt)
  }

  /** The rows at or before the cutoff. */
  function Due(s: State, p: Purge, before: Time): set<RowKey> {
    match p
    case TurnEvals => set k | k in s.evals && s.evals[k] <= before :: EvalRow(k)
    case Chats => set c | c in s.chats && s.chats[c].deletedAt.Some? && s.chats[c].deletedAt.value <= before :: ChatRow(c)
    case Watches => set w | w in s.watches && IsFinished(s.watches[w]) && RetentionAt(s.watches[w]) <= before :: WatchRow(w)
    case Submissions => set k | k in s.submissions && s.submissions[k] <= before :: SubmissionRow(k)
  }

  /** The time a row is ordered by; only looked at for rows that are due. */
  function Age(s: State, r: RowKey): Time {
    match r
    case EvalRow(k) => if k in s.evals then s.evals[k] else 0
    case ChatRow(c) => if c in s.chats && s.chats[c].deletedAt.Some? then s.chats[c].deletedAt.value else 0
    case WatchRow(w) => if w in s.watches then RetentionAt(s.watches[w]) else 0
    case SubmissionRow(k) => if k in s.submissions then s.submissions[k] else 0
  }

  function ChatIds(rows: set<RowKey>): set<Str> {
    set r | r in rows && r.ChatRow? :: r.chat
  }

  /** The store without those rows; a chat takes its rows in every other table with it. */
  function Removed(s: State, p: Purge, rows: set<RowKey>): State {
    match p
    case TurnEvals => s.(evals := map k | k in s.evals && EvalRow(k) !in rows :: s.evals[k])
    case Chats => DeleteChats(s, ChatIds(rows))
    case Watches => s.(watches := map w | w in s.watches && WatchRow(w) !in rows :: s.watches[w])
    case Submissions => s.(submissions := map k | k in s.submissions && SubmissionRow(k) !in rows :: s.submissions[k])
  }

  /** No row of `kept` is older than a row of `gone`. */
  predicate NoOlder(s: State, gone: set<RowKey>, kept: set<RowKey>) {
    forall r, r' :: r in gone && r' in kept ==> Age(s, r) <= Age(s, r')
  }

  function Min(a: nat, b: nat): nat {
    if a <= b then a else b
  }

  /** What `order by ... limit` may pick from the rows that are due; ties are broken arbitrarily. */
  predicate IsBatch(s: State, p: Purge, due: set<RowKey>, limit: nat, batch: set<RowKey>) {
    && batch <= due
    && |batch| == Min(limit, |due|)
    && (IsOrdered(p) ==> NoOlder(s, batch, due - batch))
  }

  // ---- A batch always exists ----

  lemma {:induction false} OldestExists(s: State, rows: set<RowKey>) returns (oldest: RowKey)
    requires rows != {}
    ensures oldest in rows && NoOlder(s, {oldest}, rows)
    decreases rows
  {
    var r :| r in rows;
    if rows == {r} {
      oldest := r;
    } else {
      var other := OldestExists(s, rows - {r});
      oldest := if Age(s, r) <= Age(s, other) then r else other;
      forall r' | r' in rows ensures Age(s, oldest) <= Age(s, r') {
        assert r' == r || r' in rows - {r};
      }
    }
  }

  lemma {:induction false} BatchExists(s: State, p: Purge, due: set<RowKey>, limit: nat) returns (batch: set<RowKey>)
    ensures IsBatch(s, p, due, limit, batch)
    decreases limit
  {
    hide Age;
    if limit == 0 || due == {} {
      batch := {};
      assert limit == 0 || |due| == 0;
    } else {
      var oldest := OldestExists(s, due);
      var rest := BatchExists(s, p, due - {oldest}, limit - 1);
      batch := rest + {oldest};
      assert due - batch == due - {oldest} - rest;
    }
  }

  // ---- Chaining batches ----

  lemma RemovingTwice(s: State, p: Purge, a: set<RowKey>, b: set<RowKey>)
    ensures Removed(Removed(s, p, a), p, b) == Removed(s, p, a + b)
  {
    match p {
      case TurnEvals => {}
      case Chats =>
        DeletingTwice(s, ChatIds(a), ChatIds(b));
        assert ChatIds(a + b) == ChatIds(a) + ChatIds(b);
      case Watches => {}
      case Submissions => {}
    }
  }

  lemma DeletingTwice(s: State, a: set<Str>, b: set<Str>)
    ensures DeleteChats(DeleteChats(s, a), b) == DeleteChats(s, a + b)
  {
    hide MessagesWithout, InquiriesWithout, EvalsWithout, SubmissionsWithout, WatchesWithout;
    assert s.chats - a - b == s.chats - (a + b);
    assert s.sessions - a - b == s.sessions - (a + b);
    RowsWithoutTwice(s, a, b);
    MoreRowsWithoutTwice(s, a, b);
  }

  lemma RowsWithoutTwice(s: State, a: set<Str>, b: set<Str>)
    ensures MessagesWithout(MessagesWithout(s.messages, a), b) == MessagesWithout(s.messages, a + b)
    ensures InquiriesWithout(InquiriesWithout(s.investigations, a), b) == InquiriesWithout(s.investigations, a + b)
  {
  }

  lemma MoreRowsWithoutTwice(s: State, a: set<Str>, b: set<Str>)
    ensures EvalsWithout(EvalsWithout(s.evals, a), b) == EvalsWithout(s.evals, a + b)
    ensures SubmissionsWithout(SubmissionsWithout(s.submissions, a), b) == SubmissionsWithout(s.submissions, a + b)
    ensures WatchesWithout(WatchesWithout(s.watches, a), b) == WatchesWithout(s.watches, a + b)
  {
  }

  lemma RemovingNothing(s: State, p: Purge)
    ensures Removed(s, p, {}) == s
  {
    match p {
      case TurnEvals => assert Removed(s, p, {}).evals == s.evals;
      case Chats => assert ChatIds({}) == {}; DeletingNothing(s);
      case Watches => assert Removed(s, p, {}).watches == s.watches;
      case Submissions => assert Removed(s, p, {}).submissions == s.submissions;
    }
  }

  lemma DeletingNothing(s: State)
    ensures DeleteChats(s, {}) == s
  {
    assert s.chats - {} == s.chats && s.sessions - {} == s.sessions;
    assert MessagesWithout(s.messages, {}) == s.messages;
    assert InquiriesWithout(s.investigations, {}) == s.investigations;
    assert EvalsWithout(s.evals, {}) == s.evals;
    assert SubmissionsWithout(s.submissions, {}) == s.submissions;
    assert WatchesWithout(s.watches, {}) == s.watches;
  }

  /** Removing rows leaves the other rows due, at the age they had. */
  lemma DueAfterRemoval(s: State, p: Purge, before: Time, gone: set<RowKey>)
    ensures Due(Removed(s, p, gone), p, before) == Due(s, p, before) - gone
    ensures forall r :: r in Due(s, p, before) - gone ==> Age(Removed(s, p, gone), r) == Age(s, r)
  {
    match p {
      case TurnEvals => {}
      case Chats =>
        forall c ensures c in ChatIds(gone) <==> ChatRow(c) in gone {
          if ChatRow(c) in gone { assert ChatRow(c).chat in ChatIds(gone); }
        }
      case Watches => {}
      case Submissions => {}
    }
  }

  // ---- A whole drain ----

  /**
    `batches` statements of `limit` rows each: the oldest rows that fit are gone, nothing else
    is touched, and `total` counts them.
   */
  ghost predicate Drained(s: State, s': State, p: Purge, before: Time, limit: nat, batches: nat, total: nat) {
    exists gone :: DrainedRows(s, s', p, before, limit, batches, total, gone)
  }

  predicate DrainedRows(s: State, s': State, p: Purge, before: Time, limit: nat, batches: nat, total: nat, gone: set<RowKey>) {
    && total == |gone| == Min(limit * batches, |Due(s, p, before)|)
    && RemovedSoFar(s, s', p, before, gone)
  }

  /** Rows that were due are gone, oldest first, and nothing else changed. */
  predicate RemovedSoFar(s: State, s': State, p: Purge, before: Time, gone: set<RowKey>) {
    && gone <= Due(s, p, before)
    && (IsOrdered(p) ==> NoOlder(s, gone, Due(s, p, before) - gone))
    && s' == Removed(s, p, gone)
  }

  /** One more batch on top of the ones before it. */
  lemma OneMoreBatch(s: State, p: Purge, before: Time, limit: nat, gone: set<RowKey>, s': State, batch: set<RowKey>)
    requires RemovedSoFar(s, s', p, before, gone)
    requires IsBatch(s', p, Due(s', p, before), limit, batch)
    ensures RemovedSoFar(s, Removed(s', p, batch), p, before, gone + batch)
    ensures |gone + batch| == |gone| + |batch|
    ensures |Due(s', p, before)| == |Due(s, p, before)| - |gone|
  {
    hide Removed, Due, Age, NoOlder;
    var due := Due(s, p, before);
    DueAfterRemoval(s, p, before, gone);
    RemovingTwice(s, p, gone, batch);
    assert gone !! batch;
    assert |due - gone| == |due| - |gone|;
    assert due - gone - batch == due - (gone + batch);
    if IsOrdered(p) { StillNoOlder(s, s', due, gone, batch); }
  }

  lemma StillNoOlder(s: State, s': State, due: set<RowKey>, gone: set<RowKey>, batch: set<RowKey>)
    requires batch <= due - gone && NoOlder(s, gone, due - gone) && NoOlder(s', batch, due - gone - batch)
    requires forall r :: r in due - gone ==> Age(s', r) == Age(s, r)
    ensures NoOlder(s, gone + batch, due - (gone + batch))
  {
    hide Age;
    forall r, r' | r in gone + batch && r' in due - (gone + batch) ensures Age(s, r) <= Age(s, r') {
      assert r' in due - gone && r' in due - gone - batch;
      if r in batch { assert r in due - gone && Age(s', r) <= Age(s', r'); }
    }
  }

  /** A backlog that fits is gone to the last row, as one unbounded delete would leave it. */
  lemma DrainIsOneDelete(s: State, s': State, p: Purge, before: Time, limit: nat, batches: nat, total: nat)
    requires Drained(s, s', p, before, limit, batches, total) && |Due(s, p, before)| <= limit * batches
    ensures s' == Removed(s, p, Due(s, p, before)) && total == |Due(s, p, before)|
    ensures Due(s', p, before) == {}
  {
    hide Due, Removed;
    var gone :| DrainedRows(s, s', p, before, limit, batches, total, gone);
    var due := Due(s, p, before);
    Sets.SubsetOfSameSize(gone, due);
    DueAfterRemoval(s, p, before, gone);
  }

  /** A backlog that does not fit shrinks by exactly what fits, and what is left is no older. */
  lemma DrainLeavesTheNewest(s: State, s': State, p: Purge, before: Time, limit: nat, batches: nat, total: nat)
    requires Drained(s, s', p, before, limit, batches, total)
    ensures Due(s', p, before) <= Due(s, p, before)
    ensures |Due(s', p, before)| == |Due(s, p, before)| - Min(limit * batches, |Due(s, p, before)|)
    ensures IsOrdered(p) ==> NoOlder(s, Due(s, p, before) - Due(s', p, before), Due(s', p, before))
  {
    hide Due, Removed, Age;
    var gone :| DrainedRows(s, s', p, before, limit, batches, total, gone);
    var due := Due(s, p, before);
    DueAfterRemoval(s, p, before, gone);
    assert due - (due - gone) == gone;
  }

  // ---- Statements without an order ----

  lemma {:induction false} SubsetOfSize<T>(all: set<T>, x: T, n: nat) returns (part: set<T>)
    requires x in all && 1 <= n <= |all|
    ensures x in part && part <= all && |part| == n
    decreases n
  {
    if n == 1 {
      part := {x};
    } else {
      var rest := SubsetOfSize(all, x, n - 1);
      if all <= rest { Sets.SubsetIsNoLarger(all, rest); }
      var y :| y in all && y !in rest;
      part := rest + {y};
    }
  }

  predicate SameAge(s: State, rows: set<RowKey>) {
    forall r, r' :: r in rows && r' in rows ==> Age(s, r) == Age(s, r')
  }

  /** Whatever the drain picks, nothing older than a deleted row is left. */
  ghost predicate AlwaysOldestFirst(s: State, p: Purge, before: Time, limit: nat, batches: nat) {
    forall gone, total :: DrainedRows(s, Removed(s, p, gone), p, before, limit, batches, total, gone) ==>
      NoOlder(s, gone, Due(s, p, before) - gone)
  }

  /** A drain without an order is sure to go oldest first exactly if it takes everything, nothing, or rows of one age. */
  lemma UnorderedDrainIsOldestFirstExactly(s: State, p: Purge, before: Time, limit: nat, batches: nat)
    requires !IsOrdered(p)
    ensures AlwaysOldestFirst(s, p, before, limit, batches) <==>
      |Due(s, p, before)| <= limit * batches || limit * batches == 0 || SameAge(s, Due(s, p, before))
  {
    hide Due, Removed, Age, NoOlder, SameAge;
    var due, n := Due(s, p, before), limit * batches;
    if |due| <= n || n == 0 || SameAge(s, due) {
      forall gone, total | DrainedRows(s, Removed(s, p, gone), p, before, limit, batches, total, gone)
        ensures NoOlder(s, gone, due - gone)
      {
        if |due| <= n {
          Sets.SubsetOfSameSize(gone, due);
          assert due - gone == {};
          NothingIsOlder(s, gone, due - gone);
        } else if n == 0 {
          assert gone == {};
          NothingIsOlder(s, gone, due - gone);
        } else {
          OneAgeIsNoOlder(s, due, gone);
        }
      }
    } else {
      var older, newer := TwoAges(s, due);
      Sets.SubsetWithoutOne(due - {older}, due, older);
      assert |due - {older}| == |due| - 1;
      var gone := SubsetOfSize(due - {older}, newer, n);
      assert DrainedRows(s, Removed(s, p, gone), p, before, limit, batches, n, gone);
      KeptRowIsOlder(s, due, gone, older, newer);
    }
  }

  lemma NothingIsOlder(s: State, gone: set<RowKey>, kept: set<RowKey>)
    requires gone == {} || kept == {}
    ensures NoOlder(s, gone, kept)
  {
  }

  lemma OneAgeIsNoOlder(s: State, due: set<RowKey>, gone: set<RowKey>)
    requires SameAge(s, due) && gone <= due
    ensures NoOlder(s, gone, due - gone)
  {
    hide Age;
  }

  lemma TwoAges(s: State, due: set<RowKey>) returns (older: RowKey, newer: RowKey)
    requires !SameAge(s, due)
    ensures older in due && newer in due && Age(s, older) < Age(s, newer)
  {
    hide Age;
    var r, r' :| r in due && r' in due && Age(s, r) != Age(s, r');
    older, newer := if Age(s, r) < Age(s, r') then r else r', if Age(s, r) < Age(s, r') then r' else r;
  }

  lemma KeptRowIsOlder(s: State, due: set<RowKey>, gone: set<RowKey>, older: RowKey, newer: RowKey)
    requires newer in gone && older in due - gone && Age(s, older) < Age(s, newer)
    ensures !NoOlder(s, gone, due - gone)
  {
    hide Age;
  }

  const CHAT: Str := [0x63]
  const OLD_REQUEST: SubmissionKey := SubmissionKey(CHAT, [0x61])
  const NEW_REQUEST: SubmissionKey := SubmissionKey(CHAT, [0x62])

  /** Two submissions, made at times 0 and 5. */
  function TwoSubmissions(): State {
    State(map[], map[], map[], map[], map[], map[OLD_REQUEST := 0, NEW_REQUEST := 5], map[])
  }

  /** The concrete case: one statement for one row may delete the newer submission and keep the older one. */
  lemma ADrainMayKeepTheOlderSubmission()
    ensures Drained(TwoSubmissions(), TwoSubmissions().(submissions := map[OLD_REQUEST := 0]), Submissions, 10, 1, 1, 1)
  {
    var s := TwoSubmissions();
    var gone := {SubmissionRow(NEW_REQUEST)};
    assert OLD_REQUEST != NEW_REQUEST;
    assert Due(s, Submissions, 10) == {SubmissionRow(OLD_REQUEST), SubmissionRow(NEW_REQUEST)};
    assert Removed(s, Submissions, gone).submissions == map[OLD_REQUEST := 0];
    assert DrainedRows(s, s.(submissions := map[OLD_REQUEST := 0]), Submissions, 10, 1, 1, 1, gone);
  }

  /** No table holds a row keyed by the chat. */
  predicate LeavesNothing(s: State, chatId: Str) {
    && chatId !in s.chats && chatId !in s.sessions
    && (forall k :: k in s.messages ==> k.chatId != chatId)
    && (forall i :: i in s.investigations ==> s.investigations[i].chatId != chatId)
    && (forall k :: k in s.evals ==> k.chatId != chatId)
    && (forall k :: k in s.submissions ==> k.chatId != chatId)
    && (forall w :: w in s.watches ==> s.watches[w].chatId != chatId)
  }

  /** A hard-deleted chat leaves no row in any table, and a kept chat keeps its whole transcript. */
  lemma GoneChatsLeaveNothing(s: State, s': State, before: Time, limit: nat, batches: nat, total: nat, chatId: Str)
    requires Drained(s, s', Chats, before, limit, batches, total) && chatId in s.chats
    ensures chatId !in s'.chats ==> LeavesNothing(s', chatId)
    ensures chatId in s'.chats ==>
      && s'.chats[chatId] == s.chats[chatId]
      && (forall id :: MessageKey(chatId, id) in s.messages ==>
            MessageKey(chatId, id) in s'.messages && s'.messages[MessageKey(chatId, id)] == s.messages[MessageKey(chatId, id)])
      && (forall i :: i in s.investigations && s.investigations[i].chatId == chatId ==>
            i in s'.investigations && s'.investigations[i] == s.investigations[i])
  {
    hide Due, DrainedRows;
    var gone :| DrainedRows(s, s', Chats, before, limit, batches, total, gone);
    assert s' == DeleteChats(s, ChatIds(gone)) by { RemovedRows(s, s', before, limit, batches, total, gone); }
  }

  lemma RemovedRows(s: State, s': State, before: Time, limit: nat, batches: nat, total: nat, gone: set<RowKey>)
    requires DrainedRows(s, s', Chats, before, limit, batches, total, gone)
    ensures s' == DeleteChats(s, ChatIds(gone))
  {
    hide Due, DeleteChats;
  }
}
