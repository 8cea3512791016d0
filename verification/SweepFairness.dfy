/** No row starves: repeated sweeps reach a waiting row in a bounded number of rounds, whatever else fails. */
module SweepFairness {
  import opened Text
  import opened StoreState
  import Sets
  import opened StoreRuns
  import opened StoreDurability
  import opened StoreLifecycle
  import opened StoreSettlement
  import opened SweepOrder
  import opened Sweep
  import Investigation
  import Json
  import WellFormed

  /** The row's chat is not known to be deleted. */
  predicate Competes(s: State, id: Str)
    requires id in s.investigations
  {
    var c := s.investigations[id].chatId;
    c in s.chats ==> s.chats[c].deletedAt.None?
  }

  predicate IsAhead(s: State, id: Str, t: Time) {
    && Open(s, id)
    && s.investigations[id].lastSweepAttemptAt.None?
    && s.investigations[id].updatedAt <= t
    && Competes(s, id)
  }

  /** The open rows no sweep has attempted yet that were last updated by `t`. */
  function Ahead(s: State, t: Time): set<Str> {
    set id | id in s.investigations && IsAhead(s, id, t)
  }

  // ---- Nothing but new work joins the queue, and it joins at the back ----

  /** A row that still carries an older update time was not written. */
  predicate OldMeansUntouched(s: State, s': State, id: Str, now: Time) {
    id in s'.investigations && s'.investigations[id].updatedAt < now ==>
      id in s.investigations && s'.investigations[id] == s.investigations[id]
  }

  lemma UpsertStamps(s: State, id: Str, c: Str, p: Str, e: Str, state: Json.Value, freshId: Str, now: Time, any: Str)
    ensures var u := Upsert(s, id, c, p, e, state, freshId, now); u.Committed? ==> OldMeansUntouched(s, u.state, any, now)
  {
    hide WellFormed.Deep;
  }

  lemma {:induction false} PendingStamps(s: State, chatId: Str, pending: seq<Pending>, now: Time, any: Str)
    ensures var t := SettlePending(s, chatId, pending, now); t.Committed? ==> OldMeansUntouched(s, t.state, any, now)
  {
    hide Upsert, Investigation.SettlementMessage;
    if pending != [] {
      var n := |pending| - 1;
      PendingStamps(s, chatId, pending[..n], now, any);
      var before := SettlePending(s, chatId, pending[..n], now);
      if before.Committed? {
        var p := pending[n];
        UpsertStamps(before.state, p.id, chatId, p.projectRef, p.environmentRef, p.state, p.freshId, now, any);
      }
    }
  }

  lemma TurnStamps(s: State, call: Call, any: Str)
    requires call.op.Turn?
    ensures OldMeansUntouched(s, Step(s, call).state, any, call.now)
  {
    hide StoreMessages, SettlePending, NewCards, RawIds;
    var op := call.op;
    PendingStamps(s, op.chatId, op.pending, call.now, any);
    var t := SettlePending(s, op.chatId, op.pending, call.now);
    if t.Committed? {
      var all := op.messages + NewCards(t.result.cards, RawIds(op.messages));
      if StoreMessages(t.state, op.chatId, all, Finalizable(op.finalizeIds), call.now).Committed? {
        StoreKeepsInvestigations(t.state, op.chatId, all, Finalizable(op.finalizeIds), call.now);
      }
    }
  }

  lemma SettleStateStamps(s: State, call: Call, any: Str)
    requires call.op.SettleState?
    ensures OldMeansUntouched(s, Step(s, call).state, any, call.now)
  {
    hide SettleStateAndClose, AppendMessage, Upsert, Investigation.SettlementMessage;
    var op := call.op;
    SettleStateOutcome(s, op, call.now);
    UpsertStamps(s, op.id, op.chatId, op.projectRef, op.environmentRef, op.state, op.freshId, call.now, any);
    var t := SettleStateAndClose(s, op.id, op.chatId, op.projectRef, op.environmentRef, op.state, op.messageId, op.freshId, call.now);
    if t.Committed? && t.result.Closed? && t.result.closed {
      var u := Upsert(s, op.id, op.chatId, op.projectRef, op.environmentRef, op.state, op.freshId, call.now);
      AppendKeepsInvestigations(u.state, op.chatId, t.result.card, AnyOwner, call.now);
    }
  }

  lemma SweepSettleStamps(s: State, call: Call, any: Str)
    requires call.op.SweepSettle?
    ensures OldMeansUntouched(s, Step(s, call).state, any, call.now)
  {
    hide AppendMessage, Investigation.SettlementMessage, Investigation.SqlSettled, Investigation.IsInProgress;
    var op := call.op;
    var t := SettleInconclusive(s, op.id, op.note, op.otherText, call.now);
    if t.result.Some? {
      var st := t.result.value;
      var card := Investigation.SettlementMessage(st.id, st.revision, st.state, None);
      if card.Some? && AppendMessage(t.state, op.chatId, card.value, AnyOwner, call.now).Committed? {
        AppendKeepsInvestigations(t.state, op.chatId, card.value, AnyOwner, call.now);
      }
    }
  }

  lemma ChatCallKeepsInvestigations(s: State, call: Call)
    requires call.op.Create? || call.op.SoftDelete? || call.op.SoftDeleteAll? || call.op.Persist? || call.op.Finalize? || call.op.Append?
    ensures Step(s, call).state.investigations == s.investigations
  {
    hide *;
    ChatStepRevises(s, call, []);
  }

  lemma UpsertCallStamps(s: State, call: Call, any: Str)
    requires call.op.UpsertInquiry?
    ensures OldMeansUntouched(s, Step(s, call).state, any, call.now)
  {
    hide CreateChat, SoftDeleteChat, SoftDeleteOrganization, DeleteChats, StoreMessages, PersistTurn, FinalizeMessage,
      AppendMessage, Upsert, Seed, RecordSweepAttempt, SettleInconclusive, SettleAndClose, SettleStateAndClose;
    var op := call.op;
    UpsertStamps(s, op.id, op.chatId, op.projectRef, op.environmentRef, op.state, op.freshId, call.now, any);
  }

  lemma SeedCallStamps(s: State, call: Call, any: Str)
    requires call.op.SeedInquiry?
    ensures OldMeansUntouched(s, Step(s, call).state, any, call.now)
  {
    hide WellFormed.Deep, InContext;
    hide CreateChat, SoftDeleteChat, SoftDeleteOrganization, DeleteChats, StoreMessages, PersistTurn, FinalizeMessage,
      AppendMessage, Upsert, RecordSweepAttempt, SettleInconclusive, SettleAndClose, SettleStateAndClose;
  }

  lemma HardDeleteStamps(s: State, call: Call, any: Str)
    requires call.op.HardDelete?
    ensures OldMeansUntouched(s, Step(s, call).state, any, call.now)
  {
    hide CreateChat, SoftDeleteChat, SoftDeleteOrganization, StoreMessages, PersistTurn, FinalizeMessage,
      AppendMessage, Upsert, Seed, RecordSweepAttempt, SettleInconclusive, SettleAndClose, SettleStateAndClose;
  }

  lemma AbandonStamps(s: State, call: Call, any: Str)
    requires call.op.Abandon?
    ensures OldMeansUntouched(s, Step(s, call).state, any, call.now)
  {
    hide Investigation.SqlSettled, Investigation.IsInProgress;
    hide CreateChat, SoftDeleteChat, SoftDeleteOrganization, DeleteChats, StoreMessages, PersistTurn, FinalizeMessage,
      AppendMessage, Upsert, Seed, RecordSweepAttempt, SettleAndClose, SettleStateAndClose;
  }

  lemma AttemptStamps(s: State, call: Call, any: Str)
    requires call.op.RecordAttempt?
    ensures var s' := Step(s, call).state;
      any in s'.investigations && s'.investigations[any].lastSweepAttemptAt.None? ==>
        any in s.investigations && s'.investigations[any] == s.investigations[any]
  {
    hide Investigation.IsInProgress;
  }

  lemma OldRowIsUntouched(s: State, call: Call, id: Str)
    ensures var s' := Step(s, call).state;
      id in s'.investigations && s'.investigations[id].lastSweepAttemptAt.None? && s'.investigations[id].updatedAt < call.now ==>
        id in s.investigations && s'.investigations[id] == s.investigations[id]
  {
    hide Step;
    match call.op {
      case Turn(_, _, _, _, _) => TurnStamps(s, call, id);
      case SettleState(_, _, _, _, _, _, _) => SettleStateStamps(s, call, id);
      case SweepSettle(_, _, _, _) => SweepSettleStamps(s, call, id);
      case RecordAttempt(_) => AttemptStamps(s, call, id);
      case HardDelete(_) => HardDeleteStamps(s, call, id);
      case UpsertInquiry(_, _, _, _, _, _) => UpsertCallStamps(s, call, id);
      case SeedInquiry(_, _, _, _, _) => SeedCallStamps(s, call, id);
      case Abandon(_, _, _) => AbandonStamps(s, call, id);
      case _ => ChatCallKeepsInvestigations(s, call);
    }
  }

  /** No later call puts a row ahead of an update time that has passed. */
  lemma CallKeepsAhead(s: State, call: Call, t: Time)
    requires call.now > t
    ensures Ahead(Step(s, call).state, t) <= Ahead(s, t)
  {
    hide Step, Investigation.IsInProgress;
    var s' := Step(s, call).state;
    forall id | id in Ahead(s', t) ensures id in Ahead(s, t) {
      OldRowIsUntouched(s, call, id);
      var c := s.investigations[id].chatId;
      if call.op.HardDelete? {
        HardDeleteTakesTheRows(s, call, id);
      } else {
        if IsDeleted(s, c) { DeletedChatStep(s, call, c); }
      }
    }
  }

  lemma HardDeleteTakesTheRows(s: State, call: Call, id: Str)
    requires call.op.HardDelete? && id in Step(s, call).state.investigations
    ensures id in s.investigations
    ensures var c := s.investigations[id].chatId;
      c in s.chats ==> c in Step(s, call).state.chats && Step(s, call).state.chats[c] == s.chats[c]
  {
  }

  predicate Later(calls: seq<Call>, t: Time) {
    forall call :: call in calls ==> call.now > t
  }

  lemma {:induction false} CallsKeepAhead(s: State, calls: seq<Call>, t: Time)
    requires Later(calls, t)
    ensures Ahead(RunState(s, calls), t) <= Ahead(s, t)
  {
    hide Step, Ahead;
    if calls != [] {
      var n := |calls| - 1;
      CallsKeepAhead(s, calls[..n], t);
      CallKeepsAhead(RunState(s, calls[..n]), calls[n], t);
    }
  }

  // ---- A handled row leaves the front of the queue ----

  /** The settle went through, or the attempt was recorded: one of the row's statements was answered. */
  predicate IsDealtWith(s: State, row: Listed, c: Circumstance, now: Time) {
    c.recordUp
    || (c.settleUp && SettleAndClose(s, row.id, row.chatId, Investigation.UNSETTLED_NOTE, c.otherText, now).Committed?)
  }

  /**
    Handling puts no row ahead, and leaves this one ahead exactly if it was, its settle failed
    and its attempt could not be recorded.
   */
  lemma HandledRowLeavesExactly(s: State, row: Listed, c: Circumstance, now: Time, t: Time)
    requires now > t
    ensures var after := Ahead(HandleRow(s, row.id, row.chatId, c, now).state, t);
      && after <= Ahead(s, t)
      && (row.id in after <==> row.id in Ahead(s, t) && !IsDealtWith(s, row, c, now))
  {
    hide SettleAndClose, SettleInconclusive, RecordSweepAttempt, Ahead, HandleFailure;
    var note := Investigation.UNSETTLED_NOTE;
    var t0 := SettleAndClose(s, row.id, row.chatId, note, c.otherText, now);
    if c.settleUp && t0.Committed? {
      CallKeepsAhead(s, Call(SweepSettle(row.id, row.chatId, note, c.otherText), now), t);
      SettledIsNotAhead(s, row, note, c.otherText, now, t);
    } else {
      FailureLeavesExactly(s, row, c, now, t);
    }
  }

  lemma FailureLeavesExactly(s: State, row: Listed, c: Circumstance, now: Time, t: Time)
    requires now > t
    ensures var after := Ahead(HandleFailure(s, row.id, c, now).state, t);
      after <= Ahead(s, t) && (row.id in after <==> row.id in Ahead(s, t) && !c.recordUp)
  {
    hide SettleInconclusive, RecordSweepAttempt, Ahead;
    if c.recordUp {
      var t1 := RecordSweepAttempt(s, row.id, now);
      AttemptedIsNotAhead(s, row.id, now, t);
      CallKeepsAhead(s, Call(RecordAttempt(row.id), now), t);
      CallKeepsAhead(t1.state, Call(Op.Abandon(row.id, Investigation.UNSETTLED_NOTE, c.otherText), now), t);
    }
  }

  lemma AttemptedIsNotAhead(s: State, id: Str, now: Time, t: Time)
    ensures RecordSweepAttempt(s, id, now).Committed?
    ensures id !in Ahead(RecordSweepAttempt(s, id, now).state, t)
  {
  }

  lemma SettledIsNotAhead(s: State, row: Listed, note: Str, text: Str, now: Time, t: Time)
    ensures var r := SettleAndClose(s, row.id, row.chatId, note, text, now); r.Committed? ==> row.id !in Ahead(r.state, t)
  {
    hide SettleAndClose, Investigation.IsInProgress, ClosingId;
    SweepSettleClosesExactly(s, row.id, row.chatId, note, text, now);
    var r := SettleAndClose(s, row.id, row.chatId, note, text, now);
    if r.Committed? && r.result.None? {
      NothingSettledMeansNotOpen(s, row, note, text, now);
    }
  }

  lemma NothingSettledMeansNotOpen(s: State, row: Listed, note: Str, text: Str, now: Time)
    requires var r := SettleAndClose(s, row.id, row.chatId, note, text, now); r.Committed? && r.result.None?
    ensures !Open(s, row.id)
  {
    hide Investigation.SettlementMessage, Investigation.SqlSettled, AppendMessage, Investigation.IsInProgress;
  }

  // ---- Rounds ----

  /** What happens before a listed row's turn comes, and how the database behaves when it does. */
  datatype Handling = Handling(before: seq<Call>, circumstance: Circumstance, now: Time)

  /** Other traffic, one listing, and the handling of its rows with more traffic in between. */
  datatype Round = Round(calls: seq<Call>, now: Time, ids: seq<Str>, handlings: seq<Handling>)

  function HandleEach(s: State, rows: seq<Listed>, handlings: seq<Handling>): State
    requires |rows| == |handlings|
  {
    if rows == [] then s
    else
      var n := |rows| - 1;
      var h := handlings[n];
      HandleRow(RunState(HandleEach(s, rows[..n], handlings[..n]), h.before), rows[n].id, rows[n].chatId, h.circumstance, h.now).state
  }

  predicate HandledLater(handlings: seq<Handling>, t: Time) {
    forall h :: h in handlings ==> h.now > t && Later(h.before, t)
  }

  /** For every row, when its turn comes, the settle goes through or the attempt is recorded. */
  predicate AllDealtWith(s: State, rows: seq<Listed>, handlings: seq<Handling>)
    requires |rows| == |handlings|
  {
    rows == []
    || (var n := |rows| - 1; var h := handlings[n];
        && AllDealtWith(s, rows[..n], handlings[..n])
        && IsDealtWith(RunState(HandleEach(s, rows[..n], handlings[..n]), h.before), rows[n], h.circumstance, h.now))
  }

  function Ids(rows: seq<Listed>): set<Str> {
    set row | row in rows :: row.id
  }

  lemma {:induction false} HandledRowsLeave(s: State, rows: seq<Listed>, handlings: seq<Handling>, t: Time)
    requires |rows| == |handlings| && HandledLater(handlings, t) && AllDealtWith(s, rows, handlings)
    ensures Ahead(HandleEach(s, rows, handlings), t) <= Ahead(s, t) - Ids(rows)
  {
    hide HandleRow, Ahead, IsDealtWith;
    if rows != [] {
      var n := |rows| - 1;
      assert rows == rows[..n] + [rows[n]] && handlings[n] in handlings;
      HandledRowsLeave(s, rows[..n], handlings[..n], t);
      var before := HandleEach(s, rows[..n], handlings[..n]);
      CallsKeepAhead(before, handlings[n].before, t);
      HandledRowLeavesExactly(RunState(before, handlings[n].before), rows[n], handlings[n].circumstance, handlings[n].now, t);
      assert Ids(rows) == Ids(rows[..n]) + {rows[n].id};
    }
  }

  function AtListing(s: State, round: Round): State {
    RunState(s, round.calls)
  }

  function AfterRound(s: State, round: Round): State
    requires |round.handlings| == |round.ids|
  {
    var s' := AtListing(s, round);
    HandleEach(s', Rows(s', round.ids), round.handlings)
  }

  /** The sweep lists what the query returns, every clock is past `t`, and each listed row is settled or its attempt recorded. */
  ghost predicate Sweeps(s: State, round: Round, t: Time, limit: nat) {
    && |round.handlings| == |round.ids|
    && Later(round.calls, t) && HandledLater(round.handlings, t)
    && AllDealtWith(AtListing(s, round), Rows(AtListing(s, round), round.ids), round.handlings)
    && IsListing(AtListing(s, round), round.now - STALE, limit, round.ids)
  }

  /** When the round lists, `x` is a stale row of a live chat that no sweep has attempted, last updated at `t`. */
  predicate Waits(s: State, round: Round, x: Str, t: Time) {
    var s' := AtListing(s, round);
    && Stale(s', x, round.now - STALE)
    && s'.investigations[x].lastSweepAttemptAt.None?
    && s'.investigations[x].updatedAt == t
  }

  ghost predicate Rounds(s: State, rounds: seq<Round>, x: Str, t: Time, limit: nat)
    decreases |rounds|
  {
    rounds != [] ==>
      && Sweeps(s, rounds[0], t, limit) && Waits(s, rounds[0], x, t)
      && Rounds(AfterRound(s, rounds[0]), rounds[1..], x, t, limit)
  }

  /** A listing that leaves out a waiting row is full, and every row on it is ahead of that row. */
  lemma FullListingIsAhead(s: State, olderThan: Time, limit: nat, ids: seq<Str>, x: Str)
    requires IsListing(s, olderThan, limit, ids)
    requires Stale(s, x, olderThan) && s.investigations[x].lastSweepAttemptAt.None? && x !in ids
    ensures |ids| == limit == |Elements(ids)|
    ensures Elements(ids) <= Ahead(s, s.investigations[x].updatedAt) - {x}
  {
    hide Investigation.IsInProgress;
    var all := Candidates(s, olderThan);
    DistinctElements(s, ids, all - Elements(ids));
    assert x in all - Elements(ids);
    Sets.SubsetWithoutOne(Elements(ids), all, x);
    forall id | id in ids ensures id in Ahead(s, s.investigations[x].updatedAt) {
      var i :| 0 <= i < |ids| && ids[i] == id;
      assert PrecedesAll(s, ids[i], all - Elements(ids));
      assert Precedes(s, id, x);
      assert id in Elements(ids) && Stale(s, id, olderThan);
    }
  }

  /** A round that does not list the waiting row takes `limit` rows out of its way. */
  lemma RoundMakesRoom(s: State, round: Round, x: Str, t: Time, limit: nat)
    requires Sweeps(s, round, t, limit) && Waits(s, round, x, t) && x !in round.ids
    ensures |Ahead(AfterRound(s, round), t) - {x}| + limit <= |Ahead(s, t) - {x}|
  {
    hide Ahead, IsListing, HandleEach, Stale, AllDealtWith;
    var s' := AtListing(s, round);
    FullListingIsAhead(s', round.now - STALE, limit, round.ids, x);
    CallsKeepAhead(s, round.calls, t);
    HandledRowsLeave(s', Rows(s', round.ids), round.handlings, t);
    RowsHaveTheirIds(s', round.ids);
    var left, listed, all := Ahead(AfterRound(s, round), t) - {x}, Elements(round.ids), Ahead(s, t) - {x};
    assert left <= all - listed && listed <= all;
    assert |all - listed| == |all| - |listed|;
    Sets.SubsetIsNoLarger(left, all - listed);
  }

  lemma RowsHaveTheirIds(s: State, ids: seq<Str>)
    ensures Ids(Rows(s, ids)) == Elements(ids)
  {
    var rows := Rows(s, ids);
    forall id | id in Elements(ids) ensures id in Ids(rows) {
      var i :| 0 <= i < |ids| && ids[i] == id;
      assert rows[i] in rows && rows[i].id == id;
    }
    forall id | id in Ids(rows) ensures id in Elements(ids) {
      var row :| row in rows && row.id == id;
      var i :| 0 <= i < |rows| && rows[i] == row;
      assert ids[i] == id;
    }
  }

  lemma OneRoundFewer(left: nat, all: nat, limit: nat, rounds: nat)
    requires left + limit <= all < limit * rounds && rounds >= 1
    ensures left < limit * (rounds - 1)
  {
    assert limit * rounds == limit * (rounds - 1) + limit;
  }

  /** Every round that passes the waiting row by removes `limit` of the rows ahead, so it cannot be passed by for ever. */
  lemma {:induction false} WaitingRowIsReached(s: State, rounds: seq<Round>, x: Str, t: Time, limit: nat) returns (j: nat)
    requires Rounds(s, rounds, x, t, limit)
    requires |Ahead(s, t) - {x}| < limit * |rounds|
    ensures j < |rounds| && x in rounds[j].ids
    decreases |rounds|
  {
    hide Ahead, IsListing, HandledLater, Waits, AfterRound, Later, AtListing, AllDealtWith;
    assert rounds != [];
    if x in rounds[0].ids {
      j := 0;
    } else {
      RoundMakesRoom(s, rounds[0], x, t, limit);
      OneRoundFewer(|Ahead(AfterRound(s, rounds[0]), t) - {x}|, |Ahead(s, t) - {x}|, limit, |rounds|);
      var i := WaitingRowIsReached(AfterRound(s, rounds[0]), rounds[1..], x, t, limit);
      j := i + 1;
    }
  }

  /**
    With `k` never-attempted rows ahead of it, a waiting row is on one of the next
    floor(k / limit) + 1 listings, however many other rows fail, and for how long.
   */
  lemma ReachedWithinTheBound(s: State, rounds: seq<Round>, x: Str, t: Time, limit: nat)
    requires limit >= 1 && Rounds(s, rounds, x, t, limit)
    requires |rounds| == |Ahead(s, t) - {x}| / limit + 1
    ensures exists j :: 0 <= j < |rounds| && x in rounds[j].ids
  {
    hide Ahead, Rounds;
    var k := |Ahead(s, t) - {x}|;
    assert k < limit * (k / limit + 1) by { Quotient(k, limit); }
    var j := WaitingRowIsReached(s, rounds, x, t, limit);
  }

  lemma Quotient(k: nat, limit: nat)
    requires limit >= 1
    ensures k < limit * (k / limit + 1)
  {
    assert k == limit * (k / limit) + k % limit;
  }
}
