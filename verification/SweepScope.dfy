/** What the stale sweep may touch, said in the columns of the tables. */
module SweepScope {
  import opened Text
  import opened Json
  import opened WellFormed
  import opened StoreState
  import opened StoreInvariant
  import opened StoreRuns
  import opened StoreDurability
  import opened StoreReach
  import opened StoreLifecycle
  import opened StoreSettlement
  import opened SweepOrder
  import opened Sweep
  import Investigation
  import DeletedChat
  import Sets

  /** The state says `in_progress`, the chat's row is there and not deleted, and the last update is no later than `olderThan`. */
  predicate MaySweep(s: State, row: Inquiry, olderThan: Time) {
    && row.state.Object? && Get(row.state.fields, Lit("outcome")) == Some(String(Lit("in_progress")))
    && row.chatId in s.chats && s.chats[row.chatId].deletedAt == None
    && row.updatedAt <= olderThan
  }

  /** Never attempted before ever attempted, then the earlier attempt, then the earlier update. */
  predicate ListsNoLater(a: Inquiry, b: Inquiry) {
    || (a.lastSweepAttemptAt == None && b.lastSweepAttemptAt != None)
    || (a.lastSweepAttemptAt == None && b.lastSweepAttemptAt == None && a.updatedAt <= b.updatedAt)
    || (a.lastSweepAttemptAt.Some? && b.lastSweepAttemptAt.Some?
        && (a.lastSweepAttemptAt.value < b.lastSweepAttemptAt.value
            || (a.lastSweepAttemptAt.value == b.lastSweepAttemptAt.value && a.updatedAt <= b.updatedAt)))
  }

  lemma StaleInColumns(s: State, id: Str, olderThan: Time)
    ensures Stale(s, id, olderThan) <==> id in s.investigations && MaySweep(s, s.investigations[id], olderThan)
  {
  }

  lemma OrderInColumns(a: Inquiry, b: Inquiry)
    ensures NoLater(a, b) <==> ListsNoLater(a, b)
  {
  }

  /**
    A listing in columns: every listed row may be swept, no row is listed twice or out of order,
    and a row that may be swept is left out only of a full listing whose rows all come no later.
   */
  lemma ListingIsExact(s: State, olderThan: Time, limit: nat, ids: seq<Str>)
    requires IsListing(s, olderThan, limit, ids)
    ensures |ids| <= limit
    ensures forall id :: id in ids ==> id in s.investigations && MaySweep(s, s.investigations[id], olderThan)
    ensures forall i, j :: 0 <= i < j < |ids| ==>
      ids[i] != ids[j] && ListsNoLater(s.investigations[ids[i]], s.investigations[ids[j]])
    ensures forall id :: id in s.investigations && MaySweep(s, s.investigations[id], olderThan) && id !in ids ==>
      |ids| == limit && forall l :: l in ids ==> ListsNoLater(s.investigations[l], s.investigations[id])
  {
    hide Stale, MaySweep, NoLater, ListsNoLater;
    var all := Candidates(s, olderThan);
    forall id | id in ids ensures id in s.investigations && MaySweep(s, s.investigations[id], olderThan) {
      assert id in Elements(ids);
      StaleInColumns(s, id, olderThan);
    }
    forall i, j | 0 <= i < j < |ids| ensures ListsNoLater(s.investigations[ids[i]], s.investigations[ids[j]]) {
      assert Precedes(s, ids[i], ids[j]);
      OrderInColumns(s.investigations[ids[i]], s.investigations[ids[j]]);
    }
    forall id | id in s.investigations && MaySweep(s, s.investigations[id], olderThan) && id !in ids
      ensures |ids| == limit && forall l :: l in ids ==> ListsNoLater(s.investigations[l], s.investigations[id])
    {
      StaleInColumns(s, id, olderThan);
      assert id in all - Elements(ids);
      LeftOutOfAFullListing(s, olderThan, limit, ids, id);
      forall l | l in ids ensures ListsNoLater(s.investigations[l], s.investigations[id]) {
        var i :| 0 <= i < |ids| && ids[i] == l;
        assert PrecedesAll(s, ids[i], all - Elements(ids));
        assert Precedes(s, l, id);
        OrderInColumns(s.investigations[l], s.investigations[id]);
      }
    }
  }

  lemma LeftOutOfAFullListing(s: State, olderThan: Time, limit: nat, ids: seq<Str>, id: Str)
    requires IsListing(s, olderThan, limit, ids) && id in Candidates(s, olderThan) && id !in ids
    ensures |ids| == limit
  {
    hide Stale, Precedes, PrecedesAll;
    var all := Candidates(s, olderThan);
    DistinctElements(s, ids, all - Elements(ids));
    assert Elements(ids) <= all - {id};
    Sets.SubsetIsNoLarger(Elements(ids), all - {id});
  }

  // ---- A whole sweep ----

  /** The row, and every chat's row but for a card appended to it. */
  lemma HandlingTouchesOneRow(s: State, row: Listed, c: Circumstance, now: Time, other: Str)
    requires other != row.id
    ensures var s' := HandleRow(s, row.id, row.chatId, c, now).state;
      (other in s'.investigations <==> other in s.investigations)
      && (other in s.investigations ==> s'.investigations[other] == s.investigations[other])
  {
    hide SettleAndClose, SettleInconclusive, RecordSweepAttempt;
    SettleTouchesOneRow(s, row, c.otherText, now, other);
    FailureTouchesOneRow(s, row.id, c, now, other);
  }

  lemma SettleTouchesOneRow(s: State, row: Listed, text: Str, now: Time, other: Str)
    requires other != row.id
    ensures var t := SettleAndClose(s, row.id, row.chatId, Investigation.UNSETTLED_NOTE, text, now);
      t.Committed? ==>
        && (other in t.state.investigations <==> other in s.investigations)
        && (other in s.investigations ==> t.state.investigations[other] == s.investigations[other])
  {
    hide AppendMessage, Investigation.SettlementMessage, Investigation.SqlSettled, Investigation.IsInProgress;
    var t := SettleInconclusive(s, row.id, Investigation.UNSETTLED_NOTE, text, now);
    if t.result.Some? {
      var st := t.result.value;
      var card := Investigation.SettlementMessage(st.id, st.revision, st.state, None);
      if card.Some? && AppendMessage(t.state, row.chatId, card.value, AnyOwner, now).Committed? {
        AppendKeepsInvestigations(t.state, row.chatId, card.value, AnyOwner, now);
      }
    }
  }

  lemma FailureTouchesOneRow(s: State, id: Str, c: Circumstance, now: Time, other: Str)
    requires other != id
    ensures var s' := HandleFailure(s, id, c, now).state;
      (other in s'.investigations <==> other in s.investigations)
      && (other in s.investigations ==> s'.investigations[other] == s.investigations[other])
  {
    hide Investigation.SqlSettled, Investigation.IsInProgress;
  }

  lemma {:induction false} SweepTouchesListedRows(s: State, rows: seq<Listed>, at: nat -> Circumstance, now: Time, other: Str)
    requires forall row :: row in rows ==> row.id != other
    requires other in s.investigations
    ensures var s' := HandleAll(s, rows, at, now).0;
      other in s'.investigations && s'.investigations[other] == s.investigations[other]
  {
    hide HandleRow;
    if rows != [] {
      var n := |rows| - 1;
      assert rows[n] in rows && forall row :: row in rows[..n] ==> row in rows;
      SweepTouchesListedRows(s, rows[..n], at, now, other);
      HandlingTouchesOneRow(HandleAll(s, rows[..n], at, now).0, rows[n], at(n), now, other);
    }
  }

  /**
    A sweep leaves alone whatever it has no business with: a row that is not in progress, whose
    chat is gone or deleted, or that was updated within the last half hour is the same afterwards,
    however the database behaves.
   */
  lemma SweepSparesOtherRows(s: State, ids: seq<Str>, limit: nat, at: nat -> Circumstance, now: Time, id: Str)
    requires IsListing(s, now - STALE, limit, ids)
    requires id in s.investigations && !MaySweep(s, s.investigations[id], now - 1_800_000)
    ensures var s' := HandleAll(s, Rows(s, ids), at, now).0;
      id in s'.investigations && s'.investigations[id] == s.investigations[id]
  {
    hide IsListing, MaySweep, HandleAll;
    ListingIsExact(s, now - STALE, limit, ids);
    var rows := Rows(s, ids);
    forall row | row in rows ensures row.id != id {
      var i :| 0 <= i < |rows| && rows[i] == row;
      assert ids[i] in ids;
    }
    SweepTouchesListedRows(s, rows, at, now, id);
  }

  // ---- Listed rows are settled ----

  predicate IsSweepCall(call: Call) {
    call.op.SweepSettle? || call.op.RecordAttempt? || call.op.Abandon?
  }

  /** Handling a row is at most two calls of the run model. */
  lemma HandlingIsARun(s: State, row: Listed, c: Circumstance, now: Time) returns (calls: seq<Call>)
    ensures RunState(s, calls) == HandleRow(s, row.id, row.chatId, c, now).state
    ensures forall call :: call in calls ==> IsSweepCall(call)
  {
    hide CreateChat, SoftDeleteChat, SoftDeleteOrganization, DeleteChats, StoreMessages, PersistTurn, FinalizeMessage,
      AppendMessage, Upsert, Seed, RecordSweepAttempt, SettleInconclusive, SettleAndClose, SettleStateAndClose;
    var note := Investigation.UNSETTLED_NOTE;
    var settle, record, abandon := Call(SweepSettle(row.id, row.chatId, note, c.otherText), now),
      Call(RecordAttempt(row.id), now), Call(Op.Abandon(row.id, note, c.otherText), now);
    OneCall(s, settle);
    OneCall(s, record);
    TwoCalls(s, record, abandon);
    RecordKeepsTranscripts(s, row.id, now);
    SettleInconclusiveNeverFails(RecordSweepAttempt(s, row.id, now).state, row.id, note, c.otherText, now);
    if c.settleUp && SettleAndClose(s, row.id, row.chatId, note, c.otherText, now).Committed? {
      calls := [settle];
    } else if !c.recordUp {
      calls := [];
    } else if HandleFailure(s, row.id, c, now).verdict == Abandoned {
      calls := [record, abandon];
    } else {
      calls := [record];
    }
  }

  lemma OneCall(s: State, call: Call)
    ensures RunState(s, [call]) == Step(s, call).state
  {
    hide Step;
    assert [call][..0] == [];
  }

  lemma TwoCalls(s: State, a: Call, b: Call)
    ensures RunState(s, [a, b]) == Step(Step(s, a).state, b).state
  {
    hide Step;
    OneCall(s, a);
    assert [a, b][..1] == [a];
  }

  /** Handling rows deletes no chat and loses no message. */
  lemma HandlingKeepsTranscripts(s: State, row: Listed, c: Circumstance, now: Time, chatId: Str)
    requires Live(s, chatId)
    ensures var s' := HandleRow(s, row.id, row.chatId, c, now).state;
      Live(s', chatId) && forall id :: Stored(s, chatId, id) ==> Stored(s', chatId, id)
  {
    hide HandleRow, Step, Deletes, Spares;
    var calls := HandlingIsARun(s, row, c, now);
    forall i | 0 <= i < |calls| ensures Spares(calls[i], chatId) && !Deletes(calls[i].op, chatId, s.chats[chatId]) {
      assert calls[i] in calls;
      SweepCallsDeleteNothing(calls[i], chatId, s.chats[chatId]);
    }
    OnlyItsOwnersDeleteAChat(s, calls, chatId);
    forall id | Stored(s, chatId, id) ensures Stored(RunState(s, calls), chatId, id) {
      MessagesAreDurable(s, calls, MessageKey(chatId, id));
    }
  }

  lemma SweepCallsDeleteNothing(call: Call, chatId: Str, chat: Chat)
    requires IsSweepCall(call)
    ensures Spares(call, chatId) && !Deletes(call.op, chatId, chat)
  {
  }

  lemma {:induction false} SweepKeepsTranscripts(s: State, rows: seq<Listed>, from: nat, at: nat -> Circumstance, now: Time, chatId: Str)
    requires from <= |rows| && Live(HandleAll(s, rows[..from], at, now).0, chatId)
    ensures var a, b := HandleAll(s, rows[..from], at, now).0, HandleAll(s, rows, at, now).0;
      Live(b, chatId) && forall id :: Stored(a, chatId, id) ==> Stored(b, chatId, id)
    decreases |rows|
  {
    hide HandleRow;
    if from < |rows| {
      var n := |rows| - 1;
      assert rows[..n][..from] == rows[..from];
      SweepKeepsTranscripts(s, rows[..n], from, at, now, chatId);
      HandlingKeepsTranscripts(HandleAll(s, rows[..n], at, now).0, rows[n], at(n), now, chatId);
    } else {
      assert rows[..from] == rows;
    }
  }

  lemma {:induction false} LaterRowsLeaveItAlone(s: State, rows: seq<Listed>, from: nat, at: nat -> Circumstance, now: Time, id: Str)
    requires from <= |rows| && id in HandleAll(s, rows[..from], at, now).0.investigations
    requires forall j :: from <= j < |rows| ==> rows[j].id != id
    ensures var a, b := HandleAll(s, rows[..from], at, now).0, HandleAll(s, rows, at, now).0;
      id in b.investigations && b.investigations[id] == a.investigations[id]
    decreases |rows|
  {
    hide HandleRow;
    if from < |rows| {
      var n := |rows| - 1;
      assert rows[..n][..from] == rows[..from];
      LaterRowsLeaveItAlone(s, rows[..n], from, at, now, id);
      HandlingTouchesOneRow(HandleAll(s, rows[..n], at, now).0, rows[n], at(n), now, id);
    } else {
      assert rows[..from] == rows;
    }
  }

  /** A settled row says `inconclusive`. */
  lemma SettledSaysInconclusive(s: State, id: Str, chatId: Str, text: Str, now: Time)
    requires Open(s, id)
    requires var t := SettleAndClose(s, id, chatId, Investigation.UNSETTLED_NOTE, text, now); t.Committed? && t.result.Some?
    ensures var t := SettleAndClose(s, id, chatId, Investigation.UNSETTLED_NOTE, text, now);
      id in t.state.investigations && SaysInconclusive(t.state.investigations[id].state)
  {
    hide AppendMessage, Investigation.SettlementMessage, Investigation.SettledFields, Investigation.IsInProgress;
    var row := s.investigations[id];
    var t := SettleInconclusive(s, id, Investigation.UNSETTLED_NOTE, text, now);
    var st := t.result.value;
    var card := Investigation.SettlementMessage(st.id, st.revision, st.state, None);
    AppendKeepsInvestigations(t.state, chatId, card.value, AnyOwner, now);
    InProgressIsAnObject(row.state);
    Investigation.SettledMembers(row.state.fields,
      Investigation.Btrim(Investigation.HeadlineText(row.state.fields, text) + [Investigation.SPACE] + Investigation.UNSETTLED_NOTE),
      Investigation.OUTCOME);
    Investigation.SettledKeysDiffer();
  }

  predicate SaysInconclusive(state: Value) {
    state.Object? && Get(state.fields, Lit("outcome")) == Some(String(Lit("inconclusive")))
  }

  lemma ListedRowIsSettled(s: State, id: Str, c: Circumstance, now: Time)
    requires Open(s, id) && Live(s, s.investigations[id].chatId) && c.settleUp
    requires Investigation.ValidRest(s.investigations[id].state.fields)
    ensures var row := s.investigations[id]; var s' := HandleRow(s, id, row.chatId, c, now).state;
      && id in s'.investigations && SaysInconclusive(s'.investigations[id].state)
      && s'.investigations[id].revision == row.revision + 1
      && Stored(s', row.chatId, ClosingId(id, row.revision + 1))
  {
    hide SettleAndClose, Investigation.ValidRest, Investigation.IsInProgress, ClosingId, HandleFailure, SaysInconclusive;
    var row := s.investigations[id];
    SweepSettleCommitsExactly(s, id, row.chatId, Investigation.UNSETTLED_NOTE, c.otherText, now);
    SweepSettleClosesExactly(s, id, row.chatId, Investigation.UNSETTLED_NOTE, c.otherText, now);
    DeletedChat.StillOpenRowsAreSettled(s, id, row.chatId, Investigation.UNSETTLED_NOTE, c.otherText, now);
    SettledSaysInconclusive(s, id, row.chatId, c.otherText, now);
  }

  /**
    Whatever the database refuses the other rows, a listed row that can be rendered and whose
    settle is answered ends the sweep settled at its next revision, with its card in its own chat.
   */
  lemma SweepSettlesListedRow(s: State, ids: seq<Str>, limit: nat, at: nat -> Circumstance, now: Time, i: nat)
    requires IsListing(s, now - STALE, limit, ids) && i < |ids| && at(i).settleUp
    requires ids[i] in s.investigations && s.investigations[ids[i]].state.Object?
    requires Investigation.ValidRest(s.investigations[ids[i]].state.fields)
    ensures var id, row, s' := ids[i], s.investigations[ids[i]], HandleAll(s, Rows(s, ids), at, now).0;
      && id in s'.investigations && s'.investigations[id].revision == row.revision + 1
      && SaysInconclusive(s'.investigations[id].state)
      && Stored(s', row.chatId, ClosingId(id, row.revision + 1))
  {
    hide IsListing, MaySweep, HandleRow, Investigation.ValidRest, ClosingId, Stale, SaysInconclusive;
    var id, row, rows := ids[i], s.investigations[ids[i]], Rows(s, ids);
    ListingIsExact(s, now - STALE, limit, ids);
    StaleInColumns(s, id, now - STALE);
    assert id in ids;
    StaleIsOpen(s, id, now - STALE);
    assert rows[..0] == [];
    var before := HandleAll(s, rows[..i], at, now).0;
    assert rows[..i][..0] == [];
    LaterRowsLeaveItAlone(s, rows[..i], 0, at, now, id);
    SweepKeepsTranscripts(s, rows[..i], 0, at, now, row.chatId);
    ListedRowIsSettled(before, id, at(i), now);
    assert rows[..i + 1][..i] == rows[..i] && rows[i] == Listed(id, row.chatId);
    HandlingKeepsTranscripts(before, rows[i], at(i), now, row.chatId);
    LaterRowsLeaveItAlone(s, rows, i + 1, at, now, id);
    SweepKeepsTranscripts(s, rows, i + 1, at, now, row.chatId);
  }

  lemma StaleIsOpen(s: State, id: Str, olderThan: Time)
    requires Stale(s, id, olderThan)
    ensures Open(s, id) && Live(s, s.investigations[id].chatId)
  {
  }
}
