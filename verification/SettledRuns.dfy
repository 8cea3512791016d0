/** Runs in which every settled investigation has its closing card in a transcript. */
module SettledRuns {
  import opened Text
  import opened Json
  import opened WellFormed
  import opened StoreState
  import opened StoreInvariant
  import opened StoreSteps
  import opened StoreRuns
  import opened StoreDurability
  import opened StoreSettlement
  import opened TurnSettlement
  import Investigation

  /** A row closed at a revision, and where its card went. */
  datatype Closing = Closing(id: Str, revision: nat, chatId: Str, messageId: Str)

  function TurnClosings(chatId: Str, settled: seq<Settled>): set<Closing> {
    set i | 0 <= i < |settled| :: Closing(settled[i].id, settled[i].revision, chatId, ClosingId(settled[i].id, settled[i].revision))
  }

  /** What a call reports to have closed. */
  function Closings(op: Op, e: Event): set<Closing> {
    match e
    case TurnEvent(settled) => if op.Turn? then TurnClosings(op.chatId, settled) else {}
    case SweepEvent(Some(card)) =>
      if op.SweepSettle? then {Closing(card.settled.id, card.settled.revision, op.chatId, ClosingId(card.settled.id, card.settled.revision))}
      else {}
    case CloseEvent(Closed(id, revision, _, true)) =>
      if op.SettleState? then {Closing(id, revision, op.chatId, ToWellFormed(op.messageId))} else {}
    case _ => {}
  }

  predicate CardedBy(s: State, id: Str, c: Closing) {
    && id in s.investigations
    && c.id == id && c.revision == s.investigations[id].revision && c.chatId == s.investigations[id].chatId
    && Stored(s, c.chatId, c.messageId)
  }

  /** The row is still open, or one of the closings is for exactly its revision and its card is in the row's own chat. */
  ghost predicate RowAccounted(s: State, id: Str, closings: set<Closing>) {
    id in s.investigations &&
      (Investigation.IsInProgress(s.investigations[id].state) || exists c :: c in closings && CardedBy(s, id, c))
  }

  ghost predicate Accounted(s: State, closings: set<Closing>) {
    forall id :: id in s.investigations ==> RowAccounted(s, id, closings)
  }

  /**
    The calls that must not settle silently: settling goes to a live chat, a sweep names the
    row's own chat, a row is committed outside the settle paths only while it is in progress,
    and none is force-abandoned. Chats may be hard-deleted at any time.
   */
  predicate SettlesIntoLiveChats(s: State, call: Call) {
    match call.op
    case Abandon(_, _, _) => false
    case UpsertInquiry(_, _, _, _, state, _) => Investigation.IsInProgress(Deep(state))
    case SeedInquiry(_, _, _, _, state) => Investigation.IsInProgress(Deep(state))
    case Turn(chatId, messages, _, pending, _) => (pending == [] || Live(s, chatId)) && forall m :: m in messages ==> Proper(m)
    case SweepSettle(id, chatId, _, _) => Live(s, chatId) && (id in s.investigations ==> s.investigations[id].chatId == chatId)
    case _ => true
  }

  predicate SameProgress(s: State, s': State, id: Str) {
    && id in s.investigations && id in s'.investigations
    && s'.investigations[id].state == s.investigations[id].state
    && s'.investigations[id].revision == s.investigations[id].revision
    && s'.investigations[id].chatId == s.investigations[id].chatId
  }

  /** Rows that did not move stay accounted for, as no message disappears. */
  lemma Accounting(s: State, s': State, closings: set<Closing>, added: set<Closing>)
    requires Accounted(s, closings)
    requires forall k :: k in s.messages ==> k in s'.messages
    requires forall id :: id in s'.investigations ==> SameProgress(s, s', id) || RowAccounted(s', id, added)
    ensures Accounted(s', closings + added)
  {
    hide Investigation.IsInProgress;
    forall id | id in s'.investigations ensures RowAccounted(s', id, closings + added) {
      if !RowAccounted(s', id, added) && !Investigation.IsInProgress(s'.investigations[id].state) {
        assert RowAccounted(s, id, closings);
        var c :| c in closings && CardedBy(s, id, c);
        assert CardedBy(s', id, c) && c in closings + added;
      } else if RowAccounted(s', id, added) && !Investigation.IsInProgress(s'.investigations[id].state) {
        var c :| c in added && CardedBy(s', id, c);
        assert c in closings + added;
      }
    }
  }

  /** A hard delete takes a chat's rows and its cards together. */
  lemma HardDeleteIsAccounted(s: State, call: Call, closings: set<Closing>)
    requires Accounted(s, closings) && call.op.HardDelete?
    ensures Accounted(Step(s, call).state, closings + Closings(call.op, Step(s, call).event))
  {
    hide Investigation.IsInProgress, RowAccounted;
    var s' := Step(s, call).state;
    forall id | id in s'.investigations ensures RowAccounted(s', id, closings + {}) {
      assert RowAccounted(s, id, closings);
      KeptRowIsAccounted(s, call.op.ids, id, closings);
    }
    assert closings + {} == closings;
  }

  lemma KeptRowIsAccounted(s: State, ids: set<Str>, id: Str, closings: set<Closing>)
    requires RowAccounted(s, id, closings) && id in DeleteChats(s, ids).investigations
    ensures RowAccounted(DeleteChats(s, ids), id, closings + {})
  {
    hide Investigation.IsInProgress;
    var s' := DeleteChats(s, ids);
    if !Investigation.IsInProgress(s.investigations[id].state) {
      var c :| c in closings && CardedBy(s, id, c);
      assert CardedBy(s', id, c) && c in closings + {};
    }
  }

  lemma ChatStepIsAccounted(s: State, call: Call, closings: set<Closing>)
    requires Accounted(s, closings)
    requires call.op.Create? || call.op.SoftDelete? || call.op.SoftDeleteAll? || call.op.Persist? || call.op.Finalize? || call.op.Append?
    ensures Accounted(Step(s, call).state, closings + Closings(call.op, Step(s, call).event))
  {
    hide Step, Accounted, RowAccounted, Investigation.IsInProgress;
    ChatStepRevises(s, call, []);
    StepIsDurable(s, call);
    Accounting(s, Step(s, call).state, closings, Closings(call.op, Step(s, call).event));
  }

  lemma OpenRowIsAccounted(s: State, id: Str, closings: set<Closing>)
    requires id in s.investigations && Investigation.IsInProgress(s.investigations[id].state)
    ensures RowAccounted(s, id, closings)
  {
  }

  lemma UpsertStepIsAccounted(s: State, call: Call, closings: set<Closing>)
    requires Accounted(s, closings) && call.op.UpsertInquiry? && SettlesIntoLiveChats(s, call)
    ensures Accounted(Step(s, call).state, closings + Closings(call.op, Step(s, call).event))
  {
    hide Upsert, Accounted, RowAccounted, Investigation.IsInProgress, Deep;
    var op := call.op;
    var u := Upsert(s, op.id, op.chatId, op.projectRef, op.environmentRef, op.state, op.freshId, call.now);
    if u.Committed? {
      UpsertedRow(s, op.id, op.chatId, op.projectRef, op.environmentRef, op.state, op.freshId, call.now);
      UpsertKeepsTranscripts(s, op.id, op.chatId, op.projectRef, op.environmentRef, op.state, op.freshId, call.now);
      if u.result.Upserted? { OpenRowIsAccounted(u.state, u.result.id, {}); }
      Accounting(s, u.state, closings, {});
    } else {
      Accounting(s, s, closings, {});
    }
  }

  lemma SeedStepIsAccounted(s: State, call: Call, closings: set<Closing>)
    requires Accounted(s, closings) && call.op.SeedInquiry? && SettlesIntoLiveChats(s, call)
    ensures Accounted(Step(s, call).state, closings + Closings(call.op, Step(s, call).event))
  {
    hide Accounted, RowAccounted, Investigation.IsInProgress, Deep;
    var op := call.op;
    var t := Seed(s, op.id, op.chatId, op.projectRef, op.environmentRef, op.state, call.now);
    if op.id !in s.investigations { OpenRowIsAccounted(t.state, op.id, {}); }
    Accounting(s, t.state, closings, {});
  }

  lemma AttemptStepIsAccounted(s: State, call: Call, closings: set<Closing>)
    requires Accounted(s, closings) && call.op.RecordAttempt?
    ensures Accounted(Step(s, call).state, closings + Closings(call.op, Step(s, call).event))
  {
    hide Accounted, RowAccounted, Investigation.IsInProgress;
    Accounting(s, RecordSweepAttempt(s, call.op.id, call.now).state, closings, {});
  }

  /** A settle that moved one row and stored its card. */
  lemma OneRowSettled(s: State, s': State, closings: set<Closing>, c: Closing)
    requires Accounted(s, closings)
    requires forall k :: k in s.messages ==> k in s'.messages
    requires forall i :: i in s'.investigations && i != c.id ==> SameProgress(s, s', i)
    requires CardedBy(s', c.id, c)
    ensures Accounted(s', closings + {c})
  {
    hide Accounted, Investigation.IsInProgress;
    assert RowAccounted(s', c.id, {c});
    Accounting(s, s', closings, {c});
  }

  lemma SweepMovesOneRow(s: State, op: Op, now: Time)
    requires op.SweepSettle?
    ensures forall i :: i in s.investigations && i != op.id ==> SameProgress(s, Step(s, Call(op, now)).state, i)
    ensures Step(s, Call(op, now)).state.investigations.Keys == s.investigations.Keys
  {
    hide AppendMessage, Investigation.SettlementMessage, Investigation.SqlSettled, Investigation.IsInProgress;
    var t := SettleInconclusive(s, op.id, op.note, op.otherText, now);
    if t.result.Some? {
      var card := Investigation.SettlementMessage(t.result.value.id, t.result.value.revision, t.result.value.state, None);
      if card.Some? && AppendMessage(t.state, op.chatId, card.value, AnyOwner, now).Committed? {
        AppendKeepsInvestigations(t.state, op.chatId, card.value, AnyOwner, now);
      }
    }
  }

  lemma SweepStepIsAccounted(s: State, call: Call, closings: set<Closing>)
    requires Accounted(s, closings) && call.op.SweepSettle? && SettlesIntoLiveChats(s, call)
    ensures Accounted(Step(s, call).state, closings + Closings(call.op, Step(s, call).event))
  {
    hide SettleAndClose, Accounted, RowAccounted, Investigation.IsInProgress, ClosingId;
    var op := call.op;
    var t := SettleAndClose(s, op.id, op.chatId, op.note, op.otherText, call.now);
    SweepSettleClosesExactly(s, op.id, op.chatId, op.note, op.otherText, call.now);
    SweepMovesOneRow(s, op, call.now);
    SweepSettleRevises(s, op, call.now, op.id);
    StepIsDurable(s, call);
    if t.Committed? && t.result.Some? {
      var st := t.result.value.settled;
      OneRowSettled(s, t.state, closings, Closing(op.id, st.revision, op.chatId, ClosingId(op.id, st.revision)));
    } else {
      Accounting(s, s, closings, {});
    }
  }

  lemma SettleStateMovesOneRow(s: State, op: Op, now: Time)
    requires op.SettleState?
    ensures var t := SettleStateAndClose(s, op.id, op.chatId, op.projectRef, op.environmentRef, op.state, op.messageId, op.freshId, now);
      t.Committed? && t.result.Closed? && t.result.closed ==>
        && t.result.id in t.state.investigations && t.state.investigations[t.result.id].chatId == op.chatId
        && forall i :: i in t.state.investigations && i != t.result.id ==> SameProgress(s, t.state, i)
  {
    hide SettleStateAndClose, AppendMessage, Upsert, Investigation.SettlementMessage, Deep;
    var t := SettleStateAndClose(s, op.id, op.chatId, op.projectRef, op.environmentRef, op.state, op.messageId, op.freshId, now);
    SettleStateOutcome(s, op, now);
    if t.Committed? && t.result.Closed? && t.result.closed {
      var u := Upsert(s, op.id, op.chatId, op.projectRef, op.environmentRef, op.state, op.freshId, now);
      UpsertedRow(s, op.id, op.chatId, op.projectRef, op.environmentRef, op.state, op.freshId, now);
      UpsertedRowIsOwn(s, op.id, op.chatId, op.projectRef, op.environmentRef, op.state, op.freshId, now);
      AppendKeepsInvestigations(u.state, op.chatId, t.result.card, AnyOwner, now);
    }
  }

  lemma SettleStateStepIsAccounted(s: State, call: Call, closings: set<Closing>)
    requires Accounted(s, closings) && call.op.SettleState?
    ensures Accounted(Step(s, call).state, closings + Closings(call.op, Step(s, call).event))
  {
    hide SettleStateAndClose, Accounted, RowAccounted, Investigation.IsInProgress;
    var op := call.op;
    var t := SettleStateAndClose(s, op.id, op.chatId, op.projectRef, op.environmentRef, op.state, op.messageId, op.freshId, call.now);
    SettleStateClosesOrChangesNothing(s, op, call.now);
    SettleStateMovesOneRow(s, op, call.now);
    StepIsDurable(s, call);
    if t.Committed? && t.result.Closed? && t.result.closed {
      OneRowSettled(s, t.state, closings, Closing(t.result.id, t.result.revision, op.chatId, ToWellFormed(op.messageId)));
    } else {
      Accounting(s, s, closings, {});
    }
  }

  // ---- Turns ----

  predicate Settles(settled: seq<Settled>, id: Str) {
    exists i :: 0 <= i < |settled| && settled[i].id == id
  }

  lemma {:induction false} LastSettlementOf(settled: seq<Settled>, id: Str) returns (i: nat)
    requires Settles(settled, id)
    ensures i < |settled| && settled[i].id == id && IsLast(settled, i)
  {
    var n := |settled| - 1;
    if settled[n].id == id {
      i := n;
    } else {
      var k :| 0 <= k < |settled| && settled[k].id == id;
      assert settled[..n][k].id == id;
      i := LastSettlementOf(settled[..n], id);
      assert forall j :: i < j < n ==> settled[j] == settled[..n][j];
    }
  }

  lemma {:induction false} PendingLeavesOtherRows(s: State, chatId: Str, pending: seq<Pending>, now: Time, id: Str)
    requires SettlePending(s, chatId, pending, now).Committed?
    ensures var t := SettlePending(s, chatId, pending, now);
      id in t.state.investigations && !Settles(t.result.settled, id) ==>
        id in s.investigations && t.state.investigations[id] == s.investigations[id]
  {
    hide Upsert, Investigation.SettlementMessage;
    if pending != [] {
      var n := |pending| - 1;
      var p := pending[n];
      PendingLeavesOtherRows(s, chatId, pending[..n], now, id);
      var before := SettlePending(s, chatId, pending[..n], now);
      var t := SettlePending(s, chatId, pending, now);
      UpsertedRow(before.state, p.id, chatId, p.projectRef, p.environmentRef, p.state, p.freshId, now);
      if t.result != before.result {
        var last := t.result.settled[|before.result.settled|];
        if Settles(before.result.settled, id) {
          var k :| 0 <= k < |before.result.settled| && before.result.settled[k].id == id;
          assert t.result.settled[k].id == id;
        }
      }
    }
  }

  lemma {:induction false} SettledRowIsOwn(s: State, chatId: Str, pending: seq<Pending>, now: Time, id: Str)
    requires SettlePending(s, chatId, pending, now).Committed?
    ensures var t := SettlePending(s, chatId, pending, now);
      Settles(t.result.settled, id) ==> id in t.state.investigations && t.state.investigations[id].chatId == chatId
  {
    hide Upsert, Investigation.SettlementMessage, Deep;
    if pending != [] {
      var n := |pending| - 1;
      var p := pending[n];
      SettledRowIsOwn(s, chatId, pending[..n], now, id);
      var before := SettlePending(s, chatId, pending[..n], now);
      var t := SettlePending(s, chatId, pending, now);
      var u := Upsert(before.state, p.id, chatId, p.projectRef, p.environmentRef, p.state, p.freshId, now);
      UpsertedRow(before.state, p.id, chatId, p.projectRef, p.environmentRef, p.state, p.freshId, now);
      if u.result.Upserted? {
        UpsertedRowIsOwn(before.state, p.id, chatId, p.projectRef, p.environmentRef, p.state, p.freshId, now);
        SettlesAppended(before.result.settled, Settled(u.result.id, u.result.revision, p.state), id);
      }
    }
  }

  lemma SettlesAppended(settled: seq<Settled>, last: Settled, id: Str)
    ensures Settles(settled + [last], id) <==> Settles(settled, id) || last.id == id
  {
    var all := settled + [last];
    if last.id == id { assert all[|settled|].id == id; }
    if Settles(settled, id) {
      var k :| 0 <= k < |settled| && settled[k].id == id;
      assert all[k].id == id;
    }
  }

  lemma TurnRowIsAccounted(s: State, op: Op, now: Time, id: Str)
    requires op.Turn? && (op.pending == [] || Live(s, op.chatId)) && (forall m :: m in op.messages ==> Proper(m))
    requires PersistTurn(s, op.chatId, op.messages, op.session, op.pending, op.finalizeIds, now).Committed?
    requires id in PersistTurn(s, op.chatId, op.messages, op.session, op.pending, op.finalizeIds, now).state.investigations
    ensures var r := PersistTurn(s, op.chatId, op.messages, op.session, op.pending, op.finalizeIds, now);
      SameProgress(s, r.state, id) || RowAccounted(r.state, id, TurnClosings(op.chatId, r.result))
  {
    hide StoreMessages, SettlePending, NewCards, PersistTurn, ClosingId, RawIds, Deep, Investigation.IsInProgress, Proper;
    var r := PersistTurn(s, op.chatId, op.messages, op.session, op.pending, op.finalizeIds, now);
    var t, all := TurnParts(s, op, now);
    StoreKeepsInvestigations(t.state, op.chatId, all, Finalizable(op.finalizeIds), now);
    PendingLeavesOtherRows(s, op.chatId, op.pending, now, id);
    SettledRowIsOwn(s, op.chatId, op.pending, now, id);
    TurnClosesItsCardsExactly(s, op, now);
    if Settles(r.result, id) {
      NothingPendingSettlesNothing(s, op, now);
      var i := LastSettlementOf(r.result, id);
      assert Stands(r.state, r.result[i]);
      var c := Closing(id, r.result[i].revision, op.chatId, ClosingId(id, r.result[i].revision));
      assert c in TurnClosings(op.chatId, r.result) && CardedBy(r.state, id, c);
    }
  }

  lemma NothingPendingSettlesNothing(s: State, op: Op, now: Time)
    requires op.Turn?
    ensures op.pending == [] ==> SettlePending(s, op.chatId, op.pending, now) == Committed(s, TurnSettlements([], []))
  {
  }

  lemma TurnStepIsAccounted(s: State, call: Call, closings: set<Closing>)
    requires Accounted(s, closings) && call.op.Turn? && SettlesIntoLiveChats(s, call)
    ensures Accounted(Step(s, call).state, closings + Closings(call.op, Step(s, call).event))
  {
    hide PersistTurn, Accounted, RowAccounted, TurnClosings, Proper, Deep, Investigation.IsInProgress;
    var op := call.op;
    var r := PersistTurn(s, op.chatId, op.messages, op.session, op.pending, op.finalizeIds, call.now);
    StepIsDurable(s, call);
    if r.Committed? {
      forall id | id in r.state.investigations
        ensures SameProgress(s, r.state, id) || RowAccounted(r.state, id, TurnClosings(op.chatId, r.result))
      {
        TurnRowIsAccounted(s, op, call.now, id);
      }
      Accounting(s, r.state, closings, TurnClosings(op.chatId, r.result));
    } else {
      Accounting(s, s, closings, {});
    }
  }

  lemma StepIsAccounted(s: State, call: Call, closings: set<Closing>)
    requires Accounted(s, closings) && SettlesIntoLiveChats(s, call)
    ensures Accounted(Step(s, call).state, closings + Closings(call.op, Step(s, call).event))
  {
    hide Step, Accounted, Closings, Deep, Proper, Investigation.IsInProgress;
    match call.op {
      case UpsertInquiry(_, _, _, _, _, _) => UpsertStepIsAccounted(s, call, closings);
      case SeedInquiry(_, _, _, _, _) => SeedStepIsAccounted(s, call, closings);
      case RecordAttempt(_) => AttemptStepIsAccounted(s, call, closings);
      case SweepSettle(_, _, _, _) => SweepStepIsAccounted(s, call, closings);
      case SettleState(_, _, _, _, _, _, _) => SettleStateStepIsAccounted(s, call, closings);
      case Turn(_, _, _, _, _) => TurnStepIsAccounted(s, call, closings);
      case HardDelete(_) => HardDeleteIsAccounted(s, call, closings);
      case _ => ChatStepIsAccounted(s, call, closings);
    }
  }

  // ---- Whole runs ----

  predicate RunSettlesIntoLiveChats(s: State, calls: seq<Call>) {
    calls == []
    || (var n := |calls| - 1;
        RunSettlesIntoLiveChats(s, calls[..n]) && SettlesIntoLiveChats(RunState(s, calls[..n]), calls[n]))
  }

  function RunClosings(s: State, calls: seq<Call>): set<Closing> {
    if calls == [] then {}
    else
      var n := |calls| - 1;
      RunClosings(s, calls[..n]) + Closings(calls[n].op, EventAt(s, calls, n))
  }

  lemma {:induction false} RunIsAccounted(s: State, calls: seq<Call>)
    requires Accounted(s, {}) && RunSettlesIntoLiveChats(s, calls)
    ensures Accounted(RunState(s, calls), RunClosings(s, calls))
  {
    hide Step, Accounted, Closings, SettlesIntoLiveChats;
    if calls != [] {
      var n := |calls| - 1;
      RunIsAccounted(s, calls[..n]);
      StepIsAccounted(RunState(s, calls[..n]), calls[n], RunClosings(s, calls[..n]));
    }
  }

  /**
    No run leaves a settled row without its card: whatever is not in progress was closed at
    exactly its present revision, and the closing card is in the transcript of its chat.
   */
  lemma NoSettledRowWithoutItsCard(calls: seq<Call>, id: Str)
    requires RunSettlesIntoLiveChats(EMPTY, calls)
    requires var s := RunState(EMPTY, calls);
      id in s.investigations && !Investigation.IsInProgress(s.investigations[id].state)
    ensures exists c :: c in RunClosings(EMPTY, calls) && CardedBy(RunState(EMPTY, calls), id, c)
  {
    hide Step, Closings, SettlesIntoLiveChats, Investigation.IsInProgress;
    RunIsAccounted(EMPTY, calls);
    assert RowAccounted(RunState(EMPTY, calls), id, RunClosings(EMPTY, calls));
  }
}
