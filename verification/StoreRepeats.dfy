/** Calls against each other over a run: repeated appends and openings, the last finalisation, strangers to a row. */
module StoreRepeats {
  import opened Text
  import opened Json
  import opened WellFormed
  import opened StoreState
  import opened StoreInvariant
  import opened StoreRuns
  import opened StoreDurability
  import Investigation

  // ---- Appends ----

  /** Call `i` appends a message with that id to the chat, for whichever owner. */
  predicate IsAppend(calls: seq<Call>, i: nat, k: MessageKey)
    requires i < |calls|
  {
    calls[i].op.Append? && calls[i].op.chatId == k.chatId && Writable(Deep(calls[i].op.message))
    && IdOf(Deep(calls[i].op.message)) == Some(k.messageId)
  }

  lemma AppendStores(s: State, call: Call, k: MessageKey)
    requires IsAppend([call], 0, k)
    ensures var o := Step(s, call);
      && (o.event == Flag(true) || o.event == Flag(false))
      && (o.event == Flag(true) ==>
            && k !in s.messages && k in o.state.messages && k.chatId in s.chats
            && o.state.messages[k].position == s.chats[k.chatId].next)
      && (k in s.messages ==> o == Outcome(s, Flag(false)))
  {
    hide IdOf, RoleOf, Deep, CreateChat, SoftDeleteChat, SoftDeleteOrganization, DeleteChats, StoreMessages, PersistTurn,
      FinalizeMessage, Upsert, Seed, RecordSweepAttempt, SettleInconclusive, SettleAndClose, SettleStateAndClose;
  }

  lemma {:induction false} StaysStored(s: State, calls: seq<Call>, k: MessageKey, from: nat, to: nat)
    requires from <= to <= |calls| && AllSpare(calls, k.chatId) && k in RunState(s, calls[..from]).messages
    ensures k in RunState(s, calls[..to]).messages
    ensures RunState(s, calls[..to]).messages[k].position == RunState(s, calls[..from]).messages[k].position
  {
    hide RunState, Spares;
    var between := calls[from..to];
    assert calls[..to] == calls[..from] + between;
    RunOfConcatenation(s, calls[..from], between);
    forall i | 0 <= i < |between| ensures Spares(between[i], k.chatId) { assert between[i] == calls[from + i]; }
    MessagesAreDurable(RunState(s, calls[..from]), between, k);
  }

  /**
    An id is appended at most once: after the call that appended it, every later append of it,
    by whomever, says so and leaves the whole store as it was, and the row keeps the position
    the first one gave it.
   */
  lemma AppendedAtMostOnce(s: State, calls: seq<Call>, k: MessageKey, i: nat, j: nat)
    requires i < j < |calls| && AllSpare(calls, k.chatId) && IsAppend(calls, i, k) && IsAppend(calls, j, k)
    requires EventAt(s, calls, i) == Flag(true)
    ensures EventAt(s, calls, j) == Flag(false)
    ensures RunState(s, calls[..j + 1]) == RunState(s, calls[..j])
    ensures k in RunState(s, calls).messages && k.chatId in RunState(s, calls[..i]).chats
    ensures RunState(s, calls).messages[k].position == RunState(s, calls[..i]).chats[k.chatId].next
  {
    hide Step, Deep, IdOf, RoleOf;
    assert calls[..i + 1][..i] == calls[..i] && calls[..j + 1][..j] == calls[..j] && calls[..|calls|] == calls;
    AppendStores(RunState(s, calls[..i]), calls[i], k);
    StaysStored(s, calls, k, i + 1, j);
    StaysStored(s, calls, k, i + 1, |calls|);
    AppendStores(RunState(s, calls[..j]), calls[j], k);
  }

  // ---- Finalisations ----

  lemma FinalisationWrites(s: State, call: Call)
    requires call.op.Finalize? && Step(s, call).event == Flag(true)
    ensures var k := MessageKey(call.op.chatId, call.op.messageId);
      && k in s.messages && k in Step(s, call).state.messages
      && Step(s, call).state.messages[k] == s.messages[k].(body := call.op.message)
      && s.messages[k].role == call.op.expectedRole
  {
    hide IdOf, RoleOf, CreateChat, SoftDeleteChat, SoftDeleteOrganization, DeleteChats, StoreMessages, PersistTurn,
      AppendMessage, Upsert, Seed, RecordSweepAttempt, SettleInconclusive, SettleAndClose, SettleStateAndClose;
  }

  /** The last finalisation stands: what it wrote is the body at the end, if no later call names the message. */
  lemma LastFinalisationStands(s: State, calls: seq<Call>, i: nat)
    requires i < |calls| && calls[i].op.Finalize? && EventAt(s, calls, i) == Flag(true)
    requires var k := MessageKey(calls[i].op.chatId, calls[i].op.messageId);
      AllSpare(calls, k.chatId) && forall j :: i < j < |calls| ==> !Rewrites(calls[j], k)
    ensures var k := MessageKey(calls[i].op.chatId, calls[i].op.messageId);
      && k in RunState(s, calls).messages
      && RunState(s, calls).messages[k].body == calls[i].op.message
      && RunState(s, calls).messages[k].role == calls[i].op.expectedRole
  {
    hide Step, Rewrites, Spares;
    var k := MessageKey(calls[i].op.chatId, calls[i].op.messageId);
    var done, after := calls[..i + 1], calls[i + 1..];
    assert done[..i] == calls[..i] && calls == done + after;
    FinalisationWrites(RunState(s, calls[..i]), calls[i]);
    RunOfConcatenation(s, done, after);
    forall j | 0 <= j < |after| ensures Spares(after[j], k.chatId) && !Rewrites(after[j], k) { assert after[j] == calls[i + 1 + j]; }
    MessagesAreDurable(RunState(s, done), after, k);
  }

  // ---- Opening a row ----

  lemma SeedCall(s: State, call: Call)
    requires call.op.SeedInquiry?
    ensures var o := Step(s, call);
      && o.event.SeedEvent? && call.op.id in o.state.investigations
      && (o.event == SeedEvent(Seeded(true)) <==> call.op.id !in s.investigations)
      && (call.op.id in s.investigations ==> o.state == s)
      && (call.op.id !in s.investigations ==> o.state.investigations[call.op.id].chatId == call.op.chatId)
  {
    hide Deep, CreateChat, SoftDeleteChat, SoftDeleteOrganization, DeleteChats, StoreMessages, PersistTurn, FinalizeMessage,
      AppendMessage, Upsert, RecordSweepAttempt, SettleInconclusive, SettleAndClose, SettleStateAndClose;
  }

  /** Whichever lane comes first opens the row; every later opening finds it and changes nothing. */
  lemma OpenedAtMostOnce(s: State, calls: seq<Call>, i: nat, j: nat)
    requires i < j < |calls| && calls[i].op.SeedInquiry? && calls[j].op.SeedInquiry? && calls[i].op.id == calls[j].op.id
    requires EventAt(s, calls, i) == SeedEvent(Seeded(true)) && AllSpare(calls, calls[i].op.chatId)
    ensures EventAt(s, calls, j).SeedEvent? && EventAt(s, calls, j) != SeedEvent(Seeded(true))
    ensures RunState(s, calls[..j + 1]) == RunState(s, calls[..j])
  {
    hide Step, Spares, RevisionOf;
    var id, between := calls[i].op.id, calls[i + 1..j];
    assert calls[..i + 1][..i] == calls[..i] && calls[..j + 1][..j] == calls[..j];
    SeedCall(RunState(s, calls[..i]), calls[i]);
    var after := RunState(s, calls[..i + 1]);
    assert calls[..j] == calls[..i + 1] + between;
    RunOfConcatenation(s, calls[..i + 1], between);
    forall n | 0 <= n < |between| ensures Spares(between[n], calls[i].op.chatId) { assert between[n] == calls[i + 1 + n]; }
    SparedChatSparesItsRows(after, between, id);
    RevisionCountsCommits(after, between, id);
    SeedCall(RunState(s, calls[..j]), calls[j]);
  }

  // ---- Strangers ----

  /** The call does not name the row, or names it from another chat, project or environment. */
  predicate IsStranger(op: Op, id: Str, row: Inquiry) {
    match op
    case HardDelete(ids) => row.chatId !in ids
    case UpsertInquiry(i, c, p, e, _, _) => i == id ==> !InContext(row, c, p, e)
    case Turn(c, _, _, pending, _) => forall p :: p in pending && p.id == id ==> !InContext(row, c, p.projectRef, p.environmentRef)
    case SettleState(i, c, p, e, _, _, _) => i == id ==> !InContext(row, c, p, e)
    case RecordAttempt(i) => i != id
    case Abandon(i, _, _) => i != id
    case SweepSettle(i, _, _, _) => i != id
    case _ => true
  }

  predicate SameRow(s: State, s': State, id: Str) {
    id in s.investigations && id in s'.investigations && s'.investigations[id] == s.investigations[id]
  }

  lemma StrangersUpsert(s: State, i: Str, c: Str, p: Str, e: Str, state: Value, freshId: Str, now: Time, id: Str)
    requires id in s.investigations && (i == id ==> !InContext(s.investigations[id], c, p, e))
    ensures var u := Upsert(s, i, c, p, e, state, freshId, now); u.Committed? ==> SameRow(s, u.state, id)
  {
    hide Deep;
  }

  lemma {:induction false} StrangersSettlements(s: State, c: Str, pending: seq<Pending>, now: Time, id: Str)
    requires id in s.investigations
    requires forall p :: p in pending && p.id == id ==> !InContext(s.investigations[id], c, p.projectRef, p.environmentRef)
    ensures var t := SettlePending(s, c, pending, now); t.Committed? ==> SameRow(s, t.state, id)
  {
    hide Upsert, Investigation.SettlementMessage, InContext;
    if pending != [] {
      var n := |pending| - 1;
      assert pending == pending[..n] + [pending[n]];
      StrangersSettlements(s, c, pending[..n], now, id);
      var before := SettlePending(s, c, pending[..n], now);
      if before.Committed? {
        var p := pending[n];
        StrangersUpsert(before.state, p.id, c, p.projectRef, p.environmentRef, p.state, p.freshId, now, id);
      }
    }
  }

  lemma StrangersTurn(s: State, call: Call, id: Str)
    requires call.op.Turn? && id in s.investigations && IsStranger(call.op, id, s.investigations[id])
    ensures SameRow(s, Step(s, call).state, id)
  {
    hide StoreMessages, SettlePending, NewCards, RawIds, InContext;
    var op := call.op;
    StrangersSettlements(s, op.chatId, op.pending, call.now, id);
    var t := SettlePending(s, op.chatId, op.pending, call.now);
    if t.Committed? {
      var all := op.messages + NewCards(t.result.cards, RawIds(op.messages));
      if StoreMessages(t.state, op.chatId, all, Finalizable(op.finalizeIds), call.now).Committed? {
        StoreKeepsInvestigations(t.state, op.chatId, all, Finalizable(op.finalizeIds), call.now);
      }
    }
  }

  lemma StrangersSettle(s: State, op: Op, now: Time, id: Str)
    requires op.SettleState? && id in s.investigations && IsStranger(op, id, s.investigations[id])
    ensures var t := SettleStateAndClose(s, op.id, op.chatId, op.projectRef, op.environmentRef, op.state, op.messageId, op.freshId, now);
      t.Committed? ==> SameRow(s, t.state, id)
  {
    hide SettleStateAndClose, AppendMessage, Upsert, Investigation.SettlementMessage;
    SettleStateOutcome(s, op, now);
    var t := SettleStateAndClose(s, op.id, op.chatId, op.projectRef, op.environmentRef, op.state, op.messageId, op.freshId, now);
    if t.Committed? && t.result.Closed? && t.result.closed {
      var u := Upsert(s, op.id, op.chatId, op.projectRef, op.environmentRef, op.state, op.freshId, now);
      StrangersUpsert(s, op.id, op.chatId, op.projectRef, op.environmentRef, op.state, op.freshId, now, id);
      AppendKeepsInvestigations(u.state, op.chatId, t.result.card, AnyOwner, now);
    }
  }

  lemma StrangersSweep(s: State, op: Op, now: Time, id: Str)
    requires op.SweepSettle? && id in s.investigations && op.id != id
    ensures var t := SettleAndClose(s, op.id, op.chatId, op.note, op.otherText, now); t.Committed? ==> SameRow(s, t.state, id)
  {
    hide AppendMessage, Investigation.SettlementMessage, Investigation.SqlSettled, Investigation.IsInProgress;
    var t := SettleInconclusive(s, op.id, op.note, op.otherText, now);
    if t.result.Some? {
      var st := t.result.value;
      var card := Investigation.SettlementMessage(st.id, st.revision, st.state, None);
      if card.Some? && AppendMessage(t.state, op.chatId, card.value, AnyOwner, now).Committed? {
        AppendKeepsInvestigations(t.state, op.chatId, card.value, AnyOwner, now);
      }
    }
  }

  lemma StrangersRowCall(s: State, call: Call, id: Str)
    requires (call.op.SeedInquiry? || call.op.RecordAttempt? || call.op.Abandon? || call.op.HardDelete?)
    requires id in s.investigations && IsStranger(call.op, id, s.investigations[id])
    ensures SameRow(s, Step(s, call).state, id)
  {
    hide Deep, InContext, Investigation.IsInProgress, Investigation.SqlSettled, CreateChat, SoftDeleteChat, SoftDeleteOrganization,
      StoreMessages, PersistTurn, FinalizeMessage, AppendMessage, Upsert, SettleAndClose, SettleStateAndClose;
  }

  lemma StrangersCall(s: State, call: Call, id: Str)
    requires call.op.UpsertInquiry? || call.op.SweepSettle? || call.op.SettleState?
    requires id in s.investigations && IsStranger(call.op, id, s.investigations[id])
    ensures SameRow(s, Step(s, call).state, id)
  {
    hide InContext, CreateChat, SoftDeleteChat, SoftDeleteOrganization, DeleteChats, StoreMessages, PersistTurn, FinalizeMessage,
      AppendMessage, Upsert, Seed, RecordSweepAttempt, SettleInconclusive, SettleAndClose, SettleStateAndClose;
    var op, now := call.op, call.now;
    if op.UpsertInquiry? {
      StrangersUpsert(s, op.id, op.chatId, op.projectRef, op.environmentRef, op.state, op.freshId, now, id);
    } else if op.SweepSettle? {
      StrangersSweep(s, op, now, id);
    } else {
      StrangersSettle(s, op, now, id);
    }
  }

  lemma StrangerChangesNothing(s: State, call: Call, id: Str)
    requires id in s.investigations && IsStranger(call.op, id, s.investigations[id])
    ensures SameRow(s, Step(s, call).state, id)
  {
    hide Step, InContext;
    match call.op {
      case Turn(_, _, _, _, _) => StrangersTurn(s, call, id);
      case UpsertInquiry(_, _, _, _, _, _) => StrangersCall(s, call, id);
      case SweepSettle(_, _, _, _) => StrangersCall(s, call, id);
      case SettleState(_, _, _, _, _, _, _) => StrangersCall(s, call, id);
      case SeedInquiry(_, _, _, _, _) => StrangersRowCall(s, call, id);
      case RecordAttempt(_) => StrangersRowCall(s, call, id);
      case Abandon(_, _, _) => StrangersRowCall(s, call, id);
      case HardDelete(_) => StrangersRowCall(s, call, id);
      case _ => ChatStepRevises(s, call, id);
    }
  }

  /**
    A row belongs to its chat, project and environment: a run in which nobody else but
    strangers name it leaves it exactly as it was, state, revision and sweep attempts included.
   */
  lemma {:induction false} StrangersNeverTouchARow(s: State, calls: seq<Call>, id: Str)
    requires id in s.investigations
    requires forall i :: 0 <= i < |calls| ==> IsStranger(calls[i].op, id, s.investigations[id])
    ensures SameRow(s, RunState(s, calls), id)
  {
    hide Step, IsStranger;
    if calls != [] {
      var n := |calls| - 1;
      StrangersNeverTouchARow(s, calls[..n], id);
      StrangerChangesNothing(RunState(s, calls[..n]), calls[n], id);
    }
  }
}
