/** The session row of a chat: which calls write it. */
module StoreSessions {
  import opened Text
  import opened Json
  import opened WellFormed
  import opened StoreState
  import opened StoreInvariant
  import opened StoreRuns
  import opened StoreDurability
  import Investigation

  lemma SessionStep(s: State, call: Call, c: Str)
    requires Spares(call, c)
    ensures c in Step(s, call).state.sessions <==>
      c in s.sessions || (call.op.Turn? && call.op.chatId == c && Step(s, call).event.TurnEvent?)
  {
    hide Step;
    match call.op {
      case Turn(_, _, _, _, _) => TurnSession(s, call, c);
      case Persist(_, _) => WriteKeepsSessions(s, call);
      case Append(_, _, _) => WriteKeepsSessions(s, call);
      case SweepSettle(_, _, _, _) => WriteKeepsSessions(s, call);
      case SettleState(_, _, _, _, _, _, _) => WriteKeepsSessions(s, call);
      case UpsertInquiry(_, _, _, _, _, _) => InquiryCallKeepsSessions(s, call);
      case SeedInquiry(_, _, _, _, _) => InquiryCallKeepsSessions(s, call);
      case RecordAttempt(_) => InquiryCallKeepsSessions(s, call);
      case Abandon(_, _, _) => InquiryCallKeepsSessions(s, call);
      case _ => ChatCallKeepsSessions(s, call, c);
    }
  }

  lemma StoreKeepsSessions(s: State, chatId: Str, messages: seq<Value>, finalizable: set<Str>, now: Time)
    requires StoreMessages(s, chatId, messages, finalizable, now).Committed?
    ensures StoreMessages(s, chatId, messages, finalizable, now).state.sessions == s.sessions
  {
    hide IdOf, RoleOf, Deep, BatchError, Missing, Rewritten, Normalised;
  }

  lemma TurnSession(s: State, call: Call, c: Str)
    requires call.op.Turn?
    ensures c in Step(s, call).state.sessions <==> c in s.sessions || (call.op.chatId == c && Step(s, call).event.TurnEvent?)
  {
    hide StoreMessages, SettlePending, NewCards, RawIds;
    var op, now := call.op, call.now;
    var t := SettlePending(s, op.chatId, op.pending, now);
    if t.Committed? {
      PendingKeepsTranscripts(s, op.chatId, op.pending, now);
      var all := op.messages + NewCards(t.result.cards, RawIds(op.messages));
      if StoreMessages(t.state, op.chatId, all, Finalizable(op.finalizeIds), now).Committed? {
        StoreKeepsSessions(t.state, op.chatId, all, Finalizable(op.finalizeIds), now);
      }
    }
  }

  lemma AppendKeepsSessions(s: State, chatId: Str, message: Value, scope: Scope, now: Time)
    requires AppendMessage(s, chatId, message, scope, now).Committed?
    ensures AppendMessage(s, chatId, message, scope, now).state.sessions == s.sessions
  {
    hide IdOf, RoleOf, Deep;
  }

  lemma SweepKeepsSessions(s: State, op: Op, now: Time)
    requires op.SweepSettle?
    ensures var t := SettleAndClose(s, op.id, op.chatId, op.note, op.otherText, now); t.Committed? ==> t.state.sessions == s.sessions
  {
    hide AppendMessage, SettleInconclusive, Investigation.SettlementMessage;
    var t := SettleInconclusive(s, op.id, op.note, op.otherText, now);
    SettleInconclusiveNeverFails(s, op.id, op.note, op.otherText, now);
    SettleInconclusiveKeepsTranscripts(s, op.id, op.note, op.otherText, now);
    if t.result.Some? {
      var st := t.result.value;
      var card := Investigation.SettlementMessage(st.id, st.revision, st.state, None);
      if card.Some? && AppendMessage(t.state, op.chatId, card.value, AnyOwner, now).Committed? {
        AppendKeepsSessions(t.state, op.chatId, card.value, AnyOwner, now);
      }
    }
  }

  lemma SettleStateKeepsSessions(s: State, op: Op, now: Time)
    requires op.SettleState?
    ensures var t := SettleStateAndClose(s, op.id, op.chatId, op.projectRef, op.environmentRef, op.state, op.messageId, op.freshId, now);
      t.Committed? ==> t.state.sessions == s.sessions
  {
    hide AppendMessage, Upsert, SettleStateAndClose, Investigation.SettlementMessage;
    SettleStateOutcome(s, op, now);
    var t := SettleStateAndClose(s, op.id, op.chatId, op.projectRef, op.environmentRef, op.state, op.messageId, op.freshId, now);
    if t.Committed? && t.result.Closed? && t.result.closed {
      var u := Upsert(s, op.id, op.chatId, op.projectRef, op.environmentRef, op.state, op.freshId, now);
      UpsertKeepsTranscripts(s, op.id, op.chatId, op.projectRef, op.environmentRef, op.state, op.freshId, now);
      AppendKeepsSessions(u.state, op.chatId, t.result.card, AnyOwner, now);
    }
  }

  lemma WriteKeepsSessions(s: State, call: Call)
    requires call.op.Persist? || call.op.Append? || call.op.SweepSettle? || call.op.SettleState?
    ensures Step(s, call).state.sessions == s.sessions
  {
    hide CreateChat, SoftDeleteChat, SoftDeleteOrganization, DeleteChats, StoreMessages, PersistTurn, FinalizeMessage,
      AppendMessage, Upsert, Seed, RecordSweepAttempt, SettleInconclusive, SettleAndClose, SettleStateAndClose;
    var op, now := call.op, call.now;
    if op.Persist? {
      if StoreMessages(s, op.chatId, op.messages, {}, now).Committed? { StoreKeepsSessions(s, op.chatId, op.messages, {}, now); }
    } else if op.Append? {
      if AppendMessage(s, op.chatId, op.message, op.scope, now).Committed? { AppendKeepsSessions(s, op.chatId, op.message, op.scope, now); }
    } else if op.SweepSettle? {
      SweepKeepsSessions(s, op, now);
    } else {
      SettleStateKeepsSessions(s, op, now);
    }
  }

  lemma ChatCallKeepsSessions(s: State, call: Call, c: Str)
    requires (call.op.Create? || call.op.SoftDelete? || call.op.SoftDeleteAll? || call.op.HardDelete? || call.op.Finalize?) && Spares(call, c)
    ensures c in Step(s, call).state.sessions <==> c in s.sessions
  {
    hide IdOf, RoleOf, SettledForChat, CancelledForChat, SettledForOrganization, StoreMessages, PersistTurn, AppendMessage,
      Upsert, Seed, RecordSweepAttempt, SettleInconclusive, SettleAndClose, SettleStateAndClose;
  }

  lemma InquiryCallKeepsSessions(s: State, call: Call)
    requires call.op.UpsertInquiry? || call.op.SeedInquiry? || call.op.RecordAttempt? || call.op.Abandon?
    ensures Step(s, call).state.sessions == s.sessions
  {
    hide CreateChat, SoftDeleteChat, SoftDeleteOrganization, DeleteChats, StoreMessages, PersistTurn, FinalizeMessage,
      AppendMessage, Upsert, Seed, RecordSweepAttempt, SettleInconclusive, SettleAndClose, SettleStateAndClose;
    match call.op {
      case UpsertInquiry(id, chat, p, e, state, freshId) =>
        if Upsert(s, id, chat, p, e, state, freshId, call.now).Committed? {
          UpsertKeepsTranscripts(s, id, chat, p, e, state, freshId, call.now);
        }
      case SeedInquiry(id, chat, p, e, state) => SeedKeepsTranscripts(s, id, chat, p, e, state, call.now);
      case RecordAttempt(id) => RecordKeepsTranscripts(s, id, call.now);
      case Abandon(id, note, text) =>
        SettleInconclusiveNeverFails(s, id, note, text, call.now);
        SettleInconclusiveKeepsTranscripts(s, id, note, text, call.now);
    }
  }
}
