/** Which calls can reach a chat, and what those that can leave alone. */
module StoreReach {
  import opened Text
  import opened Json
  import opened WellFormed
  import opened StoreState
  import opened StoreInvariant
  import opened StoreRuns
  import opened StoreDurability
  import Investigation

  // ---- Calls that cannot reach a chat ----

  /** The chat's row and every message row of it are the same. */
  predicate SameChat(s: State, s': State, c: Str) {
    && (c in s.chats <==> c in s'.chats)
    && (c in s.chats ==> s'.chats[c] == s.chats[c])
    && (forall k :: k in s.messages && k.chatId == c ==> k in s'.messages && s'.messages[k] == s.messages[k])
    && (forall k :: k in s'.messages && k.chatId == c ==> k in s.messages)
  }

  /** The delete is for this chat: its owner's, or its organization's. */
  predicate Deletes(op: Op, c: Str, chat: Chat) {
    match op
    case SoftDelete(id, user, org) => id == c && user == chat.userId && org == chat.organizationId
    case SoftDeleteAll(org) => org == chat.organizationId
    case _ => false
  }

  /** The call is aimed at another chat, or at this one when it takes no more messages; it is no finalisation in it. */
  predicate Misses(s: State, op: Op, c: Str) {
    match op
    case Create(id, _, _) => id != c || c in s.chats
    case HardDelete(ids) => c !in ids
    case Finalize(id, _, _, _) => id != c
    case Persist(id, _) => id != c || !Live(s, c)
    case Turn(id, _, _, _, _) => id != c || !Live(s, c)
    case Append(id, _, _) => id != c || !Live(s, c)
    case SweepSettle(_, id, _, _) => id != c || !Live(s, c)
    case SettleState(_, id, _, _, _, _, _) => id != c || !Live(s, c)
    case _ => Live(s, c) ==> !Deletes(op, c, s.chats[c])
  }

  lemma RewritingMisses(s: State, chatId: Str, messages: seq<Value>, finalizable: set<Str>, c: Str)
    requires chatId != c
    ensures var rows := Rewritten(s, chatId, messages, finalizable);
      && (forall k :: k in s.messages && k.chatId == c ==> k in rows && rows[k] == s.messages[k])
      && (forall k :: k in rows ==> k in s.messages)
  {
    hide BodyAfter;
  }

  lemma InsertionMisses(rows: map<MessageKey, Message>, chatId: Str, added: seq<Value>, start: nat, c: Str)
    requires Insertable(rows, chatId, added) && chatId != c
    ensures var r := Insert(rows, chatId, added, start);
      && (forall k :: k in rows && k.chatId == c ==> k in r && r[k] == rows[k])
      && (forall k :: k in r && k.chatId == c ==> k in rows)
  {
    hide IdOf, RoleOf, Insert, Insertable;
    InsertedKeys(rows, chatId, added, start);
  }

  lemma StoreMisses(s: State, chatId: Str, messages: seq<Value>, finalizable: set<Str>, now: Time, c: Str)
    requires StoreMessages(s, chatId, messages, finalizable, now).Committed? && (chatId != c || !Live(s, c))
    ensures SameChat(s, StoreMessages(s, chatId, messages, finalizable, now).state, c)
  {
    hide StoreMessages, IdOf, RoleOf, Deep, Insert, Insertable, Missing, Rewritten, Normalised;
    if Live(s, chatId) {
      var added, rows := StoredBatch(s, chatId, messages, finalizable, now);
      RewritingMisses(s, chatId, Normalised(messages), finalizable, c);
      if added != [] { InsertionMisses(rows, chatId, added, s.chats[chatId].next, c); }
    } else {
      DeadChatStoresNothing(s, chatId, messages, finalizable, now);
    }
  }

  lemma AppendMisses(s: State, chatId: Str, message: Value, scope: Scope, now: Time, c: Str)
    requires AppendMessage(s, chatId, message, scope, now).Committed? && (chatId != c || !Live(s, c))
    ensures SameChat(s, AppendMessage(s, chatId, message, scope, now).state, c)
  {
    hide IdOf, RoleOf, Deep;
  }

  lemma TurnMisses(s: State, op: Op, now: Time, c: Str)
    requires op.Turn? && Misses(s, op, c)
    ensures SameChat(s, Step(s, Call(op, now)).state, c)
  {
    hide StoreMessages, SettlePending, NewCards, RawIds;
    var t := SettlePending(s, op.chatId, op.pending, now);
    if t.Committed? {
      PendingKeepsTranscripts(s, op.chatId, op.pending, now);
      var all := op.messages + NewCards(t.result.cards, RawIds(op.messages));
      if StoreMessages(t.state, op.chatId, all, Finalizable(op.finalizeIds), now).Committed? {
        StoreMisses(t.state, op.chatId, all, Finalizable(op.finalizeIds), now, c);
      }
    }
  }

  lemma SweepSettleMisses(s: State, op: Op, now: Time, c: Str)
    requires op.SweepSettle? && Misses(s, op, c)
    ensures var t := SettleAndClose(s, op.id, op.chatId, op.note, op.otherText, now); t.Committed? ==> SameChat(s, t.state, c)
  {
    hide AppendMessage, SettleInconclusive, Investigation.SettlementMessage;
    var t := SettleInconclusive(s, op.id, op.note, op.otherText, now);
    SettleInconclusiveNeverFails(s, op.id, op.note, op.otherText, now);
    SettleInconclusiveKeepsTranscripts(s, op.id, op.note, op.otherText, now);
    if t.result.Some? {
      var st := t.result.value;
      var card := Investigation.SettlementMessage(st.id, st.revision, st.state, None);
      if card.Some? && AppendMessage(t.state, op.chatId, card.value, AnyOwner, now).Committed? {
        AppendMisses(t.state, op.chatId, card.value, AnyOwner, now, c);
      }
    }
  }

  lemma SettleStateMisses(s: State, op: Op, now: Time, c: Str)
    requires op.SettleState? && Misses(s, op, c)
    ensures var t := SettleStateAndClose(s, op.id, op.chatId, op.projectRef, op.environmentRef, op.state, op.messageId, op.freshId, now);
      t.Committed? ==> SameChat(s, t.state, c)
  {
    hide AppendMessage, Upsert, SettleStateAndClose, Investigation.SettlementMessage;
    SettleStateOutcome(s, op, now);
    var t := SettleStateAndClose(s, op.id, op.chatId, op.projectRef, op.environmentRef, op.state, op.messageId, op.freshId, now);
    if t.Committed? && t.result.Closed? && t.result.closed {
      var u := Upsert(s, op.id, op.chatId, op.projectRef, op.environmentRef, op.state, op.freshId, now);
      UpsertKeepsTranscripts(s, op.id, op.chatId, op.projectRef, op.environmentRef, op.state, op.freshId, now);
      AppendMisses(u.state, op.chatId, t.result.card, AnyOwner, now, c);
    }
  }

  lemma WriteMisses(s: State, call: Call, c: Str)
    requires (call.op.Persist? || call.op.Append? || call.op.SweepSettle? || call.op.SettleState?) && Misses(s, call.op, c)
    ensures SameChat(s, Step(s, call).state, c)
  {
    hide CreateChat, SoftDeleteChat, SoftDeleteOrganization, DeleteChats, StoreMessages, PersistTurn, FinalizeMessage,
      AppendMessage, Upsert, Seed, RecordSweepAttempt, SettleInconclusive, SettleAndClose, SettleStateAndClose;
    var op, now := call.op, call.now;
    if op.Persist? {
      if StoreMessages(s, op.chatId, op.messages, {}, now).Committed? { StoreMisses(s, op.chatId, op.messages, {}, now, c); }
    } else if op.Append? {
      if AppendMessage(s, op.chatId, op.message, op.scope, now).Committed? { AppendMisses(s, op.chatId, op.message, op.scope, now, c); }
    } else if op.SweepSettle? {
      SweepSettleMisses(s, op, now, c);
    } else {
      SettleStateMisses(s, op, now, c);
    }
  }

  lemma CreateMisses(s: State, call: Call, c: Str)
    requires call.op.Create? && Misses(s, call.op, c)
    ensures SameChat(s, Step(s, call).state, c)
  {
    hide SoftDeleteChat, SoftDeleteOrganization, DeleteChats, StoreMessages, PersistTurn, FinalizeMessage,
      AppendMessage, Upsert, Seed, RecordSweepAttempt, SettleInconclusive, SettleAndClose, SettleStateAndClose;
  }

  lemma SoftDeleteMisses(s: State, call: Call, c: Str)
    requires (call.op.SoftDelete? || call.op.SoftDeleteAll?) && Misses(s, call.op, c)
    ensures SameChat(s, Step(s, call).state, c)
  {
    hide SettledForChat, CancelledForChat, SettledForOrganization, CreateChat, DeleteChats, StoreMessages, PersistTurn,
      FinalizeMessage, AppendMessage, Upsert, Seed, RecordSweepAttempt, SettleInconclusive, SettleAndClose, SettleStateAndClose;
  }

  lemma RowCallMisses(s: State, call: Call, c: Str)
    requires (call.op.HardDelete? || call.op.Finalize?) && Misses(s, call.op, c)
    ensures SameChat(s, Step(s, call).state, c)
  {
    hide IdOf, RoleOf, CreateChat, SoftDeleteChat, SoftDeleteOrganization, StoreMessages, PersistTurn, AppendMessage,
      Upsert, Seed, RecordSweepAttempt, SettleInconclusive, SettleAndClose, SettleStateAndClose;
  }

  lemma InquiryCallMisses(s: State, call: Call, c: Str)
    requires call.op.UpsertInquiry? || call.op.SeedInquiry? || call.op.RecordAttempt? || call.op.Abandon?
    ensures SameChat(s, Step(s, call).state, c)
  {
    hide CreateChat, SoftDeleteChat, SoftDeleteOrganization, DeleteChats, StoreMessages, PersistTurn, FinalizeMessage,
      AppendMessage, Upsert, Seed, RecordSweepAttempt, SettleInconclusive, SettleAndClose, SettleStateAndClose;
    match call.op {
      case UpsertInquiry(id, chat, p, e, state, freshId) =>
        if Upsert(s, id, chat, p, e, state, freshId, call.now).Committed? {
          UpsertKeepsTranscripts(s, id, chat, p, e, state, freshId, call.now);
        }
      case SeedInquiry(id, chat, p, e, state) => SeedKeepsTranscripts(s, id, chat, p, e, state, call.now);
      case RecordAttempt(id) => RecordKeepsTranscripts(s, id, call.now);
      case Abandon(id, note, text) =>
        SettleInconclusiveNeverFails(s, id, note, text, call.now);
        SettleInconclusiveKeepsTranscripts(s, id, note, text, call.now);
    }
  }

  /** A call that misses a chat leaves its row and its transcript as they were. */
  lemma MissedChatIsUntouched(s: State, call: Call, c: Str)
    requires Misses(s, call.op, c)
    ensures SameChat(s, Step(s, call).state, c)
  {
    hide Step, SameChat, Misses;
    match call.op {
      case Turn(_, _, _, _, _) => TurnMisses(s, call.op, call.now, c);
      case Persist(_, _) => WriteMisses(s, call, c);
      case Append(_, _, _) => WriteMisses(s, call, c);
      case SweepSettle(_, _, _, _) => WriteMisses(s, call, c);
      case SettleState(_, _, _, _, _, _, _) => WriteMisses(s, call, c);
      case UpsertInquiry(_, _, _, _, _, _) => InquiryCallMisses(s, call, c);
      case SeedInquiry(_, _, _, _, _) => InquiryCallMisses(s, call, c);
      case RecordAttempt(_) => InquiryCallMisses(s, call, c);
      case Abandon(_, _, _) => InquiryCallMisses(s, call, c);
      case HardDelete(_) => RowCallMisses(s, call, c);
      case Finalize(_, _, _, _) => RowCallMisses(s, call, c);
      case Create(_, _, _) => CreateMisses(s, call, c);
      case SoftDelete(_, _, _) => SoftDeleteMisses(s, call, c);
      case SoftDeleteAll(_) => SoftDeleteMisses(s, call, c);
    }
  }

  // ---- Calls that write to a live chat ----

  /** The chat's owner and its deletion mark. */
  predicate SameOwner(s: State, s': State, c: Str) {
    && c in s.chats && c in s'.chats
    && s'.chats[c].userId == s.chats[c].userId && s'.chats[c].organizationId == s.chats[c].organizationId
    && s'.chats[c].deletedAt == s.chats[c].deletedAt
  }

  lemma StoreKeepsOwner(s: State, chatId: Str, messages: seq<Value>, finalizable: set<Str>, now: Time, c: Str)
    requires StoreMessages(s, chatId, messages, finalizable, now).Committed? && c in s.chats
    ensures SameOwner(s, StoreMessages(s, chatId, messages, finalizable, now).state, c)
  {
    hide IdOf, RoleOf, Deep, BatchError, Missing, Rewritten, Normalised;
  }

  lemma AppendKeepsOwner(s: State, chatId: Str, message: Value, scope: Scope, now: Time, c: Str)
    requires AppendMessage(s, chatId, message, scope, now).Committed? && c in s.chats
    ensures SameOwner(s, AppendMessage(s, chatId, message, scope, now).state, c)
  {
    hide IdOf, RoleOf, Deep;
  }

  lemma WriterKeepsOwner(s: State, call: Call, c: Str)
    requires Live(s, c) && Spares(call, c) && !Misses(s, call.op, c) && !call.op.SoftDelete? && !call.op.SoftDeleteAll?
    ensures SameOwner(s, Step(s, call).state, c)
  {
    hide Step;
    match call.op {
      case Turn(_, _, _, _, _) => TurnKeepsOwner(s, call, c);
      case SweepSettle(_, _, _, _) => SettleKeepsOwner(s, call, c);
      case SettleState(_, _, _, _, _, _, _) => SettleKeepsOwner(s, call, c);
      case _ => PlainWriterKeepsOwner(s, call, c);
    }
  }

  lemma PlainWriterKeepsOwner(s: State, call: Call, c: Str)
    requires c in s.chats && (call.op.Persist? || call.op.Append? || call.op.Finalize?)
    ensures SameOwner(s, Step(s, call).state, c)
  {
    hide IdOf, RoleOf, CreateChat, SoftDeleteChat, SoftDeleteOrganization, DeleteChats, StoreMessages, PersistTurn,
      AppendMessage, Upsert, Seed, RecordSweepAttempt, SettleInconclusive, SettleAndClose, SettleStateAndClose;
    var op, now := call.op, call.now;
    if op.Persist? {
      if StoreMessages(s, op.chatId, op.messages, {}, now).Committed? { StoreKeepsOwner(s, op.chatId, op.messages, {}, now, c); }
    } else if op.Append? {
      if AppendMessage(s, op.chatId, op.message, op.scope, now).Committed? { AppendKeepsOwner(s, op.chatId, op.message, op.scope, now, c); }
    }
  }

  lemma TurnKeepsOwner(s: State, call: Call, c: Str)
    requires call.op.Turn? && c in s.chats
    ensures SameOwner(s, Step(s, call).state, c)
  {
    hide StoreMessages, SettlePending, NewCards, RawIds;
    var op, now := call.op, call.now;
    var t := SettlePending(s, op.chatId, op.pending, now);
    if t.Committed? {
      PendingKeepsTranscripts(s, op.chatId, op.pending, now);
      var all := op.messages + NewCards(t.result.cards, RawIds(op.messages));
      if StoreMessages(t.state, op.chatId, all, Finalizable(op.finalizeIds), now).Committed? {
        StoreKeepsOwner(t.state, op.chatId, all, Finalizable(op.finalizeIds), now, c);
      }
    }
  }

  lemma SettleKeepsOwner(s: State, call: Call, c: Str)
    requires (call.op.SweepSettle? || call.op.SettleState?) && c in s.chats
    ensures SameOwner(s, Step(s, call).state, c)
  {
    hide CreateChat, SoftDeleteChat, SoftDeleteOrganization, DeleteChats, StoreMessages, PersistTurn, FinalizeMessage,
      AppendMessage, Upsert, Seed, RecordSweepAttempt, SettleInconclusive, SettleAndClose, SettleStateAndClose;
    if call.op.SweepSettle? { SweepKeepsOwner(s, call.op, call.now, c); } else { SettleStateKeepsOwner(s, call.op, call.now, c); }
  }

  lemma SweepKeepsOwner(s: State, op: Op, now: Time, c: Str)
    requires op.SweepSettle? && c in s.chats
    ensures var t := SettleAndClose(s, op.id, op.chatId, op.note, op.otherText, now); t.Committed? ==> SameOwner(s, t.state, c)
  {
    hide AppendMessage, SettleInconclusive, Investigation.SettlementMessage;
    var t := SettleInconclusive(s, op.id, op.note, op.otherText, now);
    SettleInconclusiveNeverFails(s, op.id, op.note, op.otherText, now);
    SettleInconclusiveKeepsTranscripts(s, op.id, op.note, op.otherText, now);
    if t.result.Some? {
      var st := t.result.value;
      var card := Investigation.SettlementMessage(st.id, st.revision, st.state, None);
      if card.Some? && AppendMessage(t.state, op.chatId, card.value, AnyOwner, now).Committed? {
        AppendKeepsOwner(t.state, op.chatId, card.value, AnyOwner, now, c);
      }
    }
  }

  lemma SettleStateKeepsOwner(s: State, op: Op, now: Time, c: Str)
    requires op.SettleState? && c in s.chats
    ensures var t := SettleStateAndClose(s, op.id, op.chatId, op.projectRef, op.environmentRef, op.state, op.messageId, op.freshId, now);
      t.Committed? ==> SameOwner(s, t.state, c)
  {
    hide AppendMessage, Upsert, SettleStateAndClose, Investigation.SettlementMessage;
    SettleStateOutcome(s, op, now);
    var t := SettleStateAndClose(s, op.id, op.chatId, op.projectRef, op.environmentRef, op.state, op.messageId, op.freshId, now);
    if t.Committed? && t.result.Closed? && t.result.closed {
      var u := Upsert(s, op.id, op.chatId, op.projectRef, op.environmentRef, op.state, op.freshId, now);
      UpsertKeepsTranscripts(s, op.id, op.chatId, op.projectRef, op.environmentRef, op.state, op.freshId, now);
      AppendKeepsOwner(u.state, op.chatId, t.result.card, AnyOwner, now, c);
    }
  }
}
