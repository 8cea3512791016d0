/** Settling an investigation and closing its card, on each of the three paths and over whole runs. */
module StoreSettlement {
  import opened Text
  import opened Json
  import opened WellFormed
  import opened StoreState
  import opened StoreInvariant
  import opened StoreSteps
  import opened StoreRuns
  import opened StoreDurability
  import Investigation

  /** The stored id of the card that closes `id` at `revision`. */
  function ClosingId(id: Str, revision: nat): Str {
    ToWellFormed(Investigation.SettlementMessageId(id, revision))
  }

  // ---- One append of a card ----

  /** A card append always succeeds as a statement, and leaves the card stored exactly on a live chat. */
  lemma CardAppend(s: State, chatId: Str, id: Str, revision: nat, state: Value, now: Time)
    requires Investigation.SettlementMessage(id, revision, state, None).Some?
    ensures var t := AppendMessage(s, chatId, Investigation.SettlementMessage(id, revision, state, None).value, AnyOwner, now);
      && t.Committed?
      && (Stored(t.state, chatId, ClosingId(id, revision)) <==> Live(s, chatId) || Stored(s, chatId, ClosingId(id, revision)))
      && t.result == (Live(s, chatId) && !Stored(s, chatId, ClosingId(id, revision)))
      && t.state.investigations == s.investigations
      && (t.result || t.state == s)
  {
    hide Investigation.SettlementMessage, Deep, IdOf, RoleOf;
    CardIdentity(id, revision, state, None);
    assert Investigation.SettlementMessageId(id, revision) != [] by {
      assert |Investigation.SettlementMessageId(id, revision)| > 0;
    }
  }

  // ---- The stale sweep ----

  /**
    A committed sweep settle leaves its row inconclusive at the next revision, and the closing
    card in the named chat exactly when that chat is live or already holds it.
   */
  lemma SweepSettleClosesExactly(s: State, id: Str, chatId: Str, note: Str, text: Str, now: Time)
    ensures var t := SettleAndClose(s, id, chatId, note, text, now);
      match t {
        case Committed(s', Some(card)) =>
          && card.settled.id == id
          && id in s.investigations && id in s'.investigations
          && Investigation.IsInProgress(s.investigations[id].state)
          && s'.investigations[id].revision == card.settled.revision == s.investigations[id].revision + 1
          && s'.investigations[id].state == card.settled.state && !Investigation.IsInProgress(card.settled.state)
          && (Stored(s', chatId, ClosingId(id, card.settled.revision)) <==>
                Live(s, chatId) || Stored(s, chatId, ClosingId(id, card.settled.revision)))
          && (card.closed <==> Live(s, chatId) && !Stored(s, chatId, ClosingId(id, card.settled.revision)))
        case Committed(s', None) => s' == s
        case RolledBack(e) => e == NotRenderable
      }
  {
    hide AppendMessage, Investigation.SettlementMessage, Investigation.SqlSettled, Investigation.IsInProgress;
    var t := SettleInconclusive(s, id, note, text, now);
    if t.result.Some? {
      SettledIsNotInProgress(s.investigations[id].state, note, text);
      var settled := t.result.value;
      if Investigation.SettlementMessage(settled.id, settled.revision, settled.state, None).Some? {
        CardAppend(t.state, chatId, settled.id, settled.revision, settled.state, now);
      }
    }
  }

  lemma SettledIsNotInProgress(state: Value, note: Str, text: Str)
    requires Investigation.IsInProgress(state)
    ensures !Investigation.IsInProgress(Object(Investigation.SqlSettled(state.fields, note, text)))
  {
    Investigation.SettledStateIsValidExactly(state.fields,
      Investigation.Btrim(Investigation.HeadlineText(state.fields, text) + [Investigation.SPACE] + note));
  }

  /** The sweep can settle a row exactly when the members settling leaves alone are valid. */
  lemma SweepSettleCommitsExactly(s: State, id: Str, chatId: Str, note: Str, text: Str, now: Time)
    requires id in s.investigations && Investigation.IsInProgress(s.investigations[id].state)
    ensures SettleAndClose(s, id, chatId, note, text, now).Committed?
       <==> Investigation.ValidRest(s.investigations[id].state.fields)
  {
    hide AppendMessage, Investigation.SettlementMessage, Investigation.ValidRest, Investigation.SettledFields, Investigation.ValidState;
    var t := SettleInconclusive(s, id, note, text, now);
    var settled := t.result.value;
    Investigation.SettledStateIsValidExactly(s.investigations[id].state.fields,
      Investigation.Btrim(Investigation.HeadlineText(s.investigations[id].state.fields, text) + [Investigation.SPACE] + note));
    if Investigation.SettlementMessage(settled.id, settled.revision, settled.state, None).Some? {
      CardAppend(t.state, chatId, settled.id, settled.revision, settled.state, now);
    }
  }

  // ---- The caller's own terminal state ----

  /**
    `settleInvestigationStateAndCloseCard` either closes the card in the live chat together with
    the new revision, or changes nothing at all.
   */
  lemma SettleStateClosesOrChangesNothing(s: State, op: Op, now: Time)
    requires op.SettleState?
    ensures var t := SettleStateAndClose(s, op.id, op.chatId, op.projectRef, op.environmentRef, op.state, op.messageId, op.freshId, now);
      t.Committed? ==>
        if t.result.Closed? && t.result.closed then
          && Live(s, op.chatId)
          && !Stored(s, op.chatId, ToWellFormed(op.messageId)) && Stored(t.state, op.chatId, ToWellFormed(op.messageId))
          && t.result.id in t.state.investigations
          && t.state.investigations[t.result.id].revision == t.result.revision
        else
          && t.state == s
          && (t.result.Closed? ==> Stored(s, op.chatId, op.messageId))
          && (!Live(s, op.chatId) ==> t.result.CloseRefused?)
  {
    hide SettleStateAndClose, AppendMessage, Upsert, Investigation.SettlementMessage;
    var t := SettleStateAndClose(s, op.id, op.chatId, op.projectRef, op.environmentRef, op.state, op.messageId, op.freshId, now);
    SettleStateOutcome(s, op, now);
    if t.Committed? && t.result.Closed? && t.result.closed {
      var u := Upsert(s, op.id, op.chatId, op.projectRef, op.environmentRef, op.state, op.freshId, now);
      UpsertRevises(s, op.id, op.chatId, op.projectRef, op.environmentRef, op.state, op.freshId, now, u.result.id);
      UpsertKeepsTranscripts(s, op.id, op.chatId, op.projectRef, op.environmentRef, op.state, op.freshId, now);
      AppendedCardIsStored(u.state, op.chatId, u.result.id, u.result.revision, op.state, op.messageId, now);
    }
  }

  lemma AppendedCardIsStored(s: State, chatId: Str, id: Str, revision: nat, state: Value, messageId: Str, now: Time)
    requires Investigation.SettlementMessage(id, revision, state, Some(messageId)).Some?
    ensures var t := AppendMessage(s, chatId, Investigation.SettlementMessage(id, revision, state, Some(messageId)).value, AnyOwner, now);
      t.Committed? && t.result ==>
        && t.state.investigations == s.investigations
        && !Stored(s, chatId, ToWellFormed(messageId)) && Stored(t.state, chatId, ToWellFormed(messageId))
  {
    hide Investigation.SettlementMessage, Deep, IdOf, RoleOf;
    CardIdentity(id, revision, state, Some(messageId));
  }

  // ---- Redelivery ----

  /** Call `i` closed a card in chat `chatId` under `messageId`. */
  predicate Closes(s: State, calls: seq<Call>, i: nat, chatId: Str, messageId: Str)
    requires i < |calls|
  {
    && calls[i].op.SettleState? && calls[i].op.chatId == chatId && calls[i].op.messageId == messageId
    && var e := EventAt(s, calls, i); e.CloseEvent? && e.close.Closed? && e.close.closed
  }

  lemma {:induction false} StoredStaysStored(s: State, calls: seq<Call>, k: MessageKey, from: nat, to: nat)
    requires from <= to <= |calls| && AllSpare(calls, k.chatId)
    requires k in RunState(s, calls[..from]).messages
    ensures k in RunState(s, calls[..to]).messages
  {
    hide Step;
    if from < to {
      StoredStaysStored(s, calls, k, from, to - 1);
      assert calls[..to][..to - 1] == calls[..to - 1];
      MessageSurvivesStep(RunState(s, calls[..to - 1]), calls[to - 1], k);
    }
  }

  lemma ClosingCallStoresItsCard(s: State, calls: seq<Call>, i: nat, chatId: Str, messageId: Str)
    requires i < |calls| && Closes(s, calls, i, chatId, messageId)
    ensures !Stored(RunState(s, calls[..i]), chatId, ToWellFormed(messageId))
    ensures Stored(RunState(s, calls[..i + 1]), chatId, ToWellFormed(messageId))
  {
    hide SettleStateAndClose;
    assert calls[..i + 1][..i] == calls[..i];
    SettleStateClosesOrChangesNothing(RunState(s, calls[..i]), calls[i].op, calls[i].now);
  }

  /**
    However often an action is redelivered under one message id, and whatever runs in between
    short of the chat's hard delete, at most one delivery closes a card.
   */
  lemma RedeliveryClosesAtMostOnce(s: State, calls: seq<Call>, chatId: Str, messageId: Str, i: nat, j: nat)
    requires AllSpare(calls, chatId) && i < j < |calls|
    ensures !(Closes(s, calls, i, chatId, messageId) && Closes(s, calls, j, chatId, messageId))
  {
    hide Step;
    if Closes(s, calls, i, chatId, messageId) && Closes(s, calls, j, chatId, messageId) {
      ClosingCallStoresItsCard(s, calls, i, chatId, messageId);
      ClosingCallStoresItsCard(s, calls, j, chatId, messageId);
      StoredStaysStored(s, calls, MessageKey(chatId, ToWellFormed(messageId)), i + 1, j);
    }
  }

  /** A delivery that closes nothing leaves the whole store as it was, revisions included. */
  lemma OtherDeliveriesChangeNothing(s: State, calls: seq<Call>, i: nat)
    requires i < |calls| && calls[i].op.SettleState?
    requires !Closes(s, calls, i, calls[i].op.chatId, calls[i].op.messageId)
    ensures RunState(s, calls[..i + 1]) == RunState(s, calls[..i])
  {
    hide SettleStateAndClose;
    assert calls[..i + 1][..i] == calls[..i];
    SettleStateOutcome(RunState(s, calls[..i]), calls[i].op, calls[i].now);
  }
}
