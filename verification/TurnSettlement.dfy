/** Closing the cards a turn left open, together with the turn itself. */
module TurnSettlement {
  import opened Text
  import opened Json
  import opened WellFormed
  import opened StoreState
  import opened StoreInvariant
  import opened StoreSteps
  import opened StoreRuns
  import opened StoreDurability
  import opened StoreSettlement
  import Investigation

  // ---- What a batch stores ----

  /** After a batch into a live chat, every one of its ids is stored. */
  lemma BatchIdsAreStored(s: State, chatId: Str, messages: seq<Value>, finalizable: set<Str>, now: Time, m: Value, id: Str)
    requires StoreMessages(s, chatId, messages, finalizable, now).Committed? && Live(s, chatId)
    requires m in Normalised(messages) && IdOf(m) == Some(id)
    ensures Stored(StoreMessages(s, chatId, messages, finalizable, now).state, chatId, id)
  {
    hide StoreMessages, IdOf, RoleOf, Deep, Insert, Insertable;
    var added, rows := StoredBatch(s, chatId, messages, finalizable, now);
    if added != [] {
      InsertedKeys(rows, chatId, added, s.chats[chatId].next);
    }
    if !Stored(s, chatId, id) {
      assert m in added;
      assert HasId(added, id);
    }
  }

  // ---- The cards a turn owes ----

  /** Each settlement comes with its own card. */
  ghost predicate CardsMatch(t: TurnSettlements) {
    && |t.cards| == |t.settled|
    && forall i :: 0 <= i < |t.settled| ==>
         Investigation.SettlementMessage(t.settled[i].id, t.settled[i].revision, t.settled[i].state, None) == Some(t.cards[i])
  }

  /** No later settlement of the turn is for the same row. */
  predicate IsLast(settled: seq<Settled>, i: nat)
    requires i < |settled|
  {
    forall j :: i < j < |settled| ==> settled[j].id != settled[i].id
  }

  /** The row holds what the settlement says. */
  predicate Stands(s: State, settled: Settled) {
    && settled.id in s.investigations
    && s.investigations[settled.id].revision == settled.revision
    && s.investigations[settled.id].state == Deep(settled.state)
  }

  /** A row a turn settled holds the state and revision of its last settlement. */
  ghost predicate LastSettlementStands(s: State, settled: seq<Settled>) {
    forall i :: 0 <= i < |settled| && IsLast(settled, i) ==> Stands(s, settled[i])
  }

  lemma {:induction false} PendingCardsMatch(s: State, chatId: Str, pending: seq<Pending>, now: Time)
    requires SettlePending(s, chatId, pending, now).Committed?
    ensures CardsMatch(SettlePending(s, chatId, pending, now).result)
    ensures LastSettlementStands(SettlePending(s, chatId, pending, now).state, SettlePending(s, chatId, pending, now).result.settled)
  {
    hide SettleOne, CardsMatch, LastSettlementStands;
    if pending != [] {
      var n := |pending| - 1;
      PendingCardsMatch(s, chatId, pending[..n], now);
      var before := SettlePending(s, chatId, pending[..n], now);
      SettleOneMatches(before.state, chatId, pending[n], before.result, now);
    } else {
      NoSettlements(s);
    }
  }

  lemma NoSettlements(s: State)
    ensures CardsMatch(TurnSettlements([], [])) && LastSettlementStands(s, [])
  {
  }

  lemma UpsertedRow(s: State, id: Str, c: Str, p: Str, e: Str, state: Value, freshId: Str, now: Time)
    requires Upsert(s, id, c, p, e, state, freshId, now).Committed?
    ensures var t := Upsert(s, id, c, p, e, state, freshId, now);
      if t.result.Upserted? then
        && t.result.id in t.state.investigations
        && t.state.investigations[t.result.id].revision == t.result.revision
        && t.state.investigations[t.result.id].state == Deep(state)
        && t.state.investigations.Keys == s.investigations.Keys + {t.result.id}
        && (forall i :: i in s.investigations && i != t.result.id ==> t.state.investigations[i] == s.investigations[i])
      else t.state == s
  {
    hide Deep, InContext;
  }

  lemma UpsertedRowIsOwn(s: State, id: Str, c: Str, p: Str, e: Str, state: Value, freshId: Str, now: Time)
    requires Upsert(s, id, c, p, e, state, freshId, now).Committed? && Upsert(s, id, c, p, e, state, freshId, now).result.Upserted?
    ensures var t := Upsert(s, id, c, p, e, state, freshId, now);
      t.result.id in t.state.investigations && t.state.investigations[t.result.id].chatId == c
  {
    hide Deep;
  }

  lemma AppendedSettlementStands(s: State, s': State, settled: seq<Settled>, last: Settled)
    requires LastSettlementStands(s, settled)
    requires last.id in s'.investigations
    requires s'.investigations[last.id].revision == last.revision && s'.investigations[last.id].state == Deep(last.state)
    requires forall i :: i in s.investigations && i != last.id ==> i in s'.investigations && s'.investigations[i] == s.investigations[i]
    ensures LastSettlementStands(s', settled + [last])
  {
    hide Deep;
    var all := settled + [last];
    forall i | 0 <= i < |all| && IsLast(all, i) ensures Stands(s', all[i]) {
      if i < |settled| {
        assert all[|settled|].id != all[i].id;
        assert forall j :: i < j < |settled| ==> settled[j].id == all[j].id;
        assert IsLast(settled, i) && Stands(s, settled[i]);
      }
    }
  }

  lemma SettleOneMatches(s: State, chatId: Str, p: Pending, before: TurnSettlements, now: Time)
    requires SettleOne(s, chatId, p, before, now).Committed?
    requires CardsMatch(before) && LastSettlementStands(s, before.settled)
    ensures CardsMatch(SettleOne(s, chatId, p, before, now).result)
    ensures LastSettlementStands(SettleOne(s, chatId, p, before, now).state, SettleOne(s, chatId, p, before, now).result.settled)
  {
    hide Upsert, Investigation.SettlementMessage, Deep, LastSettlementStands;
    var u := Upsert(s, p.id, chatId, p.projectRef, p.environmentRef, p.state, p.freshId, now);
    UpsertedRow(s, p.id, chatId, p.projectRef, p.environmentRef, p.state, p.freshId, now);
    if u.result.Upserted? {
      AppendedSettlementStands(s, u.state, before.settled, Settled(u.result.id, u.result.revision, p.state));
    }
  }

  lemma {:induction false} NewCardsHasEveryMissingCard(cards: seq<Value>, existing: set<Str>, card: Value)
    requires card in cards
    ensures card in NewCards(cards, existing) || (RawId(card).Some? && RawId(card).value in existing)
  {
    hide RawId;
    var n := |cards| - 1;
    assert cards == cards[..n] + [cards[n]];
    if card != cards[n] {
      NewCardsHasEveryMissingCard(cards[..n], existing, card);
    }
  }

  /** Some message of the turn's batch is stored under the card's id. */
  lemma CardIsInTheBatch(messages: seq<Value>, cards: seq<Value>, st: Settled, card: Value) returns (m: Value)
    requires forall x :: x in messages ==> Proper(x)
    requires Investigation.SettlementMessage(st.id, st.revision, st.state, None) == Some(card) && card in cards
    ensures m in Normalised(messages + NewCards(cards, RawIds(messages)))
    ensures IdOf(m) == Some(ClosingId(st.id, st.revision))
  {
    hide Investigation.SettlementMessage, Deep, IdOf, RawId, Proper, Investigation.SettlementMessageId;
    var all := messages + NewCards(cards, RawIds(messages));
    var mid := Investigation.SettlementMessageId(st.id, st.revision);
    SettlementIdIsNotEmpty(st.id, st.revision);
    CardIdentity(st.id, st.revision, st.state, None);
    NewCardsHasEveryMissingCard(cards, RawIds(messages), card);
    var raw := card;
    if card !in NewCards(cards, RawIds(messages)) {
      raw :| raw in messages && RawId(raw) == Some(mid);
      NormalisedId(raw);
    }
    assert raw in all;
    var i :| 0 <= i < |all| && all[i] == raw;
    m := Normalised(all)[i];
    assert m == Deep(raw);
  }

  lemma SettlementIdIsNotEmpty(id: Str, revision: nat)
    ensures Investigation.SettlementMessageId(id, revision) != []
  {
    assert |Investigation.SettlementMessageId(id, revision)| > 0;
  }

  /** What a committed turn consists of. */
  lemma TurnParts(s: State, op: Op, now: Time) returns (t: Tx<TurnSettlements>, all: seq<Value>)
    requires op.Turn?
    requires PersistTurn(s, op.chatId, op.messages, op.session, op.pending, op.finalizeIds, now).Committed?
    ensures t == SettlePending(s, op.chatId, op.pending, now) && t.Committed?
    ensures all == op.messages + NewCards(t.result.cards, RawIds(op.messages))
    ensures StoreMessages(t.state, op.chatId, all, Finalizable(op.finalizeIds), now).Committed?
    ensures var r := PersistTurn(s, op.chatId, op.messages, op.session, op.pending, op.finalizeIds, now);
      && r.result == t.result.settled
      && r.state == var s'' := StoreMessages(t.state, op.chatId, all, Finalizable(op.finalizeIds), now).state;
           s''.(sessions := s''.sessions[op.chatId := op.session])
  {
    hide StoreMessages, SettlePending, NewCards;
    t := SettlePending(s, op.chatId, op.pending, now);
    all := op.messages + NewCards(t.result.cards, RawIds(op.messages));
  }

  /**
    A committed turn stores the closing card of every settlement when its chat is live, and
    stores no message at all when it is not; the rows move in both cases.
   */
  lemma TurnClosesItsCardsExactly(s: State, op: Op, now: Time)
    requires op.Turn? && (forall m :: m in op.messages ==> Proper(m))
    ensures var r := PersistTurn(s, op.chatId, op.messages, op.session, op.pending, op.finalizeIds, now);
      r.Committed? ==>
        && LastSettlementStands(r.state, r.result)
        && (Live(s, op.chatId) ==> forall i :: 0 <= i < |r.result| ==> Stored(r.state, op.chatId, ClosingId(r.result[i].id, r.result[i].revision)))
        && (!Live(s, op.chatId) ==> r.state.messages == s.messages)
  {
    hide StoreMessages, SettlePending, NewCards, PersistTurn, Normalised, IdOf, Investigation.SettlementMessage, ClosingId, Proper, RawIds;
    var r := PersistTurn(s, op.chatId, op.messages, op.session, op.pending, op.finalizeIds, now);
    if r.Committed? {
      var t, all := TurnParts(s, op, now);
      PendingCardsMatch(s, op.chatId, op.pending, now);
      PendingKeepsTranscripts(s, op.chatId, op.pending, now);
      StoreKeepsInvestigations(t.state, op.chatId, all, Finalizable(op.finalizeIds), now);
      if Live(s, op.chatId) {
        forall i | 0 <= i < |r.result| ensures Stored(r.state, op.chatId, ClosingId(r.result[i].id, r.result[i].revision)) {
          var m := CardIsInTheBatch(op.messages, t.result.cards, r.result[i], t.result.cards[i]);
          BatchIdsAreStored(t.state, op.chatId, all, Finalizable(op.finalizeIds), now, m, ClosingId(r.result[i].id, r.result[i].revision));
        }
      } else {
        DeadChatStoresNothing(t.state, op.chatId, all, Finalizable(op.finalizeIds), now);
      }
    }
  }

  /** Without settlements, replaying a stored turn moves no investigation. */
  lemma TurnWithoutSettlementsMovesNoInvestigation(s: State, op: Op, now: Time)
    requires op.Turn? && op.pending == []
    ensures Step(s, Call(op, now)).state.investigations == s.investigations
  {
    hide StoreMessages, NewCards;
    var t := SettlePending(s, op.chatId, op.pending, now);
    var all := op.messages + NewCards([], RawIds(op.messages));
    if StoreMessages(s, op.chatId, all, Finalizable(op.finalizeIds), now).Committed? {
      StoreKeepsInvestigations(s, op.chatId, all, Finalizable(op.finalizeIds), now);
    }
  }
}
