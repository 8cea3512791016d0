/** Where the settle paths are weaker than the rule they keep: a deleted chat takes no card. */
module DeletedChat {
  import opened Text
  import opened Json
  import opened WellFormed
  import opened StoreState
  import opened StoreInvariant
  import opened StoreSettlement
  import opened StoreSteps
  import TurnSettlement
  import Investigation

  /** The sweep commits a settle without its card exactly for a valid row whose chat is gone and never held the card. */
  lemma SettlesWithoutItsCardExactly(s: State, id: Str, chatId: Str, note: Str, text: Str, now: Time)
    requires id in s.investigations && Investigation.IsInProgress(s.investigations[id].state)
    ensures var t := SettleAndClose(s, id, chatId, note, text, now);
      var card := ClosingId(id, s.investigations[id].revision + 1);
      (t.Committed? && !Stored(t.state, chatId, card))
      <==> Investigation.ValidRest(s.investigations[id].state.fields) && !Live(s, chatId) && !Stored(s, chatId, card)
  {
    hide SettleAndClose, Investigation.ValidRest, ClosingId;
    SweepSettleClosesExactly(s, id, chatId, note, text, now);
    SweepSettleCommitsExactly(s, id, chatId, note, text, now);
    StillOpenRowsAreSettled(s, id, chatId, note, text, now);
  }

  lemma StillOpenRowsAreSettled(s: State, id: Str, chatId: Str, note: Str, text: Str, now: Time)
    requires id in s.investigations && Investigation.IsInProgress(s.investigations[id].state)
    ensures var t := SettleAndClose(s, id, chatId, note, text, now); t.Committed? ==> t.result.Some?
  {
    hide Investigation.SettlementMessage, Investigation.SqlSettled, AppendMessage, Investigation.IsInProgress;
  }

  const CHAT: Str := [0x63]
  const ROW: Str := [0x69]

  /** One chat deleted at time 1, with an investigation still open. */
  function Abandoned(): State {
    EMPTY.(
      chats := map[CHAT := Chat([], [], 1, None, 1, Some(1))],
      investigations := map[ROW := Inquiry(CHAT, [], [], 0, Object(Investigation.SmallState(Investigation.IN_PROGRESS, [])), 0, None, 0)])
  }

  lemma AbandonedIsValid()
    ensures Valid(Abandoned()) && !Live(Abandoned(), CHAT)
  {
  }

  /** A deleted chat's transcript is not written to. */
  lemma DeletedChatTakesNoCard(s: State, id: Str, chatId: Str, note: Str, text: Str, now: Time)
    requires !Live(s, chatId)
    ensures var t := SettleAndClose(s, id, chatId, note, text, now); t.Committed? ==> t.state.messages == s.messages
  {
    hide Investigation.SettlementMessage, Investigation.SqlSettled, Investigation.IsInProgress, IdOf, RoleOf, Deep;
  }

  /** The concrete case: the row is closed for good, and no transcript says so. */
  lemma AnAbandonedRowIsSettledSilently(note: Str, now: Time)
    ensures Valid(Abandoned())
    ensures var t := SettleAndClose(Abandoned(), ROW, CHAT, note, [], now);
      && t.Committed? && t.state.messages == map[]
      && ROW in t.state.investigations && !Investigation.IsInProgress(t.state.investigations[ROW].state)
  {
    hide SettleAndClose, Investigation.ValidRest, Investigation.SmallState, Investigation.ValidState, Valid, ClosingId, Stored, Live;
    Investigation.SmallStateIsValid(Investigation.IN_PROGRESS, []);
    AbandonedIsValid();
    SweepSettleCommitsExactly(Abandoned(), ROW, CHAT, note, [], now);
    SweepSettleClosesExactly(Abandoned(), ROW, CHAT, note, [], now);
    StillOpenRowsAreSettled(Abandoned(), ROW, CHAT, note, [], now);
    DeletedChatTakesNoCard(Abandoned(), ROW, CHAT, note, [], now);
  }

  // ---- Turns ----

  lemma OnePending(s: State, chatId: Str, p: Pending, now: Time)
    requires p.id != [] && p.id in s.investigations && InContext(s.investigations[p.id], chatId, p.projectRef, p.environmentRef)
    requires Investigation.SettlementMessage(p.id, s.investigations[p.id].revision + 1, p.state, None).Some?
    ensures var revision := s.investigations[p.id].revision + 1;
      SettlePending(s, chatId, [p], now) == Committed(
        Upsert(s, p.id, chatId, p.projectRef, p.environmentRef, p.state, p.freshId, now).state,
        TurnSettlements([Settled(p.id, revision, p.state)], [Investigation.SettlementMessage(p.id, revision, p.state, None).value]))
  {
    hide Investigation.SettlementMessage, Deep, InContext;
    assert [p][..0] == [];
    assert SettlePending(s, chatId, [], now) == Committed(s, TurnSettlements([], []));
    var none := TurnSettlements([], []);
    assert SettlePending(s, chatId, [p], now) == SettleOne(s, chatId, p, none, now);
    var revision := s.investigations[p.id].revision + 1;
    var card := Investigation.SettlementMessage(p.id, revision, p.state, None);
    assert none.settled + [Settled(p.id, revision, p.state)] == [Settled(p.id, revision, p.state)];
    assert none.cards + [card.value] == [card.value];
  }

  lemma OneCardIsAccepted(card: Value)
    requires IdOf(Deep(card)).Some?
    ensures RawIds([]) == {} && NewCards([card], {}) == [card]
    ensures BatchError(Normalised([card])).None?
  {
    hide IdOf, Deep, RawId;
    assert [card][..0] == [] && Normalised([card]) == [Deep(card)];
    assert Normalised([card])[..0] == [];
    BatchIsAcceptedExactly(Normalised([card]));
  }

  /** A turn with one settlement, on a chat that is not live: it commits, the row moves, the card goes nowhere. */
  lemma OneSettlementOnADeadChat(s: State, chatId: Str, p: Pending, session: Session, now: Time)
    requires !Live(s, chatId) && p.id != [] && p.id in s.investigations
    requires InContext(s.investigations[p.id], chatId, p.projectRef, p.environmentRef)
    requires p.state.Object? && Investigation.ValidState(p.state.fields)
    ensures var t := PersistTurn(s, chatId, [], session, [p], {}, now);
      && t.Committed? && t.result == [Settled(p.id, s.investigations[p.id].revision + 1, p.state)]
      && t.state.messages == s.messages && t.state.chats == s.chats
      && p.id in t.state.investigations
      && t.state.investigations[p.id] == s.investigations[p.id].(
           state := Deep(p.state), revision := s.investigations[p.id].revision + 1, updatedAt := now)
  {
    hide Investigation.SettlementMessage, Investigation.ValidState, Investigation.SettlementMessageId, Deep, IdOf, RoleOf, SettlePending, NewCards, RawIds, BatchError, Normalised;
    var card := Investigation.SettlementMessage(p.id, s.investigations[p.id].revision + 1, p.state, None).value;
    OnePending(s, chatId, p, now);
    TurnSettlement.SettlementIdIsNotEmpty(p.id, s.investigations[p.id].revision + 1);
    CardIdentity(p.id, s.investigations[p.id].revision + 1, p.state, None);
    OneCardIsAccepted(card);
    assert [] + [card] == [card];
  }

  /** The concrete case: one committed turn settles the row of the deleted chat, and no transcript says so. */
  lemma ATurnSettlesSilently(session: Session, now: Time)
    ensures var state := Object(Investigation.SmallState(Investigation.INCONCLUSIVE, []));
      var t := PersistTurn(Abandoned(), CHAT, [], session, [Pending(ROW, [], [], state, [])], {}, now);
      && t.Committed? && t.result == [Settled(ROW, 1, state)] && t.state.messages == map[]
      && ROW in t.state.investigations && t.state.investigations[ROW].state == Deep(state)
      && !Investigation.IsInProgress(state)
  {
    hide PersistTurn, Investigation.SmallState, Investigation.ValidState, Deep;
    Investigation.SmallStateIsValid(Investigation.INCONCLUSIVE, []);
    Investigation.InconclusiveIsNotInProgress();
    OneSettlementOnADeadChat(Abandoned(), CHAT,
      Pending(ROW, [], [], Object(Investigation.SmallState(Investigation.INCONCLUSIVE, [])), []), session, now);
  }

  /** And delivered again, the same turn settles the row again: the concrete replay that is not quiet. */
  lemma AReplayedTurnSettlesAgain(session: Session, now: Time, later: Time)
    ensures var state := Object(Investigation.SmallState(Investigation.INCONCLUSIVE, []));
      var pending := [Pending(ROW, [], [], state, [])];
      var once := PersistTurn(Abandoned(), CHAT, [], session, pending, {}, now);
      && once.Committed? && once.result == [Settled(ROW, 1, state)]
      && PersistTurn(once.state, CHAT, [], session, pending, {}, later).Committed?
      && PersistTurn(once.state, CHAT, [], session, pending, {}, later).result == [Settled(ROW, 2, state)]
  {
    hide PersistTurn, Investigation.SmallState, Investigation.ValidState, Deep;
    Investigation.SmallStateIsValid(Investigation.INCONCLUSIVE, []);
    var p := Pending(ROW, [], [], Object(Investigation.SmallState(Investigation.INCONCLUSIVE, [])), []);
    OneSettlementOnADeadChat(Abandoned(), CHAT, p, session, now);
    OneSettlementOnADeadChat(PersistTurn(Abandoned(), CHAT, [], session, [p], {}, now).state, CHAT, p, session, later);
  }
}
