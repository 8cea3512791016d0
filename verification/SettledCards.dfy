/** The card a settle stores shows the row as the settle left it, on each of the three paths. */
module SettledCards {
  import opened Text
  import opened Json
  import opened WellFormed
  import opened StoreState
  import opened StoreInvariant
  import opened StoreSteps
  import opened StoreRuns
  import opened StoreDurability
  import opened StoreBatches
  import opened StoreSettlement
  import opened TurnSettlement
  import opened SettlementCard
  import Investigation

  // ---- Reading a normalised value ----

  function Normal(v: Option<Value>): Option<Value> {
    if v.Some? then Some(Deep(v.value)) else None
  }

  predicate KeysOnce(v: Option<Value>) {
    v.Some? && v.value.Object? ==> UniqueKeys(v.value.fields)
  }

  lemma NormalAt(v: Option<Value>, key: string)
    requires KeysOnce(v) && IsAscii(Lit(key))
    ensures At(Normal(v), key) == Normal(At(v, key))
  {
    hide Get, Lit;
    if v.Some? && v.value.Object? { NormalisedMember(v.value.fields, Lit(key)); }
  }

  lemma NormalOnly(v: Option<Value>)
    ensures Only(Normal(v)) == Normal(Only(v))
  {
  }

  /** Every name the card and its state use is ASCII. */
  predicate IsAsciiName(key: string) {
    forall i :: 0 <= i < |key| ==> key[i] as int < 0x80
  }

  lemma AsciiNames(key: string)
    requires IsAsciiName(key)
    ensures IsAscii(Lit(key))
  {
  }

  lemma NormalMember(v: Option<Value>, key: string)
    requires KeysOnce(v) && IsAsciiName(key)
    ensures At(Normal(v), key) == Normal(At(v, key))
  {
    hide At, Normal, KeysOnce;
    AsciiNames(key);
    NormalAt(v, key);
  }

  // ---- What the stored body shows ----

  const SHOWN: set<string> := {"outcome", "severity", "confidence", "title", "headline"}

  /** A text, repaired as it is stored. */
  function Repaired(v: Option<Value>): Option<Value> {
    match v
    case Some(String(s)) => Some(String(ToWellFormed(s)))
    case _ => v
  }

  /** The body's output block is for that investigation and revision, and shows that state. */
  predicate Shows(body: Value, id: Str, revision: nat, state: Value) {
    var block := OutputBlock(body);
    && At(block, "type") == TextOf(Lit("investigation")) && At(block, "version") == Some(Number(Lit("1")))
    && At(block, "id") == TextOf(ToWellFormed(id))
    && At(block, "revision") == Some(Number(Decimal(revision)))
    && forall key :: key in SHOWN ==>
         At(At(block, "investigation"), key) == Repaired(At(Some(state), key)) && At(Some(state), key).Some?
  }

  lemma ShownMembersAreTexts(fields: seq<Field>, key: string)
    requires Investigation.ValidState(fields) && key in SHOWN
    ensures At(Some(Object(fields)), key).Some? && At(Some(Object(fields)), key).value.String?
  {
    hide Get, Investigation.ValidHypothesis, Investigation.ValidEvidence, Investigation.ValidCaveat, Lit;
    assert Investigation.OUTCOME == Lit("outcome") && Investigation.SEVERITY == Lit("severity");
    assert Investigation.CONFIDENCE == Lit("confidence") && Investigation.TITLE == Lit("title") && Investigation.HEADLINE == Lit("headline");
  }

  /** The blocks of the stored body are the card's, normalised. */
  lemma StoredBlock(card: Value, part: Value, input: Value, output: Value, shown: Value)
    requires IsCardShape(card, part, input, output, shown)
    ensures OutputBlock(Deep(card)) == Some(Deep(output))
  {
    hide At, Deep, HasKeys, DistinctKeys, Only;
    ShapeReads(card, part, input, output, shown);
    ShapeKeys(card, part, input, output, shown);
    var outer := At(Some(part), "output");
    NormalMember(Some(card), "parts");
    NormalOnly(At(Some(card), "parts"));
    NormalMember(Some(part), "output");
    NormalMember(outer, "blocks");
    NormalOnly(At(outer, "blocks"));
  }

  lemma ShapeKeys(card: Value, part: Value, input: Value, output: Value, shown: Value)
    requires IsCardShape(card, part, input, output, shown)
    ensures KeysOnce(Some(card)) && KeysOnce(Some(part)) && KeysOnce(Some(output)) && KeysOnce(At(Some(part), "output"))
  {
    hide At, DistinctKeys;
    CardKeysAreDistinct();
    MembersByKey(card, CARD_KEYS);
    MembersByKey(part, PART_KEYS);
    MembersByKey(part.fields[4].value, BLOCKS_KEYS);
    MembersByKey(output, OUTPUT_KEYS);
    assert PART_KEYS[4] == "output";
  }

  lemma BlockTexts(output: Value)
    requires HasKeys(output, OUTPUT_KEYS)
    ensures At(Some(Deep(output)), "type") == Normal(At(Some(output), "type"))
    ensures At(Some(Deep(output)), "id") == Normal(At(Some(output), "id"))
    ensures At(Some(Deep(output)), "revision") == Normal(At(Some(output), "revision"))
    ensures At(Some(Deep(output)), "version") == Normal(At(Some(output), "version"))
    ensures At(Some(Deep(output)), "investigation") == Normal(At(Some(output), "investigation"))
  {
    hide At, Deep, HasKeys, DistinctKeys;
    CardKeysAreDistinct();
    MembersByKey(output, OUTPUT_KEYS);
    NormalMember(Some(output), "type");
    NormalMember(Some(output), "id");
    NormalMember(Some(output), "revision");
    NormalMember(Some(output), "version");
    NormalMember(Some(output), "investigation");
  }

  lemma NormalTexts(id: Str, revision: nat)
    ensures Normal(TextOf(Lit("investigation"))) == TextOf(Lit("investigation"))
    ensures Normal(TextOf(id)) == TextOf(ToWellFormed(id))
    ensures Normal(Some(Number(Decimal(revision)))) == Some(Number(Decimal(revision)))
    ensures Normal(Some(Number(Lit("1")))) == Some(Number(Lit("1")))
  {
    AsciiNames("investigation");
    AsciiIsKept(Lit("investigation"));
  }

  lemma ParsedKeysOnce(fields: seq<Field>)
    ensures KeysOnce(Some(Investigation.ParsedState(fields)))
  {
    hide Get, Investigation.StateSlots, Investigation.Members;
    StateKeysDiffer(fields);
    MembersOfSlots(Investigation.StateSlots(fields));
  }

  lemma ShownIsOwn(fields: seq<Field>, key: string)
    requires key in SHOWN
    ensures At(Some(Investigation.ParsedState(fields)), key) == At(Some(Object(fields)), key)
  {
    hide At, Lit, Investigation.ParsedState;
    ScalarsAreSame(fields);
  }

  lemma ShownNameIsAscii(key: string)
    requires key in SHOWN
    ensures IsAsciiName(key)
  {
  }

  lemma ShownStateMember(state: Value, key: string)
    requires state.Object? && Investigation.ValidState(state.fields) && key in SHOWN
    ensures At(Some(Deep(Investigation.ParsedState(state.fields))), key) == Repaired(At(Some(state), key))
    ensures At(Some(state), key).Some?
  {
    hide At, Lit, KeysOnce, IsAsciiName, Investigation.ValidState, Investigation.ParsedState;
    ParsedKeysOnce(state.fields);
    ShownIsOwn(state.fields, key);
    ShownMembersAreTexts(state.fields, key);
    ShownNameIsAscii(key);
    NormalMember(Some(Investigation.ParsedState(state.fields)), key);
    DeepText(At(Some(state), key).value);
  }

  lemma DeepText(v: Value)
    requires v.String?
    ensures Deep(v) == String(ToWellFormed(v.s))
  {
  }

  /** What any closing card shows once it is stored. */
  lemma StoredCardShows(id: Str, revision: nat, state: Value, messageId: Option<Str>)
    requires Investigation.SettlementMessage(id, revision, state, messageId).Some?
    ensures Shows(Deep(Investigation.SettlementMessage(id, revision, state, messageId).value), id, revision, state)
  {
    hide At, Deep, HasKeys, Investigation.ValidState, Investigation.ParsedState, Investigation.SettlementMessageId, Decimal, Lit, Repaired, OutputBlock;
    var card := Investigation.SettlementMessage(id, revision, state, messageId).value;
    var part, input, output := CardShape(id, revision, state, messageId);
    var shown := Investigation.ParsedState(state.fields);
    ShapeReads(card, part, input, output, shown);
    StoredBlock(card, part, input, output, shown);
    BlockTexts(output);
    NormalTexts(id, revision);
    forall key | key in SHOWN
      ensures At(At(OutputBlock(Deep(card)), "investigation"), key) == Repaired(At(Some(state), key)) && At(Some(state), key).Some?
    {
      ShownStateMember(state, key);
    }
  }

  /** A state and its normalised form are shown alike. */
  lemma ShowsNormalised(body: Value, id: Str, revision: nat, state: Value)
    requires Shows(body, id, revision, state) && state.Object? && UniqueKeys(state.fields) && Investigation.ValidState(state.fields)
    ensures Shows(body, id, revision, Deep(state))
  {
    hide At, Deep, Lit, OutputBlock, Investigation.ValidState;
    forall key | key in SHOWN
      ensures Repaired(At(Some(Deep(state)), key)) == Repaired(At(Some(state), key)) && At(Some(Deep(state)), key).Some?
    {
      ShownMembersAreTexts(state.fields, key);
      NormalMember(Some(state), key);
      var text := At(Some(state), key).value.s;
      ToWellFormedRepairs(text);
      ToWellFormedRepairs(ToWellFormed(text));
      assert Normal(At(Some(state), key)) == Some(String(ToWellFormed(text))) by { NormalTexts(text, 0); }
    }
  }

  // ---- The three paths ----

  /** The message is stored, and shows the row of that investigation as the store has it. */
  predicate CardShowsRow(s: State, k: MessageKey, id: Str) {
    && k in s.messages && id in s.investigations
    && Shows(s.messages[k].body, id, s.investigations[id].revision, s.investigations[id].state)
  }

  lemma AppendedBody(s: State, chatId: Str, message: Value, now: Time)
    requires AppendMessage(s, chatId, message, AnyOwner, now).Committed? && AppendMessage(s, chatId, message, AnyOwner, now).result
    ensures IdOf(Deep(message)).Some?
    ensures var k := MessageKey(chatId, IdOf(Deep(message)).value); var s' := AppendMessage(s, chatId, message, AnyOwner, now).state;
      k !in s.messages && k in s'.messages && s'.messages[k].body == Deep(message) && s'.investigations == s.investigations
  {
    hide IdOf, RoleOf, Deep;
  }

  /** The stale sweep: a card that closes shows the row as the sweep left it. */
  lemma SweepCardShowsItsRow(s: State, id: Str, chatId: Str, note: Str, text: Str, now: Time)
    ensures var t := SettleAndClose(s, id, chatId, note, text, now);
      t.Committed? && t.result.Some? && t.result.value.closed ==>
        && id in s.investigations
        && MessageKey(chatId, ClosingId(id, s.investigations[id].revision + 1)) !in s.messages
        && CardShowsRow(t.state, MessageKey(chatId, ClosingId(id, s.investigations[id].revision + 1)), id)
        && t.state.investigations[id].revision == s.investigations[id].revision + 1
  {
    hide AppendMessage, Investigation.SettlementMessage, Investigation.SqlSettled, Investigation.IsInProgress, Shows, IdOf, RoleOf, Deep,
      Investigation.SettlementMessageId;
    var t := SettleAndClose(s, id, chatId, note, text, now);
    if t.Committed? && t.result.Some? && t.result.value.closed {
      var i := SettleInconclusive(s, id, note, text, now);
      var st := i.result.value;
      var card := Investigation.SettlementMessage(st.id, st.revision, st.state, None);
      AppendedBody(i.state, chatId, card.value, now);
      CardIdentity(st.id, st.revision, st.state, None);
      SettlementIdIsNotEmpty(st.id, st.revision);
      StoredCardShows(st.id, st.revision, st.state, None);
    }
  }

  /** The caller's settle: so does its card. */
  lemma SettleStateCardShowsItsRow(s: State, op: Op, now: Time)
    requires op.SettleState? && Proper(op.state)
    ensures var t := SettleStateAndClose(s, op.id, op.chatId, op.projectRef, op.environmentRef, op.state, op.messageId, op.freshId, now);
      t.Committed? && t.result.Closed? && t.result.closed ==>
        && MessageKey(op.chatId, ToWellFormed(op.messageId)) !in s.messages
        && CardShowsRow(t.state, MessageKey(op.chatId, ToWellFormed(op.messageId)), t.result.id)
        && t.state.investigations[t.result.id].revision == t.result.revision
  {
    hide SettleStateAndClose, AppendMessage, Upsert, Shows, IdOf, RoleOf, Deep, Investigation.SettlementMessage;
    var t := SettleStateAndClose(s, op.id, op.chatId, op.projectRef, op.environmentRef, op.state, op.messageId, op.freshId, now);
    SettleStateOutcome(s, op, now);
    if t.Committed? && t.result.Closed? && t.result.closed {
      var u := Upsert(s, op.id, op.chatId, op.projectRef, op.environmentRef, op.state, op.freshId, now);
      UpsertedRow(s, op.id, op.chatId, op.projectRef, op.environmentRef, op.state, op.freshId, now);
      UpsertKeepsTranscripts(s, op.id, op.chatId, op.projectRef, op.environmentRef, op.state, op.freshId, now);
      AppendedBody(u.state, op.chatId, t.result.card, now);
      CardIdentity(u.result.id, u.result.revision, op.state, Some(op.messageId));
      StoredCardShows(u.result.id, u.result.revision, op.state, Some(op.messageId));
      RenderedIsValid(u.result.id, u.result.revision, op.state, Some(op.messageId));
      ShowsNormalised(Deep(t.result.card), u.result.id, u.result.revision, op.state);
    }
  }

  lemma RenderedIsValid(id: Str, revision: nat, state: Value, messageId: Option<Str>)
    requires Investigation.SettlementMessage(id, revision, state, messageId).Some?
    ensures state.Object? && Investigation.ValidState(state.fields)
    ensures Proper(state) ==> UniqueKeys(state.fields)
  {
    hide Investigation.ValidState;
  }

  /** None of the turn's own messages goes by that id. */
  predicate NoMessageIsCalled(messages: seq<Value>, id: Str) {
    forall m :: m in messages ==> RawId(m) != Some(id)
  }

  /** A card the batch brings for the first time is stored as it is. */
  lemma NewCardIsStored(s: State, chatId: Str, all: seq<Value>, finalizable: set<Str>, now: Time, card: Value, id: Str)
    requires StoreMessages(s, chatId, all, finalizable, now).Committed? && Live(s, chatId)
    requires card in all && IdOf(Deep(card)) == Some(id) && !Stored(s, chatId, id)
    ensures var s' := StoreMessages(s, chatId, all, finalizable, now).state; var k := MessageKey(chatId, id);
      k in s'.messages && s'.messages[k].body == Deep(card)
  {
    hide StoreMessages, IdOf, RoleOf, Deep, Missing;
    var i :| 0 <= i < |all| && all[i] == card;
    assert Normalised(all)[i] == Deep(card);
    assert Deep(card) in Normalised(all);
    var added := Missing(s, chatId, Normalised(all));
    assert Deep(card) in added;
    var j :| 0 <= j < |added| && added[j] == Deep(card);
    NewMessagesKeepIncomingOrder(s, chatId, all, finalizable, now);
    assert PlacedAt(StoreMessages(s, chatId, all, finalizable, now).state.messages, chatId, added[j], s.chats[chatId].next + j);
  }

  /** The settlements a turn commits are for states that list their keys once. */
  lemma {:induction false} SettledStatesAreProper(s: State, chatId: Str, pending: seq<Pending>, now: Time)
    requires SettlePending(s, chatId, pending, now).Committed? && forall p :: p in pending ==> Proper(p.state)
    ensures forall st :: st in SettlePending(s, chatId, pending, now).result.settled ==> Proper(st.state)
  {
    hide Upsert, Investigation.SettlementMessage, Proper;
    if pending != [] {
      var n := |pending| - 1;
      assert forall p :: p in pending[..n] ==> p in pending;
      assert pending[n] in pending;
      SettledStatesAreProper(s, chatId, pending[..n], now);
    }
  }

  /**
    A committed turn: the card it stores for its last settlement of a row shows the row as the
    turn left it, unless the turn's own messages, or the chat, already go by the card's id.
   */
  lemma TurnCardShowsItsRow(s: State, op: Op, now: Time, i: nat)
    requires op.Turn? && Live(s, op.chatId) && forall p :: p in op.pending ==> Proper(p.state)
    requires PersistTurn(s, op.chatId, op.messages, op.session, op.pending, op.finalizeIds, now).Committed?
    requires var r := PersistTurn(s, op.chatId, op.messages, op.session, op.pending, op.finalizeIds, now);
      && i < |r.result| && IsLast(r.result, i)
      && !Stored(s, op.chatId, ClosingId(r.result[i].id, r.result[i].revision))
      && NoMessageIsCalled(op.messages, Investigation.SettlementMessageId(r.result[i].id, r.result[i].revision))
    ensures var r := PersistTurn(s, op.chatId, op.messages, op.session, op.pending, op.finalizeIds, now); var st := r.result[i];
      && CardShowsRow(r.state, MessageKey(op.chatId, ClosingId(st.id, st.revision)), st.id)
      && r.state.investigations[st.id].revision == st.revision
  {
    hide StoreMessages, SettlePending, NewCards, PersistTurn, Normalised, IdOf, Investigation.SettlementMessage, Proper, RawIds,
      RawId, Shows, Deep, Investigation.SettlementMessageId;
    var r := PersistTurn(s, op.chatId, op.messages, op.session, op.pending, op.finalizeIds, now);
    var st := r.result[i];
    var t, all := TurnParts(s, op, now);
    PendingCardsMatch(s, op.chatId, op.pending, now);
    PendingKeepsTranscripts(s, op.chatId, op.pending, now);
    StoreKeepsInvestigations(t.state, op.chatId, all, Finalizable(op.finalizeIds), now);
    var card := t.result.cards[i];
    assert card in t.result.cards;
    CardIdentity(st.id, st.revision, st.state, None);
    SettlementIdIsNotEmpty(st.id, st.revision);
    NewCardsHasEveryMissingCard(t.result.cards, RawIds(op.messages), card);
    NotCalled(op.messages, Investigation.SettlementMessageId(st.id, st.revision));
    NewCardIsStored(t.state, op.chatId, all, Finalizable(op.finalizeIds), now, card, ClosingId(st.id, st.revision));
    StoredCardShows(st.id, st.revision, st.state, None);
    RenderedIsValid(st.id, st.revision, st.state, None);
    SettledStatesAreProper(s, op.chatId, op.pending, now);
    assert st in t.result.settled;
    ShowsNormalised(Deep(card), st.id, st.revision, st.state);
    assert Stands(t.state, st);
  }

  lemma NotCalled(messages: seq<Value>, id: Str)
    requires NoMessageIsCalled(messages, id)
    ensures id !in RawIds(messages)
  {
    hide RawId;
  }
}
