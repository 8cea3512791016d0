/** Who a statement acts for and what it writes, said in the columns it compares. */
module StoreColumns {
  import opened Text
  import opened Json
  import opened WellFormed
  import opened StoreState
  import opened StoreInvariant
  import opened StoreSteps
  import opened StoreRuns
  import opened StoreDurability
  import opened StoreSettlement
  import opened StoreSessions
  import Investigation

  // ---- Appends ----

  /** The chat is there, not deleted, the user's, and of the organization if one is given. */
  predicate MayAppend(s: State, chatId: Str, scope: Scope) {
    && chatId in s.chats && s.chats[chatId].deletedAt == None
    && (scope.Owner? ==> s.chats[chatId].userId == scope.userId)
    && (scope.Owner? && scope.organizationId != [] ==> s.chats[chatId].organizationId == scope.organizationId)
  }

  /**
    An append of a complete message stores it exactly in its owner's live chat and under a new id, at the chat's
    next position, moving the counter by one and both clocks to now; anyone else's append
    commits and changes nothing.
   */
  lemma AppendWritesExactly(s: State, chatId: Str, message: Value, scope: Scope, now: Time)
    requires Writable(Deep(message))
    ensures var m := Deep(message); var k := MessageKey(chatId, IdOf(m).value);
      var t := AppendMessage(s, chatId, message, scope, now);
      && t.Committed?
      && (t.result <==> MayAppend(s, chatId, scope) && k !in s.messages)
      && (!t.result ==> t.state == s)
      && (t.result ==>
            var chat := s.chats[chatId];
            t.state == s.(messages := s.messages[k := Message(chat.next, RoleOf(m).value, m)],
                          chats := s.chats[chatId := Chat(chat.organizationId, chat.userId, chat.next + 1, Some(now), now, None)]))
  {
    hide IdOf, RoleOf, Deep;
  }

  /** In particular nobody appends to somebody else's chat, or to another organization's. */
  lemma StrangersAppendNothing(s: State, chatId: Str, message: Value, userId: Str, organizationId: Str, now: Time)
    requires chatId in s.chats && Writable(Deep(message))
    requires s.chats[chatId].userId != userId || (organizationId != [] && s.chats[chatId].organizationId != organizationId)
    ensures AppendMessage(s, chatId, message, Owner(userId, organizationId), now) == Committed(s, false)
  {
    hide AppendMessage, IdOf, RoleOf, Deep;
    AppendWritesExactly(s, chatId, message, Owner(userId, organizationId), now);
  }

  // ---- Settlement cards ----

  /** The ids that belong to settlement cards. */
  predicate IsCardId(id: Str) {
    Lit("investigation-settlement:") <= id
  }

  lemma CardPrefix()
    ensures SETTLEMENT_ID_PREFIX == Lit("investigation-settlement:")
    ensures IsAscii(SETTLEMENT_ID_PREFIX)
  {
    var prefix := Lit("investigation-settlement:");
    assert prefix[..|prefix| - 1] == Lit("investigation-settlement");
    assert prefix == prefix[..|prefix| - 1] + [Investigation.COLON];
  }

  lemma {:induction false} AsciiPrefixIsKept(prefix: Str, rest: Str)
    requires IsAscii(prefix)
    ensures ToWellFormed(prefix + rest) == prefix + ToWellFormed(rest)
  {
    if prefix == [] {
      assert prefix + rest == rest && prefix + ToWellFormed(rest) == ToWellFormed(rest);
    } else {
      var s := prefix + rest;
      assert s[0] == prefix[0] && s[1..] == prefix[1..] + rest;
      AsciiPrefixIsKept(prefix[1..], rest);
      assert prefix == [prefix[0]] + prefix[1..];
    }
  }

  /** Every closing card is stored under such an id. */
  lemma ClosingIdsAreCardIds(id: Str, revision: nat)
    ensures IsCardId(ClosingId(id, revision))
  {
    hide ToWellFormed, Decimal;
    CardPrefix();
    var rest := id + [Investigation.COLON] + Decimal(revision);
    assert Investigation.SettlementMessageId(id, revision) == SETTLEMENT_ID_PREFIX + rest;
    AsciiPrefixIsKept(SETTLEMENT_ID_PREFIX, rest);
  }

  /** A settlement card is never the turn's to rewrite, however the turn names it. */
  lemma TurnsRewriteNoCard(s: State, chatId: Str, messages: seq<Value>, session: Session, pending: seq<Pending>,
                           finalizeIds: set<Str>, now: Time, k: MessageKey)
    requires PersistTurn(s, chatId, messages, session, pending, finalizeIds, now).Committed?
    requires k in s.messages && IsCardId(k.messageId)
    ensures var s' := PersistTurn(s, chatId, messages, session, pending, finalizeIds, now).state;
      k in s'.messages && s'.messages[k] == s.messages[k]
  {
    hide PersistTurn;
    CardPrefix();
    StepIsDurable(s, Call(Turn(chatId, messages, session, pending, finalizeIds), now));
  }

  /** A message of the batch already goes by the id the card goes by. */
  predicate IsCarried(messages: seq<Value>, card: Value) {
    card.Object? && Get(card.fields, Lit("id")).Some? && Get(card.fields, Lit("id")).value.String?
    && exists m :: m in messages && m.Object? && Get(m.fields, Lit("id")) == Get(card.fields, Lit("id"))
  }

  /** A turn adds exactly the cards that its own messages do not already carry, in their order. */
  lemma {:induction false} NewCardsExactly(cards: seq<Value>, messages: seq<Value>)
    ensures var added := NewCards(cards, RawIds(messages));
      && (forall c :: c in added <==> c in cards && !IsCarried(messages, c))
      && (|cards| > 0 ==>
            var last := cards[|cards| - 1];
            added == NewCards(cards[..|cards| - 1], RawIds(messages)) + if IsCarried(messages, last) then [] else [last])
  {
    hide RawIds, IsCarried;
    if cards != [] {
      var n := |cards| - 1;
      assert cards == cards[..n] + [cards[n]];
      NewCardsExactly(cards[..n], messages);
      CarriedExactly(messages, cards[n]);
    }
  }

  lemma CarriedExactly(messages: seq<Value>, card: Value)
    ensures IsCarried(messages, card) <==> RawId(card).Some? && RawId(card).value in RawIds(messages)
  {
    hide Get;
    assert ID == Lit("id");
    if RawId(card).Some? && RawId(card).value in RawIds(messages) {
      var m :| m in messages && RawId(m).Some? && RawId(m).value == RawId(card).value;
      assert m in messages && m.Object? && Get(m.fields, Lit("id")) == Get(card.fields, Lit("id"));
    }
    if IsCarried(messages, card) {
      var m :| m in messages && m.Object? && Get(m.fields, Lit("id")) == Get(card.fields, Lit("id"));
      assert m in messages && RawId(m).Some? && RawId(m).value == RawId(card).value;
    }
  }

  // ---- Investigations ----

  /** The row is of that chat, that project and that environment. */
  predicate IsOf(row: Inquiry, chatId: Str, projectRef: Str, environmentRef: Str) {
    && row.chatId == chatId
    && row.projectRef == projectRef
    && row.environmentRef == environmentRef
  }

  /**
    A named investigation is revised exactly from its own chat, project and environment, by one and with its update
    time moved to now; otherwise the refusal says why and nothing changes. Without a name one is
    opened at revision 0, never attempted.
   */
  lemma UpsertWritesExactly(s: State, id: Str, c: Str, p: Str, e: Str, state: Value, freshId: Str, now: Time)
    ensures var u := Upsert(s, id, c, p, e, state, freshId, now);
      && (id == [] && freshId !in s.investigations ==>
            && u.Committed? && u.result == Upserted(freshId, 0, true)
            && u.state == s.(investigations := s.investigations[freshId := Inquiry(c, p, e, 0, Deep(state), 0, None, now)]))
      && (id == [] && freshId in s.investigations ==> u == RolledBack(KeyTaken))
      && (id != [] ==> u.Committed? && (u.result.Upserted? <==> id in s.investigations && IsOf(s.investigations[id], c, p, e)))
      && (id != [] && u.result.Refused? ==>
            u.state == s && u.result.refusal == if id in s.investigations then ContextMismatch else NotFound)
      && (id != [] && u.result.Upserted? ==>
            var row := s.investigations[id];
            && u.result == Upserted(id, row.revision + 1, false)
            && u.state == s.(investigations := s.investigations[id :=
                 Inquiry(c, p, e, row.revision + 1, Deep(state), row.sweepAttempts, row.lastSweepAttemptAt, now)]))
  {
    hide Deep;
  }

  /** Opening under a chosen id writes only where the id is free, and finds a row only in its own context. */
  lemma SeedWritesExactly(s: State, id: Str, c: Str, p: Str, e: Str, state: Value, now: Time)
    ensures var t := Seed(s, id, c, p, e, state, now);
      && t.Committed?
      && (t.result == Seeded(true) <==> id !in s.investigations)
      && (t.result == Seeded(false) <==> id in s.investigations && IsOf(s.investigations[id], c, p, e))
      && t.state == if id in s.investigations then s
                    else s.(investigations := s.investigations[id := Inquiry(c, p, e, 0, Deep(state), 0, None, now)])
  {
    hide Deep;
  }

  // ---- Sessions and new chats ----

  /** A committed turn stores its session, and no other chat's session changes. */
  lemma TurnStoresItsSession(s: State, chatId: Str, messages: seq<Value>, session: Session, pending: seq<Pending>,
                             finalizeIds: set<Str>, now: Time)
    requires PersistTurn(s, chatId, messages, session, pending, finalizeIds, now).Committed?
    ensures PersistTurn(s, chatId, messages, session, pending, finalizeIds, now).state.sessions == s.sessions[chatId := session]
  {
    hide StoreMessages, SettlePending, NewCards, RawIds;
    var t := SettlePending(s, chatId, pending, now);
    PendingKeepsTranscripts(s, chatId, pending, now);
    StoreKeepsSessions(t.state, chatId, messages + NewCards(t.result.cards, RawIds(messages)), Finalizable(finalizeIds), now);
  }

  /** Whoever opened a chat may append to it and delete it: a new chat is live, its creator's and its organization's, and empty. */
  lemma ANewChatIsItsCreators(s: State, chatId: Str, userId: Str, organizationId: Str, now: Time, later: Time)
    requires Valid(s) && chatId !in s.chats
    ensures var s' := CreateChat(s, chatId, organizationId, userId, now);
      && MayAppend(s', chatId, Owner(userId, organizationId))
      && (forall k :: k in s'.messages ==> k.chatId != chatId) && s'.chats[chatId].next == 1
      && !Live(SoftDeleteChat(s', chatId, userId, organizationId, later), chatId)
  {
    hide GapFree;
  }
}
