/** What every transaction keeps: transcripts without gaps or duplicates, rows that match their bodies. */
module StoreInvariant {
  import opened Text
  import opened Json
  import opened WellFormed
  import opened StoreState
  import Investigation

  predicate IsAt(rows: map<MessageKey, Message>, k: MessageKey, p: nat) {
    k in rows && rows[k].position == p
  }

  /** Some message of the chat is at position `p`. */
  ghost predicate AtPosition(rows: map<MessageKey, Message>, chatId: Str, p: nat) {
    exists id :: IsAt(rows, MessageKey(chatId, id), p)
  }

  /** The chat's messages are at positions 1, 2, ..., next - 1, one at each. */
  ghost predicate GapFree(rows: map<MessageKey, Message>, chatId: Str, next: nat) {
    && next >= 1
    && (forall id :: MessageKey(chatId, id) in rows ==> 1 <= rows[MessageKey(chatId, id)].position < next)
    && (forall id, id' :: MessageKey(chatId, id) in rows && MessageKey(chatId, id') in rows && id != id'
          ==> rows[MessageKey(chatId, id)].position != rows[MessageKey(chatId, id')].position)
    && (forall p :: 1 <= p < next ==> AtPosition(rows, chatId, p))
  }

  /** The columns lifted out of a message agree with its body. */
  ghost predicate RowMatchesBody(k: MessageKey, row: Message) {
    IdOf(row.body) == Some(k.messageId) && RoleOf(row.body) == Some(row.role)
  }

  ghost predicate Valid(s: State) {
    && (forall c :: c in s.chats ==> GapFree(s.messages, c, s.chats[c].next))
    && (forall k :: k in s.messages ==> k.chatId in s.chats && RowMatchesBody(k, s.messages[k]))
  }

  const EMPTY: State := State(map[], map[], map[], map[], map[], map[], map[])

  lemma EmptyIsValid()
    ensures Valid(EMPTY)
  {
  }

  // ---- Batches ----

  /** Every message has an id, and none the id of an earlier one. */
  predicate DistinctIds(messages: seq<Value>) {
    messages == []
    || (var n := |messages| - 1;
        DistinctIds(messages[..n]) && IdOf(messages[n]).Some? && !HasId(messages[..n], IdOf(messages[n]).value))
  }

  lemma {:induction false} BatchIsAcceptedExactly(messages: seq<Value>)
    ensures BatchError(messages).None? <==> DistinctIds(messages)
  {
    if messages != [] { BatchIsAcceptedExactly(messages[..|messages| - 1]); }
  }

  /** The same, by index: an accepted batch has an id everywhere and the same id nowhere twice. */
  lemma {:induction false} DistinctIdsByIndex(messages: seq<Value>)
    requires DistinctIds(messages)
    ensures forall i :: 0 <= i < |messages| ==> IdOf(messages[i]).Some?
    ensures forall i, j :: 0 <= i < j < |messages| ==> IdOf(messages[i]) != IdOf(messages[j])
  {
    hide IdOf;
    if messages != [] {
      var n := |messages| - 1;
      var init := messages[..n];
      DistinctIdsByIndex(init);
      forall i | 0 <= i < n ensures IdOf(messages[i]).Some? && IdOf(messages[i]) != IdOf(messages[n]) {
        assert init[i] == messages[i] && init[i] in init;
      }
      forall i, j | 0 <= i < j < n ensures IdOf(messages[i]) != IdOf(messages[j]) {
        assert init[i] == messages[i] && init[j] == messages[j];
      }
    }
  }

  lemma {:induction false} MissingIsDistinct(s: State, chatId: Str, messages: seq<Value>)
    requires DistinctIds(messages)
    ensures DistinctIds(Missing(s, chatId, messages))
  {
    hide IdOf;
    if messages != [] {
      var n := |messages| - 1;
      var init, last := messages[..n], messages[n];
      MissingIsDistinct(s, chatId, init);
      var before := Missing(s, chatId, init);
      assert !HasId(before, IdOf(last).value);
      if !Stored(s, chatId, IdOf(last).value) {
        assert (before + [last])[..|before|] == before;
      } else {
        assert before + [] == before;
      }
    }
  }

  predicate Writable(m: Value) {
    IdOf(m).Some? && RoleOf(m).Some?
  }

  /** A batch that can be inserted: complete messages, ids distinct and not yet in the chat. */
  predicate Insertable(rows: map<MessageKey, Message>, chatId: Str, messages: seq<Value>) {
    messages == []
    || (var n := |messages| - 1;
        && Insertable(rows, chatId, messages[..n])
        && Writable(messages[n])
        && MessageKey(chatId, IdOf(messages[n]).value) !in rows
        && !HasId(messages[..n], IdOf(messages[n]).value))
  }

  lemma {:induction false} InsertableMembers(rows: map<MessageKey, Message>, chatId: Str, messages: seq<Value>)
    requires Insertable(rows, chatId, messages)
    ensures forall m :: m in messages ==> Writable(m)
  {
    hide Writable, IdOf;
    if messages != [] {
      var n := |messages| - 1;
      InsertableMembers(rows, chatId, messages[..n]);
      assert messages == messages[..n] + [messages[n]];
    }
  }

  lemma {:induction false} InsertablePart(rows: map<MessageKey, Message>, chatId: Str, messages: seq<Value>, n: nat)
    requires Insertable(rows, chatId, messages) && n <= |messages|
    ensures Insertable(rows, chatId, messages[..n])
    decreases |messages|
  {
    hide IdOf, RoleOf;
    if n == |messages| {
      assert messages[..n] == messages;
    } else {
      var init := messages[..|messages| - 1];
      assert init[..n] == messages[..n];
      InsertablePart(rows, chatId, init, n);
    }
  }

  lemma {:induction false} DistinctIsInsertable(rows: map<MessageKey, Message>, chatId: Str, messages: seq<Value>)
    requires DistinctIds(messages)
    requires forall m :: m in messages ==> Writable(m) && MessageKey(chatId, IdOf(m).value) !in rows
    ensures Insertable(rows, chatId, messages)
  {
    hide IdOf, RoleOf;
    if messages != [] {
      var n := |messages| - 1;
      assert messages == messages[..n] + [messages[n]];
      assert messages[n] in messages;
      DistinctIsInsertable(rows, chatId, messages[..n]);
    }
  }

  /** `m` is in the chat's rows, at position `p`. */
  predicate PlacedAt(rows: map<MessageKey, Message>, chatId: Str, m: Value, p: nat) {
    && Writable(m)
    && MessageKey(chatId, IdOf(m).value) in rows
    && rows[MessageKey(chatId, IdOf(m).value)] == Message(p, RoleOf(m).value, m)
  }

  /** `Inserted`, without its obligations repeated at every use. */
  function Insert(rows: map<MessageKey, Message>, chatId: Str, messages: seq<Value>, start: nat): map<MessageKey, Message>
    requires Insertable(rows, chatId, messages)
  {
    InsertableMembers(rows, chatId, messages);
    Inserted(rows, chatId, messages, start)
  }

  lemma InsertStep(rows: map<MessageKey, Message>, chatId: Str, messages: seq<Value>, start: nat)
    requires Insertable(rows, chatId, messages) && messages != []
    ensures var n := |messages| - 1; var last := messages[n];
      Insert(rows, chatId, messages, start)
      == Insert(rows, chatId, messages[..n], start)
           [MessageKey(chatId, IdOf(last).value) := Message(start + n, RoleOf(last).value, last)]
  {
    InsertableMembers(rows, chatId, messages);
    InsertableMembers(rows, chatId, messages[..|messages| - 1]);
  }

  lemma HasIdOfAppended(init: seq<Value>, last: Value, id: Str)
    ensures HasId(init + [last], id) <==> HasId(init, id) || IdOf(last) == Some(id)
  {
    hide IdOf;
    if IdOf(last) == Some(id) {
      assert (init + [last])[|init|] == last;
    }
    if HasId(init, id) {
      var m :| m in init && IdOf(m) == Some(id);
      assert m in init + [last];
    }
  }

  /** Inserting adds exactly the batch's ids and touches no stored row. */
  lemma {:induction false} InsertedKeys(rows: map<MessageKey, Message>, chatId: Str, messages: seq<Value>, start: nat)
    requires Insertable(rows, chatId, messages)
    ensures forall k :: k in Insert(rows, chatId, messages, start) <==> k in rows || (k.chatId == chatId && HasId(messages, k.messageId))
    ensures forall k :: k in rows ==> Insert(rows, chatId, messages, start)[k] == rows[k]
  {
    hide IdOf, RoleOf;
    if messages != [] {
      var n := |messages| - 1;
      InsertedKeys(rows, chatId, messages[..n], start);
      InsertStep(rows, chatId, messages, start);
      assert messages == messages[..n] + [messages[n]];
      forall k: MessageKey ensures HasId(messages, k.messageId) <==> HasId(messages[..n], k.messageId) || IdOf(messages[n]) == Some(k.messageId) {
        HasIdOfAppended(messages[..n], messages[n], k.messageId);
      }
    }
  }

  /** Every inserted message is at its own position, in batch order. */
  lemma {:induction false} InsertedPositions(rows: map<MessageKey, Message>, chatId: Str, messages: seq<Value>, start: nat)
    requires Insertable(rows, chatId, messages)
    ensures forall i :: 0 <= i < |messages| ==> PlacedAt(Insert(rows, chatId, messages, start), chatId, messages[i], start + i)
  {
    hide IdOf, RoleOf;
    if messages != [] {
      var n := |messages| - 1;
      var init := messages[..n];
      InsertedPositions(rows, chatId, init, start);
      InsertStep(rows, chatId, messages, start);
      forall i | 0 <= i < n ensures PlacedAt(Insert(rows, chatId, messages, start), chatId, messages[i], start + i) {
        assert init[i] == messages[i] && init[i] in init;
        assert PlacedAt(Insert(rows, chatId, init, start), chatId, init[i], start + i);
      }
    }
  }

  /** One more message at the next position. */
  lemma AppendKeepsGapFree(rows: map<MessageKey, Message>, chatId: Str, next: nat, k: MessageKey, row: Message)
    requires GapFree(rows, chatId, next)
    requires k.chatId == chatId && k !in rows && row.position == next
    ensures GapFree(rows[k := row], chatId, next + 1)
  {
    var r := rows[k := row];
    forall p | 1 <= p < next + 1 ensures AtPosition(r, chatId, p) {
      if p < next {
        assert AtPosition(rows, chatId, p);
        var id :| IsAt(rows, MessageKey(chatId, id), p);
        assert IsAt(r, MessageKey(chatId, id), p);
      } else {
        assert IsAt(r, MessageKey(chatId, k.messageId), p);
      }
    }
  }

  /** A chat's transcript depends only on its own rows' positions. */
  lemma GapFreeDependsOnOwnRows(rows: map<MessageKey, Message>, rows': map<MessageKey, Message>, chatId: Str, next: nat)
    requires GapFree(rows, chatId, next)
    requires forall id :: MessageKey(chatId, id) in rows <==> MessageKey(chatId, id) in rows'
    requires forall id :: MessageKey(chatId, id) in rows ==>
      rows[MessageKey(chatId, id)].position == rows'[MessageKey(chatId, id)].position
    ensures GapFree(rows', chatId, next)
  {
    forall p | 1 <= p < next ensures AtPosition(rows', chatId, p) {
      assert AtPosition(rows, chatId, p);
        var id :| IsAt(rows, MessageKey(chatId, id), p);
      assert IsAt(rows', MessageKey(chatId, id), p);
    }
  }

  lemma {:induction false} InsertedIsGapFree(rows: map<MessageKey, Message>, chatId: Str, messages: seq<Value>, start: nat)
    requires GapFree(rows, chatId, start)
    requires Insertable(rows, chatId, messages)
    ensures GapFree(Insert(rows, chatId, messages, start), chatId, start + |messages|)
  {
    hide IdOf, RoleOf, GapFree;
    if messages != [] {
      var n := |messages| - 1;
      InsertedIsGapFree(rows, chatId, messages[..n], start);
      InsertedKeys(rows, chatId, messages[..n], start);
      InsertStep(rows, chatId, messages, start);
      var k := MessageKey(chatId, IdOf(messages[n]).value);
      AppendKeepsGapFree(Insert(rows, chatId, messages[..n], start), chatId, start + n, k,
        Message(start + n, RoleOf(messages[n]).value, messages[n]));
    }
  }

  // ---- Every operation keeps the invariant ----

  /** Changing one chat's rows and counter consistently is all a transcript write does. */
  lemma OneChatChanged(s: State, s': State, chatId: Str)
    requires Valid(s) && chatId in s'.chats
    requires s'.chats.Keys == s.chats.Keys + {chatId}
    requires forall c :: c in s.chats && c != chatId ==> s'.chats[c].next == s.chats[c].next
    requires forall k: MessageKey :: k.chatId != chatId ==> (k in s'.messages <==> k in s.messages)
    requires forall k: MessageKey :: k.chatId != chatId && k in s.messages ==> s'.messages[k] == s.messages[k]
    requires GapFree(s'.messages, chatId, s'.chats[chatId].next)
    requires forall k :: k in s'.messages && k.chatId == chatId ==> RowMatchesBody(k, s'.messages[k])
    ensures Valid(s')
  {
    forall c | c in s'.chats ensures GapFree(s'.messages, c, s'.chats[c].next) {
      if c != chatId {
        GapFreeDependsOnOwnRows(s.messages, s'.messages, c, s.chats[c].next);
      }
    }
  }

  lemma RewrittenKeepsRows(s: State, chatId: Str, messages: seq<Value>, finalizable: set<Str>)
    requires Valid(s)
    ensures var rows := Rewritten(s, chatId, messages, finalizable);
      forall k :: k in rows ==>
        && k in s.messages
        && rows[k].position == s.messages[k].position && rows[k].role == s.messages[k].role
        && RowMatchesBody(k, rows[k])
        && (k.chatId != chatId ==> rows[k] == s.messages[k])
  {
  }

  /** What a committed batch did to a live chat: a rewrite and, for what was missing, one reservation. */
  lemma StoredBatch(s: State, chatId: Str, messages: seq<Value>, finalizable: set<Str>, now: Time)
    returns (added: seq<Value>, rows: map<MessageKey, Message>)
    requires StoreMessages(s, chatId, messages, finalizable, now).Committed? && Live(s, chatId)
    ensures added == Missing(s, chatId, Normalised(messages))
    ensures rows == Rewritten(s, chatId, Normalised(messages), finalizable)
    ensures Insertable(rows, chatId, added)
    ensures StoreMessages(s, chatId, messages, finalizable, now).state ==
      if added == [] then s.(messages := rows)
      else s.(messages := Insert(rows, chatId, added, s.chats[chatId].next),
              chats := s.chats[chatId := Reserved(s.chats[chatId], |added|, now)])
  {
    hide IdOf, RoleOf, Deep;
    var ms := Normalised(messages);
    BatchIsAcceptedExactly(ms);
    MissingIsDistinct(s, chatId, ms);
    added := Missing(s, chatId, ms);
    rows := Rewritten(s, chatId, ms, finalizable);
    if added != [] {
      DistinctIsInsertable(rows, chatId, added);
    }
  }

  lemma InsertedRowsMatch(rows: map<MessageKey, Message>, chatId: Str, messages: seq<Value>, start: nat)
    requires Insertable(rows, chatId, messages)
    requires forall k :: k in rows && k.chatId == chatId ==> RowMatchesBody(k, rows[k])
    ensures var r := Insert(rows, chatId, messages, start);
      forall k :: k in r && k.chatId == chatId ==> RowMatchesBody(k, r[k])
  {
    hide IdOf, RoleOf, Insert;
    InsertedKeys(rows, chatId, messages, start);
    InsertedPositions(rows, chatId, messages, start);
    var r := Insert(rows, chatId, messages, start);
    forall k | k in r && k.chatId == chatId ensures RowMatchesBody(k, r[k]) {
      if k !in rows {
        var m :| m in messages && IdOf(m) == Some(k.messageId);
        var i :| 0 <= i < |messages| && messages[i] == m;
        assert PlacedAt(r, chatId, messages[i], start + i);
      }
    }
  }

  /** The rows of one chat may be replaced by rows that are as good. */
  ghost predicate RowsFit(s: State, rows: map<MessageKey, Message>, chatId: Str) {
    && rows.Keys == s.messages.Keys
    && (forall k :: k in rows && k.chatId != chatId ==> rows[k] == s.messages[k])
    && (forall k :: k in rows && k.chatId == chatId ==> RowMatchesBody(k, rows[k]))
    && (forall k :: k in rows ==> rows[k].position == s.messages[k].position)
  }

  lemma BatchIntoLiveChatKeepsValid(s: State, rows: map<MessageKey, Message>, chatId: Str, added: seq<Value>, now: Time)
    requires Valid(s) && chatId in s.chats && RowsFit(s, rows, chatId) && Insertable(rows, chatId, added)
    ensures Valid(s.(messages := rows))
    ensures Valid(s.(messages := Insert(rows, chatId, added, s.chats[chatId].next),
                     chats := s.chats[chatId := Reserved(s.chats[chatId], |added|, now)]))
  {
    hide IdOf, RoleOf, GapFree, RowMatchesBody, Insert;
    var next := s.chats[chatId].next;
    GapFreeDependsOnOwnRows(s.messages, rows, chatId, next);
    OneChatChanged(s, s.(messages := rows), chatId);
    InsertedIsGapFree(rows, chatId, added, next);
    InsertedKeys(rows, chatId, added, next);
    InsertedRowsMatch(rows, chatId, added, next);
    OneChatChanged(s, s.(messages := Insert(rows, chatId, added, next),
      chats := s.chats[chatId := Reserved(s.chats[chatId], |added|, now)]), chatId);
  }

  lemma StoreMessagesKeepsValid(s: State, chatId: Str, messages: seq<Value>, finalizable: set<Str>, now: Time)
    requires Valid(s) && StoreMessages(s, chatId, messages, finalizable, now).Committed?
    ensures Valid(StoreMessages(s, chatId, messages, finalizable, now).state)
  {
    hide IdOf, RoleOf, Deep, Valid, StoreMessages;
    if Live(s, chatId) {
      var added, rows := StoredBatch(s, chatId, messages, finalizable, now);
      RewrittenKeepsRows(s, chatId, Normalised(messages), finalizable);
      BatchIntoLiveChatKeepsValid(s, rows, chatId, added, now);
    } else {
      DeadChatStoresNothing(s, chatId, messages, finalizable, now);
    }
  }

  lemma DeadChatStoresNothing(s: State, chatId: Str, messages: seq<Value>, finalizable: set<Str>, now: Time)
    requires StoreMessages(s, chatId, messages, finalizable, now).Committed? && !Live(s, chatId)
    ensures StoreMessages(s, chatId, messages, finalizable, now).state == s
  {
  }

  lemma AppendKeepsValid(s: State, chatId: Str, message: Value, scope: Scope, now: Time)
    requires Valid(s) && AppendMessage(s, chatId, message, scope, now).Committed?
    ensures Valid(AppendMessage(s, chatId, message, scope, now).state)
  {
    var t := AppendMessage(s, chatId, message, scope, now);
    if t.result {
      var m := Deep(message);
      var chat := s.chats[chatId];
      AppendKeepsGapFree(s.messages, chatId, chat.next, MessageKey(chatId, IdOf(m).value), Message(chat.next, RoleOf(m).value, m));
      OneChatChanged(s, t.state, chatId);
    }
  }

  lemma FinalizeKeepsValid(s: State, chatId: Str, messageId: Str, expectedRole: Str, message: Value)
    requires Valid(s) && FinalizeMessage(s, chatId, messageId, expectedRole, message).Committed?
    ensures Valid(FinalizeMessage(s, chatId, messageId, expectedRole, message).state)
  {
    var t := FinalizeMessage(s, chatId, messageId, expectedRole, message);
    if t.result {
      GapFreeDependsOnOwnRows(s.messages, t.state.messages, chatId, s.chats[chatId].next);
      OneChatChanged(s, t.state, chatId);
    }
  }

  /** Transactions that touch neither transcripts nor position counters. */
  lemma SameTranscriptsKeepValid(s: State, s': State)
    requires Valid(s) && s'.messages == s.messages && s'.chats.Keys == s.chats.Keys
    requires forall c :: c in s.chats ==> s'.chats[c].next == s.chats[c].next
    ensures Valid(s')
  {
  }

  lemma CreateChatKeepsValid(s: State, chatId: Str, organizationId: Str, userId: Str, now: Time)
    requires Valid(s)
    ensures Valid(CreateChat(s, chatId, organizationId, userId, now))
  {
    hide IdOf, RoleOf;
    if chatId !in s.chats {
      assert forall id :: MessageKey(chatId, id) !in s.messages by {
        forall id ensures MessageKey(chatId, id) !in s.messages {
          assert MessageKey(chatId, id) in s.messages ==> MessageKey(chatId, id).chatId in s.chats;
        }
      }
      OneChatChanged(s, CreateChat(s, chatId, organizationId, userId, now), chatId);
    }
  }

  lemma DeleteChatsKeepsValid(s: State, ids: set<Str>)
    requires Valid(s)
    ensures Valid(DeleteChats(s, ids))
  {
    var s' := DeleteChats(s, ids);
    forall c | c in s'.chats ensures GapFree(s'.messages, c, s'.chats[c].next) {
      assert forall id :: MessageKey(c, id).chatId == c;
      GapFreeDependsOnOwnRows(s.messages, s'.messages, c, s.chats[c].next);
    }
  }
}
