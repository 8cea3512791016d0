/** The store as the application uses it: tables updated in place, transactions that roll back. */
module TranscriptStore {
  import opened Text
  import opened Json
  import opened WellFormed
  import opened StoreState
  import opened StoreInvariant
  import opened StoreRuns
  import opened StoreBatches
  import Investigation

  datatype Reply<+T> = Ok(value: T) | Err(error: StoreError)

  /** The outcome of a transaction: committed with its result, or rolled back to where it started. */
  ghost predicate Follows<T>(before: State, after: State, r: Reply<T>, t: Tx<T>) {
    match t
    case Committed(s, v) => after == s && r == Ok(v)
    case RolledBack(e) => after == before && r == Err(e)
  }

  /** The same for work inside a transaction: after an error the tables are for the caller to restore. */
  ghost predicate FollowsInside<T>(after: State, r: Reply<T>, t: Tx<T>) {
    match t
    case Committed(s, v) => after == s && r == Ok(v)
    case RolledBack(e) => r == Err(e)
  }

  // ---- What is left of a batch while its stored ids are dropped ----

  function Keeping(messages: seq<Value>, dropped: set<Str>): (r: seq<Value>)
  {
    if messages == [] then []
    else
      var init, last := messages[..|messages| - 1], messages[|messages| - 1];
      Keeping(init, dropped) + (if IdOf(last).Some? && IdOf(last).value !in dropped then [last] else [])
  }

  lemma {:induction false} KeepingAll(messages: seq<Value>)
    requires forall m :: m in messages ==> IdOf(m).Some?
    ensures Keeping(messages, {}) == messages
  {
    hide IdOf;
    if messages != [] {
      var n := |messages| - 1;
      assert messages == messages[..n] + [messages[n]];
      KeepingAll(messages[..n]);
    }
  }

  lemma {:induction false} KeepingFewer(messages: seq<Value>, dropped: set<Str>, id: Str)
    ensures Keeping(Keeping(messages, dropped), {id}) == Keeping(messages, dropped + {id})
  {
    hide IdOf;
    if messages != [] {
      var n := |messages| - 1;
      KeepingFewer(messages[..n], dropped, id);
      var before := Keeping(messages[..n], dropped);
      if IdOf(messages[n]).Some? && IdOf(messages[n]).value !in dropped {
        assert (before + [messages[n]])[..|before|] == before;
      } else {
        assert before + [] == before;
      }
    }
  }

  lemma {:induction false} KeepingIsMissing(s: State, chatId: Str, messages: seq<Value>, dropped: set<Str>)
    requires forall m :: m in messages && IdOf(m).Some? ==> (IdOf(m).value in dropped <==> Stored(s, chatId, IdOf(m).value))
    ensures Keeping(messages, dropped) == Missing(s, chatId, messages)
  {
    hide IdOf;
    if messages != [] {
      var n := |messages| - 1;
      assert messages == messages[..n] + [messages[n]];
      KeepingIsMissing(s, chatId, messages[..n], dropped);
    }
  }

  /** The first refused message decides the whole batch. */
  lemma {:induction false} PrefixErrorDecides(messages: seq<Value>, k: nat)
    requires k <= |messages| && BatchError(messages[..k]).Some?
    ensures BatchError(messages) == BatchError(messages[..k])
    decreases |messages|
  {
    hide IdOf;
    if k == |messages| {
      assert messages[..k] == messages;
    } else {
      var init := messages[..|messages| - 1];
      assert init[..k] == messages[..k];
      PrefixErrorDecides(init, k);
    }
  }

  /** The rows while the batch's stored messages are being rewritten, one id after the other. */
  ghost predicate RewrittenSoFar(s: State, rows: map<MessageKey, Message>, chatId: Str, messages: seq<Value>,
                                 finalizable: set<Str>, dropped: set<Str>)
  {
    && rows.Keys == s.messages.Keys
    && forall k :: k in rows ==>
         rows[k] == if k.chatId == chatId && k.messageId in dropped
                    then s.messages[k].(body := BodyAfter(s.messages[k], k.messageId, messages, finalizable))
                    else s.messages[k]
  }

  lemma RewritingIsDone(s: State, rows: map<MessageKey, Message>, chatId: Str, messages: seq<Value>,
                        finalizable: set<Str>, dropped: set<Str>)
    requires RewrittenSoFar(s, rows, chatId, messages, finalizable, dropped)
    requires forall id :: id in dropped <==> Stored(s, chatId, id) && HasId(messages, id)
    ensures rows == Rewritten(s, chatId, messages, finalizable)
  {
    hide IdOf, RoleOf;
    forall k | k in rows ensures rows[k] == Rewritten(s, chatId, messages, finalizable)[k] {
      if k.chatId == chatId && k.messageId !in dropped {
        assert k == MessageKey(chatId, k.messageId);
      }
    }
  }

  class Store {
    var chats: map<Str, Chat>
    var messages: map<MessageKey, Message>
    var sessions: map<Str, Session>
    var investigations: map<Str, Inquiry>
    var evals: map<EvalKey, Time>
    var submissions: map<SubmissionKey, Time>
    var watches: map<Str, Watch>

    function View(): State
      reads this
    {
      State(chats, messages, sessions, investigations, evals, submissions, watches)
    }

    constructor ()
      ensures View() == EMPTY && Valid(View())
    {
      chats, messages, sessions := map[], map[], map[];
      investigations, evals, submissions, watches := map[], map[], map[], map[];
    }

    /** Rolling back: every table as it was. */
    method Restore(s: State)
      modifies this
      ensures View() == s
    {
      chats, messages, sessions := s.chats, s.messages, s.sessions;
      investigations, evals, submissions, watches := s.investigations, s.evals, s.submissions, s.watches;
    }

    // ---- Transcripts ----

    /** Reserve `count` positions on a live chat; the first of them, or None. */
    method ReserveMessagePositions(chatId: Str, count: nat, now: Time) returns (start: Option<nat>)
      modifies this`chats
      ensures Live(old(View()), chatId) ==>
        && start == Some(old(chats)[chatId].next)
        && chats == old(chats)[chatId := Reserved(old(chats)[chatId], count, now)]
      ensures !Live(old(View()), chatId) ==> start == None && chats == old(chats)
    {
      if chatId in chats && chats[chatId].deletedAt.None? {
        chats := chats[chatId := Reserved(chats[chatId], count, now)];
        start := Some(chats[chatId].next - count);
      } else {
        start := None;
      }
    }

    /** Rewrite one stored message's body in place. */
    method FinalizeChatMessage(chatId: Str, messageId: Str, expectedRole: Str, message: Value) returns (r: Reply<bool>)
      modifies this`messages
      ensures Follows(old(View()), View(), r, FinalizeMessage(old(View()), chatId, messageId, expectedRole, message))
    {
      var role := RoleOf(message);
      if role.None? { return Err(NoRole); }
      if role.value != expectedRole { return Err(RoleMismatch); }
      var bodyId := IdOf(message);
      if bodyId.None? { return Err(NoId); }
      if bodyId.value != messageId { return Err(IdMismatch); }
      var k := MessageKey(chatId, messageId);
      if k in messages && messages[k].role == expectedRole {
        messages := messages[k := messages[k].(body := message)];
        return Ok(true);
      }
      r := Ok(false);
    }

    /** The batch's messages in order, each with an id of its own. */
    method Dedupe(batch: seq<Value>) returns (r: Reply<seq<Value>>)
      ensures r == match BatchError(batch) { case Some(e) => Err(e) case None => Ok(batch) }
    {
      var deduped: seq<Value> := [];
      for i := 0 to |batch|
        invariant deduped == batch[..i]
        invariant BatchError(batch[..i]).None?
      {
        var id := IdOf(batch[i]);
        assert batch[..i + 1][..i] == batch[..i];
        if id.None? { PrefixErrorDecides(batch, i + 1); return Err(NoId); }
        if HasId(deduped, id.value) { PrefixErrorDecides(batch, i + 1); return Err(DuplicateId); }
        deduped := deduped + [batch[i]];
      }
      assert batch[..|batch|] == batch;
      r := Ok(deduped);
    }

    /** Rewrite the stored row of one batch message, where the batch may. */
    method RewriteStored(chatId: Str, id: Str, message: Value, batch: seq<Value>, finalizable: set<Str>) returns (r: Reply<()>)
      requires MessageKey(chatId, id) in messages && IdOf(message) == Some(id) && MessageFor(batch, id) == Some(message)
      modifies this`messages
      ensures id in finalizable && RoleOf(message).None? ==> r == Err(NoRole)
      ensures !(id in finalizable && RoleOf(message).None?) ==>
        && r == Ok(())
        && var k := MessageKey(chatId, id);
           messages == old(messages)[k := old(messages)[k].(body := BodyAfter(old(messages)[k], id, batch, finalizable))]
    {
      hide IdOf, RoleOf;
      if id in finalizable {
        if RoleOf(message).None? { return Err(NoRole); }
        var done := FinalizeChatMessage(chatId, id, RoleOf(message).value, message);
      }
      r := Ok(());
    }

    /** Drop what the chat already stores from the batch, rewriting what may be rewritten. */
    method DropStored(chatId: Str, batch: seq<Value>, finalizable: set<Str>) returns (r: Reply<seq<Value>>)
      requires DistinctIds(batch)
      modifies this`messages
      ensures RewritesHaveRoles(old(View()), chatId, batch, finalizable) ==>
        r == Ok(Missing(old(View()), chatId, batch)) && messages == Rewritten(old(View()), chatId, batch, finalizable)
      ensures !RewritesHaveRoles(old(View()), chatId, batch, finalizable) ==> r == Err(NoRole)
    {
      hide IdOf, RoleOf, BodyAfter, DistinctIds, Rewritten, Missing;
      ghost var s := View();
      var todo := set k | k in messages && k.chatId == chatId && HasId(batch, k.messageId) :: k.messageId;
      var dropped: set<Str> := {};
      var deduped := batch;
      BatchHasIds(batch);
      KeepingAll(batch);
      StoredIds(s, chatId, batch, todo);
      while todo != {}
        invariant todo !! dropped
        invariant forall id :: id in todo + dropped <==> Stored(s, chatId, id) && HasId(batch, id)
        invariant deduped == Keeping(batch, dropped)
        invariant RewrittenSoFar(s, messages, chatId, batch, finalizable, dropped)
        invariant forall id :: id in dropped && id in finalizable ==> HasId(batch, id) && RoleOf(MessageFor(batch, id).value).Some?
        decreases todo
      {
        var id :| id in todo;
        assert Stored(s, chatId, id) && HasId(batch, id);
        var message := MessageFor(batch, id).value;
        KeepingFewer(batch, dropped, id);
        deduped := Keeping(deduped, {id});
        ghost var rows := messages;
        var rewritten := RewriteStored(chatId, id, message, batch, finalizable);
        if rewritten.Err? { return Err(NoRole); }
        OneMoreRewritten(s, rows, messages, chatId, batch, finalizable, dropped, id);
        todo, dropped := todo - {id}, dropped + {id};
      }
      RewritingIsDone(s, messages, chatId, batch, finalizable, dropped);
      DroppedIsStored(s, chatId, batch, dropped, finalizable);
      r := Ok(deduped);
    }

    /** The unique constraint on a chat's positions would let this row in. */
    ghost predicate PositionIsFree(chatId: Str, position: nat)
      reads this`messages
    {
      forall k :: k in messages && k.chatId == chatId ==> messages[k].position != position
    }

    /** `insert ... on conflict (chat_id, message_id) do nothing`; the position must be free, or the insert would fail. */
    method InsertMessage(k: MessageKey, row: Message) returns (inserted: bool)
      requires PositionIsFree(k.chatId, row.position)
      modifies this`messages
      ensures inserted == (k !in old(messages))
      ensures messages == if inserted then old(messages)[k := row] else old(messages)
    {
      inserted := k !in messages;
      if inserted { messages := messages[k := row]; }
    }

    /** Insert the missing messages at the positions reserved for them; no insert can clash. */
    method InsertMessages(chatId: Str, added: seq<Value>, start: nat) returns (r: Reply<()>)
      requires DistinctIds(added) && GapFree(messages, chatId, start)
      requires forall m :: m in added ==> IdOf(m).Some? && MessageKey(chatId, IdOf(m).value) !in messages
      modifies this`messages
      ensures AllHaveRoles(added) ==> r == Ok(()) && Insertable(old(messages), chatId, added) && messages == Insert(old(messages), chatId, added, start)
      ensures !AllHaveRoles(added) ==> r == Err(NoRole)
    {
      hide IdOf, RoleOf, GapFree, Insert, Insertable;
      for i := 0 to |added|
        invariant AllHaveRoles(added[..i])
      {
        assert added[i] in added;
        if RoleOf(added[i]).None? { return Err(NoRole); }
        assert added[..i + 1] == added[..i] + [added[i]];
      }
      assert added[..|added|] == added;
      DistinctIsInsertable(messages, chatId, added);
      ghost var rows := messages;
      NothingInserted(rows, chatId, added, start);
      for i := 0 to |added|
        invariant Insertable(rows, chatId, added[..i])
        invariant messages == Insert(rows, chatId, added[..i], start)
      {
        InsertablePart(rows, chatId, added, i + 1);
        assert added[..i + 1][..i] == added[..i];
        InsertStep(rows, chatId, added[..i + 1], start);
        InsertedIsGapFree(rows, chatId, added[..i], start);
        NextPositionIsFree(messages, chatId, start + i);
        LastKeyIsNew(rows, chatId, added[..i + 1], start);
        assert added[i] in added;
        var inserted := InsertMessage(MessageKey(chatId, IdOf(added[i]).value), Message(start + i, RoleOf(added[i]).value, added[i]));
      }
      r := Ok(());
    }

    /** `storeChatMessages`, inside the caller's transaction. */
    method StoreChatMessages(chatId: Str, batch: seq<Value>, finalizable: set<Str>, now: Time) returns (r: Reply<()>)
      requires Valid(View())
      modifies this`messages, this`chats
      ensures FollowsInside(View(), r, StoreMessages(old(View()), chatId, batch, finalizable, now))
    {
      hide IdOf, RoleOf, Deep, BatchError, Missing, Rewritten, Valid, Normalised;
      ghost var s := View();
      var normalised := Normalised(batch);
      var deduped := Dedupe(normalised);
      if deduped.Err? { return Err(deduped.error); }
      BatchIsAcceptedExactly(normalised);
      if |deduped.value| == 0 { EmptyBatch(s, chatId, batch, finalizable, now); return Ok(()); }
      if !(chatId in chats && chats[chatId].deletedAt.None?) { return Ok(()); }
      var left := DropStored(chatId, normalised, finalizable);
      if left.Err? { return Err(NoRole); }
      assert left.value == Missing(s, chatId, normalised);
      if |left.value| == 0 { return Ok(()); }
      var start := ReserveMessagePositions(chatId, |left.value|, now);
      ReadyToInsert(s, chatId, normalised, finalizable);
      var inserted := InsertMessages(chatId, left.value, start.value);
      if inserted.Err? { return Err(NoRole); }
      InsertableMembers(Rewritten(s, chatId, normalised, finalizable), chatId, left.value);
      r := Ok(());
    }

    /** `persistMessages`: one batch, one transaction. */
    method PersistMessages(chatId: Str, batch: seq<Value>, now: Time) returns (r: Reply<()>)
      requires Valid(View())
      modifies this
      ensures Valid(View())
      ensures Follows(old(View()), View(), r, StoreMessages(old(View()), chatId, batch, {}, now))
    {
      hide StoreMessages, Valid;
      var before := View();
      r := StoreChatMessages(chatId, batch, {}, now);
      if r.Err? { Restore(before); }
      if r.Ok? { StoreMessagesKeepsValid(before, chatId, batch, {}, now); }
    }

    /** `appendOneMessage`: reserve and insert in one statement. */
    method AppendOneMessage(chatId: Str, message: Value, scope: Scope, now: Time) returns (r: Reply<bool>)
      requires Valid(View())
      modifies this`messages, this`chats
      ensures Follows(old(View()), View(), r, AppendMessage(old(View()), chatId, message, scope, now))
      ensures Valid(View())
    {
      hide IdOf, RoleOf, Deep, Valid, AppendMessage;
      ghost var s := View();
      var normalised := Deep(message);
      AppendCases(s, chatId, message, scope, now);
      var id := IdOf(normalised);
      if id.None? { return Err(NoId); }
      var role := RoleOf(normalised);
      if role.None? { return Err(NoRole); }
      var k := MessageKey(chatId, id.value);
      var start: Option<nat> := None;
      if chatId in chats && InScope(chats[chatId], scope) && k !in messages {
        start := ReserveMessagePositions(chatId, 1, now);
      }
      if start.None? { return Ok(false); }
      LiveChatIsGapFree(s, chatId);
      NextPositionIsFree(messages, chatId, start.value);
      var inserted := InsertMessage(k, Message(start.value, role.value, normalised));
      AppendKeepsValid(s, chatId, message, scope, now);
      r := Ok(inserted);
    }

    // ---- Chats ----

    method CreateChatRow(chatId: Str, organizationId: Str, userId: Str, now: Time)
      requires Valid(View())
      modifies this`chats
      ensures View() == CreateChat(old(View()), chatId, organizationId, userId, now)
      ensures Valid(View())
    {
      CreateChatKeepsValid(View(), chatId, organizationId, userId, now);
      if chatId !in chats {
        chats := chats[chatId := Chat(organizationId, userId, 1, None, now, None)];
      }
    }

    /** `softDeleteChat`: an already deleted chat keeps its deletion time; the ids of the watches it cancels are returned. */
    method SoftDeleteOne(chatId: Str, userId: Str, organizationId: Str, now: Time) returns (deleted: bool, cancelled: set<Str>)
      modifies this`chats, this`watches
      ensures View() == SoftDeleteChat(old(View()), chatId, userId, organizationId, now)
      ensures deleted <==> Live(old(View()), chatId) && !Live(View(), chatId)
      ensures cancelled == set w | w in old(watches) && old(watches)[w].status.Active? && !watches[w].status.Active?
    {
      deleted := chatId in chats && chats[chatId].userId == userId && chats[chatId].organizationId == organizationId
                 && chats[chatId].deletedAt.None?;
      cancelled := {};
      if deleted {
        chats := chats[chatId := chats[chatId].(deletedAt := Some(now), updatedAt := now)];
        cancelled := set w | w in watches && watches[w].chatId == chatId && watches[w].status.Active?;
        watches := CancelledForChat(watches, chatId, now);
        watches := SettledForChat(watches, chatId);
      }
    }

    /** `softDeleteChatsForOrganization`: every live chat of the organization, nobody else's, and the wakes it is owed. */
    method SoftDeleteChatsForOrganization(organizationId: Str, now: Time) returns (deleted: nat)
      modifies this`chats, this`watches
      ensures View() == SoftDeleteOrganization(old(View()), organizationId, now)
      ensures forall c :: Live(View(), c) <==> Live(old(View()), c) && old(chats)[c].organizationId != organizationId
      ensures deleted == |set c | c in old(chats) && Live(old(View()), c) && !Live(View(), c)|
    {
      var before := chats;
      var ids := set c | c in before && before[c].organizationId == organizationId && before[c].deletedAt.None?;
      chats := map c | c in before :: if c in ids then before[c].(deletedAt := Some(now), updatedAt := now) else before[c];
      watches := SettledForOrganization(watches, organizationId);
      assert chats == SoftDeleteOrganization(old(View()), organizationId, now).chats;
      assert ids == set c | c in old(chats) && Live(old(View()), c) && !Live(View(), c);
      deleted := |ids|;
    }

    /** `deleteChatsByIds`: children first, chats last. */
    method DeleteChatsByIds(ids: set<Str>) returns (deleted: set<Str>)
      requires Valid(View())
      modifies this
      ensures View() == DeleteChats(old(View()), ids)
      ensures Valid(View())
      ensures deleted == old(chats).Keys * ids
    {
      hide Valid;
      ghost var s := View();
      DeleteChatsKeepsValid(s, ids);
      messages := MessagesWithout(messages, ids);
      sessions := sessions - ids;
      evals := EvalsWithout(evals, ids);
      investigations := InquiriesWithout(investigations, ids);
      submissions := SubmissionsWithout(submissions, ids);
      watches := WatchesWithout(watches, ids);
      deleted := chats.Keys * ids;
      chats := chats - ids;
    }

    // ---- Investigations ----

    method UpsertInvestigationRevision(id: Str, chatId: Str, projectRef: Str, environmentRef: Str, state: Value, freshId: Str, now: Time)
      returns (r: Reply<UpsertResult>)
      modifies this`investigations
      ensures Follows(old(View()), View(), r, Upsert(old(View()), id, chatId, projectRef, environmentRef, state, freshId, now))
    {
      hide Deep;
      var normalised := Deep(state);
      if id == [] {
        if freshId in investigations { return Err(KeyTaken); }
        investigations := investigations[freshId := Inquiry(chatId, projectRef, environmentRef, 0, normalised, 0, None, now)];
        return Ok(Upserted(freshId, 0, true));
      }
      if id in investigations && InContext(investigations[id], chatId, projectRef, environmentRef) {
        var row := investigations[id];
        investigations := investigations[id := row.(state := normalised, revision := row.revision + 1, updatedAt := now)];
        return Ok(Upserted(id, investigations[id].revision, false));
      }
      r := Ok(Refused(if id in investigations then ContextMismatch else NotFound));
    }

    method SeedInvestigation(id: Str, chatId: Str, projectRef: Str, environmentRef: Str, state: Value, now: Time)
      returns (r: Reply<SeedResult>)
      modifies this`investigations
      ensures Follows(old(View()), View(), r, Seed(old(View()), id, chatId, projectRef, environmentRef, state, now))
    {
      hide Deep;
      if id !in investigations {
        investigations := investigations[id := Inquiry(chatId, projectRef, environmentRef, 0, Deep(state), 0, None, now)];
        return Ok(Seeded(true));
      }
      if !InContext(investigations[id], chatId, projectRef, environmentRef) { return Ok(SeedRefused); }
      r := Ok(Seeded(false));
    }

    method RecordInvestigationSweepAttempt(id: Str, now: Time) returns (r: Reply<Option<nat>>)
      modifies this`investigations
      ensures Follows(old(View()), View(), r, RecordSweepAttempt(old(View()), id, now))
    {
      if id in investigations && Investigation.IsInProgress(investigations[id].state) {
        var row := investigations[id];
        investigations := investigations[id := row.(sweepAttempts := row.sweepAttempts + 1, lastSweepAttemptAt := Some(now))];
        return Ok(Some(row.sweepAttempts + 1));
      }
      r := Ok(None);
    }

    method SettleInvestigationAsInconclusive(id: Str, note: Str, otherText: Str, now: Time) returns (r: Reply<Option<Settled>>)
      modifies this`investigations
      ensures Follows(old(View()), View(), r, SettleInconclusive(old(View()), id, note, otherText, now))
    {
      hide Investigation.SqlSettled;
      if id in investigations && Investigation.IsInProgress(investigations[id].state) {
        var row := investigations[id];
        var state := Object(Investigation.SqlSettled(Fields(row.state), note, otherText));
        investigations := investigations[id := row.(state := state, revision := row.revision + 1, updatedAt := now)];
        return Ok(Some(Settled(id, row.revision + 1, state)));
      }
      r := Ok(None);
    }

    /** The stale sweep's settle: row and card together, or neither. */
    method SettleInvestigationAndCloseCard(id: Str, chatId: Str, note: Str, otherText: Str, now: Time)
      returns (r: Reply<Option<SettledCard>>)
      requires Valid(View())
      modifies this
      ensures Follows(old(View()), View(), r, SettleAndClose(old(View()), id, chatId, note, otherText, now))
      ensures Valid(View())
    {
      hide SettleInconclusive, AppendMessage, Investigation.SettlementMessage, Valid;
      var before := View();
      SettleInconclusiveNeverFails(before, id, note, otherText, now);
      SettleInconclusiveKeepsTranscripts(before, id, note, otherText, now);
      var settled := SettleInvestigationAsInconclusive(id, note, otherText, now);
      if settled.value.None? { return Ok(None); }
      var st := settled.value.value;
      SameTranscriptsKeepValid(before, View());
      var message := Investigation.SettlementMessage(st.id, st.revision, st.state, None);
      if message.None? { Restore(before); return Err(NotRenderable); }
      var closed := AppendOneMessage(chatId, message.value, AnyOwner, now);
      if closed.Err? { Restore(before); return Err(closed.error); }
      r := Ok(Some(SettledCard(st, closed.value)));
    }

    /** The caller's own terminal state: refused, already there, or closed with one new revision. */
    method SettleInvestigationStateAndCloseCard(id: Str, chatId: Str, projectRef: Str, environmentRef: Str,
                                                state: Value, messageId: Str, freshId: Str, now: Time)
      returns (r: Reply<CloseResult>)
      requires Valid(View())
      modifies this
      ensures Follows(old(View()), View(), r,
                      SettleStateAndClose(old(View()), id, chatId, projectRef, environmentRef, state, messageId, freshId, now))
      ensures Valid(View())
    {
      hide Upsert, AppendMessage, Investigation.SettlementMessage, Valid;
      var before := View();
      if id !in investigations { return Ok(CloseRefused(NotFound)); }
      var investigation := investigations[id];
      if !InContext(investigation, chatId, projectRef, environmentRef) { return Ok(CloseRefused(ContextMismatch)); }
      if !(chatId in chats && chats[chatId].deletedAt.None?) { return Ok(CloseRefused(ChatMissing)); }
      var k := MessageKey(chatId, messageId);
      if k in messages { return Ok(Closed(id, investigation.revision, messages[k].body, false)); }
      var result := UpsertInvestigationRevision(id, chatId, projectRef, environmentRef, state, freshId, now);
      if result.Err? { Restore(before); return Err(result.error); }
      if result.value.Refused? {
        UpsertRefusalChangesNothing(before, id, chatId, projectRef, environmentRef, state, freshId, now);
        return Ok(CloseRefused(result.value.refusal));
      }
      UpsertKeepsTranscripts(before, id, chatId, projectRef, environmentRef, state, freshId, now);
      SameTranscriptsKeepValid(before, View());
      var card := Investigation.SettlementMessage(result.value.id, result.value.revision, state, Some(messageId));
      if card.None? { Restore(before); return Err(NotRenderable); }
      var closed := AppendOneMessage(chatId, card.value, AnyOwner, now);
      if closed.Err? { Restore(before); return Err(closed.error); }
      if !closed.value { Restore(before); return Err(CardNotAppended); }
      r := Ok(Closed(result.value.id, result.value.revision, card.value, true));
    }

    /** The settlements of a turn, inside its transaction. */
    method SettleAllPending(chatId: Str, pending: seq<Pending>, now: Time) returns (r: Reply<TurnSettlements>)
      modifies this`investigations
      ensures FollowsInside(View(), r, SettlePending(old(View()), chatId, pending, now))
    {
      hide Upsert, Investigation.SettlementMessage;
      ghost var s := View();
      var settled: seq<Settled> := [];
      var cards: seq<Value> := [];
      for i := 0 to |pending|
        invariant SettlePending(s, chatId, pending[..i], now) == Committed(View(), TurnSettlements(settled, cards))
      {
        var p := pending[i];
        assert pending[..i + 1][..i] == pending[..i];
        ghost var before := View();
        var result := UpsertInvestigationRevision(p.id, chatId, p.projectRef, p.environmentRef, p.state, p.freshId, now);
        if result.Err? { PendingErrorDecides(s, chatId, pending, i + 1, now); return Err(result.error); }
        if result.value.Refused? {
          UpsertRefusalChangesNothing(before, p.id, chatId, p.projectRef, p.environmentRef, p.state, p.freshId, now);
          continue;
        }
        var message := Investigation.SettlementMessage(result.value.id, result.value.revision, p.state, None);
        if message.None? { PendingErrorDecides(s, chatId, pending, i + 1, now); return Err(NotRenderable); }
        settled := settled + [Settled(result.value.id, result.value.revision, p.state)];
        cards := cards + [message.value];
      }
      assert pending[..|pending|] == pending;
      r := Ok(TurnSettlements(settled, cards));
    }

    /** `persistTurn`: settlements, transcript and session in one transaction. */
    method PersistWholeTurn(chatId: Str, batch: seq<Value>, session: Session, pending: seq<Pending>, finalizeIds: set<Str>, now: Time)
      returns (r: Reply<seq<Settled>>)
      requires Valid(View())
      modifies this
      ensures Follows(old(View()), View(), r, PersistTurn(old(View()), chatId, batch, session, pending, finalizeIds, now))
      ensures Valid(View())
    {
      hide SettlePending, StoreMessages, Valid, NewCards, RawIds;
      var before := View();
      var settlements := SettleAllPending(chatId, pending, now);
      if settlements.Err? { Restore(before); return Err(settlements.error); }
      if Null in batch { Restore(before); return Err(NullMessage); }
      ghost var s := View();
      PendingKeepsTranscripts(before, chatId, pending, now);
      SameTranscriptsKeepValid(before, s);
      var all := batch + NewCards(settlements.value.cards, RawIds(batch));
      var stored := StoreChatMessages(chatId, all, Finalizable(finalizeIds), now);
      if stored.Err? { Restore(before); return Err(stored.error); }
      StoreMessagesKeepsValid(s, chatId, all, Finalizable(finalizeIds), now);
      ghost var s' := View();
      sessions := sessions[chatId := session];
      SameTranscriptsKeepValid(s', View());
      r := Ok(settlements.value.settled);
    }
  }

  /** The members of a state that is an object. */
  function Fields(state: Value): seq<Field> {
    if state.Object? then state.fields else []
  }

  /** The first settlement that fails decides the whole turn. */
  lemma {:induction false} PendingErrorDecides(s: State, chatId: Str, pending: seq<Pending>, k: nat, now: Time)
    requires k <= |pending| && SettlePending(s, chatId, pending[..k], now).RolledBack?
    ensures SettlePending(s, chatId, pending, now) == RolledBack(SettlePending(s, chatId, pending[..k], now).error)
    decreases |pending|
  {
    hide SettleOne;
    if k == |pending| {
      assert pending[..k] == pending;
    } else {
      var init := pending[..|pending| - 1];
      assert init[..k] == pending[..k];
      PendingErrorDecides(s, chatId, init, k, now);
    }
  }

  /** When an append is refused, when it writes nothing, and what it writes otherwise. */
  lemma AppendCases(s: State, chatId: Str, message: Value, scope: Scope, now: Time)
    ensures var m, t := Deep(message), AppendMessage(s, chatId, message, scope, now);
      && (IdOf(m).None? ==> t == RolledBack(NoId))
      && (IdOf(m).Some? && RoleOf(m).None? ==> t == RolledBack(NoRole))
      && (Writable(m) ==>
            var k := MessageKey(chatId, IdOf(m).value);
            if Live(s, chatId) && InScope(s.chats[chatId], scope) && k !in s.messages then
              t == Committed(s.(
                messages := s.messages[k := Message(s.chats[chatId].next, RoleOf(m).value, m)],
                chats := s.chats[chatId := Reserved(s.chats[chatId], 1, now)]), true)
            else t == Committed(s, false))
  {
    hide IdOf, RoleOf, Deep, InScope;
  }

  lemma LiveChatIsGapFree(s: State, chatId: Str)
    requires Valid(s) && chatId in s.chats
    ensures GapFree(s.messages, chatId, s.chats[chatId].next)
  {
  }

  lemma NothingInserted(rows: map<MessageKey, Message>, chatId: Str, added: seq<Value>, start: nat)
    ensures Insertable(rows, chatId, added[..0]) && Insert(rows, chatId, added[..0], start) == rows
  {
  }

  lemma NextPositionIsFree(rows: map<MessageKey, Message>, chatId: Str, next: nat)
    requires GapFree(rows, chatId, next)
    ensures forall k :: k in rows && k.chatId == chatId ==> rows[k].position != next
  {
    forall k | k in rows && k.chatId == chatId ensures rows[k].position != next {
      assert k == MessageKey(chatId, k.messageId);
    }
  }

  lemma LastKeyIsNew(rows: map<MessageKey, Message>, chatId: Str, messages: seq<Value>, start: nat)
    requires Insertable(rows, chatId, messages) && messages != []
    ensures var n := |messages| - 1;
      IdOf(messages[n]).Some? && MessageKey(chatId, IdOf(messages[n]).value) !in Insert(rows, chatId, messages[..n], start)
  {
    hide IdOf, RoleOf, Insert;
    InsertedKeys(rows, chatId, messages[..|messages| - 1], start);
  }

  lemma EmptyBatch(s: State, chatId: Str, batch: seq<Value>, finalizable: set<Str>, now: Time)
    requires Normalised(batch) == []
    ensures StoreMessages(s, chatId, batch, finalizable, now) == Committed(s, ())
  {
    assert Rewritten(s, chatId, [], finalizable) == s.messages;
    assert s.(messages := s.messages) == s;
  }

  /** After the rewrite, what is missing can be inserted from the chat's next position on. */
  lemma ReadyToInsert(s: State, chatId: Str, batch: seq<Value>, finalizable: set<Str>)
    requires Valid(s) && chatId in s.chats && DistinctIds(batch)
    ensures DistinctIds(Missing(s, chatId, batch))
    ensures GapFree(Rewritten(s, chatId, batch, finalizable), chatId, s.chats[chatId].next)
    ensures forall m :: m in Missing(s, chatId, batch) ==>
      IdOf(m).Some? && MessageKey(chatId, IdOf(m).value) !in Rewritten(s, chatId, batch, finalizable)
  {
    hide IdOf, RoleOf;
    MissingIsDistinct(s, chatId, batch);
    GapFreeDependsOnOwnRows(s.messages, Rewritten(s, chatId, batch, finalizable), chatId, s.chats[chatId].next);
  }

  lemma StoredIds(s: State, chatId: Str, batch: seq<Value>, ids: set<Str>)
    requires ids == set k | k in s.messages && k.chatId == chatId && HasId(batch, k.messageId) :: k.messageId
    ensures forall id :: id in ids <==> Stored(s, chatId, id) && HasId(batch, id)
  {
    hide IdOf;
    forall id ensures id in ids <==> Stored(s, chatId, id) && HasId(batch, id) {
      if Stored(s, chatId, id) && HasId(batch, id) {
        assert MessageKey(chatId, id).messageId in ids;
      }
    }
  }

  lemma OneMoreRewritten(s: State, rows: map<MessageKey, Message>, rows': map<MessageKey, Message>, chatId: Str,
                         messages: seq<Value>, finalizable: set<Str>, dropped: set<Str>, id: Str)
    requires RewrittenSoFar(s, rows, chatId, messages, finalizable, dropped) && id !in dropped
    requires Stored(s, chatId, id)
    requires var k := MessageKey(chatId, id);
      rows' == rows[k := rows[k].(body := BodyAfter(rows[k], id, messages, finalizable))]
    ensures RewrittenSoFar(s, rows', chatId, messages, finalizable, dropped + {id})
  {
    hide BodyAfter;
    assert rows[MessageKey(chatId, id)] == s.messages[MessageKey(chatId, id)];
  }

  lemma BatchHasIds(batch: seq<Value>)
    requires DistinctIds(batch)
    ensures forall m :: m in batch ==> IdOf(m).Some?
  {
    hide IdOf;
    DistinctIdsByIndex(batch);
  }

  lemma DroppedIsStored(s: State, chatId: Str, batch: seq<Value>, dropped: set<Str>, finalizable: set<Str>)
    requires DistinctIds(batch)
    requires forall id :: id in dropped <==> Stored(s, chatId, id) && HasId(batch, id)
    requires forall id :: id in dropped && id in finalizable ==> RoleOf(MessageFor(batch, id).value).Some?
    ensures Keeping(batch, dropped) == Missing(s, chatId, batch)
    ensures RewritesHaveRoles(s, chatId, batch, finalizable)
  {
    hide IdOf, RoleOf;
    forall m | m in batch && IdOf(m).Some? ensures IdOf(m).value in dropped <==> Stored(s, chatId, IdOf(m).value) {
      assert HasId(batch, IdOf(m).value);
    }
    KeepingIsMissing(s, chatId, batch, dropped);
    forall m | m in batch && IdOf(m).Some? && Stored(s, chatId, IdOf(m).value) && IdOf(m).value in finalizable
      ensures RoleOf(m).Some?
    {
      MessageForIsTheOne(batch, m, IdOf(m).value);
    }
  }
}
