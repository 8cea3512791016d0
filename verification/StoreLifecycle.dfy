/** A chat over a whole run: what a soft delete freezes, who may delete it, and what a hard delete ends. */
module StoreLifecycle {
  import opened Text
  import opened Json
  import opened WellFormed
  import opened StoreState
  import opened StoreInvariant
  import opened StoreRuns
  import opened StoreDurability
  import opened StoreReach
  import opened StoreSessions

  // ---- After a soft delete ----

  predicate IsDeleted(s: State, c: Str) {
    c in s.chats && s.chats[c].deletedAt.Some?
  }

  predicate Finalises(call: Call, k: MessageKey) {
    call.op.Finalize? && call.op.chatId == k.chatId && call.op.messageId == k.messageId
  }

  /** The chat's row is the same, no message came or went, and a body changed only if `rewritten` says so. */
  ghost predicate Frozen(s: State, s': State, c: Str, rewritten: MessageKey -> bool) {
    && c in s.chats && c in s'.chats && s'.chats[c] == s.chats[c]
    && (forall k :: k in s'.messages && k.chatId == c ==> k in s.messages)
    && (forall k :: k in s.messages && k.chatId == c ==>
          && k in s'.messages
          && s'.messages[k].position == s.messages[k].position && s'.messages[k].role == s.messages[k].role
          && (s'.messages[k].body == s.messages[k].body || rewritten(k)))
  }

  lemma DeletedChatStep(s: State, call: Call, c: Str)
    requires IsDeleted(s, c) && Spares(call, c)
    ensures Frozen(s, Step(s, call).state, c, k => Finalises(call, k))
  {
    hide Step;
    if Misses(s, call.op, c) {
      MissedChatIsUntouched(s, call, c);
    } else {
      FinalizeStep(s, call, c);
    }
  }

  lemma FinalizeStep(s: State, call: Call, c: Str)
    requires call.op.Finalize? && c in s.chats
    ensures Frozen(s, Step(s, call).state, c, k => Finalises(call, k))
  {
    hide IdOf, RoleOf, CreateChat, SoftDeleteChat, SoftDeleteOrganization, DeleteChats, StoreMessages, PersistTurn,
      AppendMessage, Upsert, Seed, RecordSweepAttempt, SettleInconclusive, SettleAndClose, SettleStateAndClose;
  }

  predicate SomeFinalises(calls: seq<Call>, k: MessageKey) {
    exists i :: 0 <= i < |calls| && Finalises(calls[i], k)
  }

  /**
    A soft delete is for good and freezes the transcript: over every later run that does not
    hard-delete the chat it stays deleted, at the same time, no message is added or lost, and a
    body changes only where a call finalises that very message.
   */
  lemma {:induction false} SoftDeletedChatIsFrozen(s: State, calls: seq<Call>, c: Str)
    requires IsDeleted(s, c) && AllSpare(calls, c)
    ensures Frozen(s, RunState(s, calls), c, k => SomeFinalises(calls, k))
  {
    hide Step, Spares, Finalises;
    if calls != [] {
      var n := |calls| - 1;
      SoftDeletedChatIsFrozen(s, calls[..n], c);
      DeletedChatStep(RunState(s, calls[..n]), calls[n], c);
      forall k | SomeFinalises(calls[..n], k) || Finalises(calls[n], k) ensures SomeFinalises(calls, k) {
        if SomeFinalises(calls[..n], k) {
          var i :| 0 <= i < n && Finalises(calls[..n][i], k);
          assert Finalises(calls[i], k);
        }
      }
    }
  }

  /** Finalising does not ask whether the chat is deleted: only the message rows decide what it does. */
  lemma FinalisingIgnoresDeletion(s: State, t: State, chatId: Str, messageId: Str, role: Str, message: Value)
    requires s.messages == t.messages
    ensures var a, b := FinalizeMessage(s, chatId, messageId, role, message), FinalizeMessage(t, chatId, messageId, role, message);
      && (a.Committed? <==> b.Committed?)
      && (a.Committed? ==> a.result == b.result && a.state.messages == b.state.messages)
  {
    hide IdOf, RoleOf;
  }

  // ---- While a chat is live ----

  lemma LiveChatStep(s: State, call: Call, c: Str)
    requires Live(s, c) && Spares(call, c)
    ensures var s' := Step(s, call).state;
      && c in s'.chats && s'.chats[c].userId == s.chats[c].userId && s'.chats[c].organizationId == s.chats[c].organizationId
      && (Live(s', c) <==> !Deletes(call.op, c, s.chats[c]))
  {
    hide Step;
    if Misses(s, call.op, c) {
      MissedChatIsUntouched(s, call, c);
    } else {
      TargetedChatStep(s, call, c);
    }
  }

  lemma TargetedChatStep(s: State, call: Call, c: Str)
    requires Live(s, c) && Spares(call, c) && !Misses(s, call.op, c)
    ensures var s' := Step(s, call).state;
      && c in s'.chats && s'.chats[c].userId == s.chats[c].userId && s'.chats[c].organizationId == s.chats[c].organizationId
      && (Live(s', c) <==> !Deletes(call.op, c, s.chats[c]))
  {
    hide Step;
    match call.op {
      case SoftDelete(_, _, _) => OwnersDelete(s, call, c);
      case SoftDeleteAll(_) => OwnersDelete(s, call, c);
      case _ => WriterKeepsOwner(s, call, c);
    }
  }

  lemma OwnersDelete(s: State, call: Call, c: Str)
    requires Live(s, c) && (call.op.SoftDelete? || call.op.SoftDeleteAll?) && !Misses(s, call.op, c)
    ensures var s' := Step(s, call).state;
      && c in s'.chats && s'.chats[c].userId == s.chats[c].userId && s'.chats[c].organizationId == s.chats[c].organizationId
      && !Live(s', c)
  {
    hide SettledForChat, CancelledForChat, SettledForOrganization, CreateChat, DeleteChats, StoreMessages, PersistTurn,
      FinalizeMessage, AppendMessage, Upsert, Seed, RecordSweepAttempt, SettleInconclusive, SettleAndClose, SettleStateAndClose;
  }

  predicate SomeDeletes(calls: seq<Call>, c: Str, chat: Chat) {
    exists i :: 0 <= i < |calls| && Deletes(calls[i].op, c, chat)
  }

  /**
    Only the owner's delete and the organization's end a chat: over every run that does not
    hard-delete it, a live chat keeps its owner, and is live at the end exactly when no call of
    the run was such a delete.
   */
  lemma {:induction false} OnlyItsOwnersDeleteAChat(s: State, calls: seq<Call>, c: Str)
    requires Live(s, c) && AllSpare(calls, c)
    ensures var s' := RunState(s, calls);
      && c in s'.chats && s'.chats[c].userId == s.chats[c].userId && s'.chats[c].organizationId == s.chats[c].organizationId
      && (Live(s', c) <==> !SomeDeletes(calls, c, s.chats[c]))
  {
    hide Step, Spares, Deletes;
    if calls != [] {
      var n := |calls| - 1;
      var before := RunState(s, calls[..n]);
      OnlyItsOwnersDeleteAChat(s, calls[..n], c);
      if Live(before, c) {
        LiveChatStep(before, calls[n], c);
        DeletesDependsOnOwner(calls[n].op, c, before.chats[c], s.chats[c]);
      } else {
        DeletedChatStep(before, calls[n], c);
      }
      LastDeletes(calls, c, s.chats[c]);
    }
  }

  lemma DeletesDependsOnOwner(op: Op, c: Str, chat: Chat, chat': Chat)
    requires chat.userId == chat'.userId && chat.organizationId == chat'.organizationId
    ensures Deletes(op, c, chat) <==> Deletes(op, c, chat')
  {
  }

  lemma LastDeletes(calls: seq<Call>, c: Str, chat: Chat)
    requires calls != []
    ensures SomeDeletes(calls, c, chat) <==> SomeDeletes(calls[..|calls| - 1], c, chat) || Deletes(calls[|calls| - 1].op, c, chat)
  {
    hide Deletes;
    var init := calls[..|calls| - 1];
    if SomeDeletes(init, c, chat) {
      var i :| 0 <= i < |init| && Deletes(init[i].op, c, chat);
      assert Deletes(calls[i].op, c, chat);
    }
    if SomeDeletes(calls, c, chat) && !Deletes(calls[|calls| - 1].op, c, chat) {
      var i :| 0 <= i < |calls| && Deletes(calls[i].op, c, chat);
      assert Deletes(init[i].op, c, chat);
    }
  }

  // ---- After a hard delete ----

  predicate NeverCreates(calls: seq<Call>, c: Str) {
    forall i :: 0 <= i < |calls| ==> !(calls[i].op.Create? && calls[i].op.chatId == c)
  }

  predicate NoMessages(s: State, c: Str) {
    forall k :: k in s.messages ==> k.chatId != c
  }

  lemma AbsentChatStep(s: State, call: Call, c: Str)
    requires c !in s.chats && NoMessages(s, c) && !(call.op.Create? && call.op.chatId == c)
    ensures c !in Step(s, call).state.chats && NoMessages(Step(s, call).state, c)
  {
    hide Step;
    if Misses(s, call.op, c) {
      MissedChatIsUntouched(s, call, c);
    } else {
      FinalizeOrDeleteOfAbsent(s, call, c);
    }
  }

  lemma FinalizeOrDeleteOfAbsent(s: State, call: Call, c: Str)
    requires c !in s.chats && NoMessages(s, c) && (call.op.Finalize? || call.op.HardDelete?)
    ensures c !in Step(s, call).state.chats && NoMessages(Step(s, call).state, c)
  {
    hide IdOf, RoleOf, CreateChat, SoftDeleteChat, SoftDeleteOrganization, StoreMessages, PersistTurn,
      AppendMessage, Upsert, Seed, RecordSweepAttempt, SettleInconclusive, SettleAndClose, SettleStateAndClose;
  }

  /** A turn for the chat that committed. */
  predicate TurnCommits(s: State, calls: seq<Call>, i: nat, c: Str)
    requires i < |calls|
  {
    calls[i].op.Turn? && calls[i].op.chatId == c && EventAt(s, calls, i).TurnEvent?
  }

  predicate SomeTurnCommits(s: State, calls: seq<Call>, c: Str) {
    exists i :: 0 <= i < |calls| && TurnCommits(s, calls, i, c)
  }

  /**
    After a hard delete, until the chat is created anew, no run brings back its row or a
    message; a session row comes back exactly with a committed turn, which does not ask whether
    the chat is there.
   */
  lemma HardDeletedChatStaysEmpty(s: State, ids: set<Str>, calls: seq<Call>, c: Str)
    requires Valid(s) && c in ids && NeverCreates(calls, c) && AllSpare(calls, c)
    ensures var gone := DeleteChats(s, ids); var s' := RunState(gone, calls);
      && c !in s'.chats && NoMessages(s', c)
      && (c in s'.sessions <==> SomeTurnCommits(gone, calls, c))
  {
    hide Valid, RunState;
    DeletedChatIsAbsent(s, ids, c);
    AbsentChatRun(DeleteChats(s, ids), calls, c);
  }

  lemma DeletedChatIsAbsent(s: State, ids: set<Str>, c: Str)
    requires c in ids
    ensures var gone := DeleteChats(s, ids); c !in gone.chats && c !in gone.sessions && NoMessages(gone, c)
  {
  }

  lemma {:induction false} AbsentChatRun(s: State, calls: seq<Call>, c: Str)
    requires c !in s.chats && NoMessages(s, c) && c !in s.sessions && NeverCreates(calls, c) && AllSpare(calls, c)
    ensures var s' := RunState(s, calls);
      c !in s'.chats && NoMessages(s', c) && (c in s'.sessions <==> SomeTurnCommits(s, calls, c))
  {
    hide Step, Spares;
    if calls != [] {
      var n := |calls| - 1;
      AbsentChatRun(s, calls[..n], c);
      AbsentChatStep(RunState(s, calls[..n]), calls[n], c);
      SessionStep(RunState(s, calls[..n]), calls[n], c);
      LastTurnCommits(s, calls, c);
    }
  }

  lemma LastTurnCommits(s: State, calls: seq<Call>, c: Str)
    requires calls != []
    ensures var n := |calls| - 1;
      SomeTurnCommits(s, calls, c) <==> SomeTurnCommits(s, calls[..n], c) || TurnCommits(s, calls, n, c)
  {
    hide Step;
    var n := |calls| - 1;
    var init := calls[..n];
    forall i | 0 <= i < n ensures TurnCommits(s, calls, i, c) <==> TurnCommits(s, init, i, c) {
      assert calls[..i] == init[..i];
    }
    if SomeTurnCommits(s, calls, c) && !TurnCommits(s, calls, n, c) {
      var i :| 0 <= i < |calls| && TurnCommits(s, calls, i, c);
      assert TurnCommits(s, init, i, c);
    }
    if SomeTurnCommits(s, init, c) {
      var i :| 0 <= i < n && TurnCommits(s, init, i, c);
      assert TurnCommits(s, calls, i, c);
    }
  }

  // ---- Watches of a deleted chat ----

  /** A cancelled watch owes no wake. */
  predicate CancellationsAreSilent(s: State) {
    forall w :: w in s.watches && s.watches[w].status.Cancelled? ==> s.watches[w].delivery.NotRequired?
  }

  /**
    The owner's delete leaves no watch of the chat running or owing a wake: the active ones are
    cancelled, the finished ones keep what they are, and no other chat's watch changes.
   */
  lemma SoftDeleteQuietsTheWatches(s: State, chatId: Str, userId: Str, organizationId: Str, now: Time)
    requires CancellationsAreSilent(s)
    requires Live(s, chatId) && s.chats[chatId].userId == userId && s.chats[chatId].organizationId == organizationId
    ensures var s' := SoftDeleteChat(s, chatId, userId, organizationId, now);
      && s'.watches.Keys == s.watches.Keys && CancellationsAreSilent(s')
      && (forall w :: w in s.watches && s.watches[w].chatId == chatId ==>
            s'.watches[w] == if s.watches[w].status == Active
                             then s.watches[w].(status := Cancelled, delivery := NotRequired, cancelledAt := Some(now))
                             else WithoutWake(s.watches[w]))
      && (forall w :: w in s.watches && s.watches[w].chatId != chatId ==> s'.watches[w] == s.watches[w])
  {
  }

  /** The watch with no wake owed or on its way. */
  function WithoutWake(w: Watch): (r: Watch)
    ensures r.delivery != Owed && r.delivery != Delivering && r.status == w.status
    ensures w.delivery != Owed && w.delivery != Delivering ==> r == w
  {
    w.(delivery := if w.delivery == Owed || w.delivery == Delivering then NotRequired else w.delivery)
  }

  /** The organization's delete takes the wakes off exactly its watches that are not active: it cancels none. */
  lemma OrganizationDeleteCancelsNoWatch(s: State, organizationId: Str, now: Time)
    requires CancellationsAreSilent(s)
    ensures var s' := SoftDeleteOrganization(s, organizationId, now);
      && s'.watches.Keys == s.watches.Keys && CancellationsAreSilent(s')
      && (forall w :: w in s.watches ==>
            s'.watches[w] == if s.watches[w].organizationId == organizationId && s.watches[w].status != Active
                             then WithoutWake(s.watches[w]) else s.watches[w])
  {
  }
}
