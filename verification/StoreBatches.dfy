/** Batches against batches: re-sending a snapshot, growing it, and the order it keeps. */
module StoreBatches {
  import opened Text
  import opened Json
  import opened WellFormed
  import opened StoreState
  import opened StoreInvariant
  import opened StoreSteps
  import opened StoreRuns
  import opened StoreDurability
  import opened TurnSettlement

  // ---- Repeating a batch ----

  lemma MessageForIsTheOne(messages: seq<Value>, m: Value, id: Str)
    requires DistinctIds(messages) && m in messages && IdOf(m) == Some(id)
    ensures MessageFor(messages, id) == Some(m)
  {
    hide IdOf;
    DistinctIdsByIndex(messages);
    var i :| 0 <= i < |messages| && messages[i] == m;
    assert HasId(messages, id);
    var found := MessageFor(messages, id).value;
    var j :| 0 <= j < |messages| && messages[j] == found;
    assert i == j;
  }

  lemma RewritingKeepsKeys(s: State, chatId: Str, messages: seq<Value>, finalizable: set<Str>)
    ensures Rewritten(s, chatId, messages, finalizable).Keys == s.messages.Keys
  {
    hide BodyAfter;
  }

  /** A row that an insertion adds holds one of its messages. */
  lemma InsertedRowHolds(rows: map<MessageKey, Message>, chatId: Str, added: seq<Value>, start: nat, k: MessageKey)
    requires Insertable(rows, chatId, added) && k in Insert(rows, chatId, added, start) && k !in rows
    ensures var row := Insert(rows, chatId, added, start)[k];
      k.chatId == chatId && row.body in added && IdOf(row.body) == Some(k.messageId) && RoleOf(row.body) == Some(row.role)
  {
    hide IdOf, RoleOf, Insert, Insertable;
    InsertedKeys(rows, chatId, added, start);
    InsertedPositions(rows, chatId, added, start);
    var m :| m in added && IdOf(m) == Some(k.messageId);
    var i :| 0 <= i < |added| && added[i] == m;
    assert PlacedAt(Insert(rows, chatId, added, start), chatId, added[i], start + i);
  }

  /** What is stored after a batch: old rows rewritten, new rows holding the batch's messages. */
  lemma RowAfterBatch(s: State, chatId: Str, messages: seq<Value>, finalizable: set<Str>, now: Time, k: MessageKey)
    requires StoreMessages(s, chatId, messages, finalizable, now).Committed? && Live(s, chatId)
    requires k in StoreMessages(s, chatId, messages, finalizable, now).state.messages
    ensures var row := StoreMessages(s, chatId, messages, finalizable, now).state.messages[k];
      if k in s.messages then row == Rewritten(s, chatId, Normalised(messages), finalizable)[k]
      else k.chatId == chatId && row.body in Normalised(messages) && IdOf(row.body) == Some(k.messageId) && RoleOf(row.body) == Some(row.role)
  {
    hide StoreMessages, IdOf, RoleOf, Deep, Insert, Insertable, BodyAfter, Missing, Rewritten, Normalised;
    var added, rows := StoredBatch(s, chatId, messages, finalizable, now);
    RewritingKeepsKeys(s, chatId, Normalised(messages), finalizable);
    if added != [] {
      InsertedKeys(rows, chatId, added, s.chats[chatId].next);
      if k !in s.messages { InsertedRowHolds(rows, chatId, added, s.chats[chatId].next, k); }
    }
  }

  lemma CommittedBatch(s: State, chatId: Str, messages: seq<Value>, finalizable: set<Str>, now: Time)
    requires StoreMessages(s, chatId, messages, finalizable, now).Committed? && Live(s, chatId)
    ensures var ms := Normalised(messages);
      && DistinctIds(ms) && BatchError(ms).None?
      && RewritesHaveRoles(s, chatId, ms, finalizable)
      && AllHaveRoles(Missing(s, chatId, ms))
  {
    hide IdOf, RoleOf, Deep;
    BatchIsAcceptedExactly(Normalised(messages));
  }

  lemma {:induction false} NothingMissing(s: State, chatId: Str, messages: seq<Value>)
    requires forall m :: m in messages && IdOf(m).Some? ==> Stored(s, chatId, IdOf(m).value)
    ensures Missing(s, chatId, messages) == []
  {
    hide IdOf;
    if messages != [] {
      var n := |messages| - 1;
      assert messages == messages[..n] + [messages[n]];
      NothingMissing(s, chatId, messages[..n]);
    }
  }

  lemma RepeatedRewriteIsQuiet(s: State, chatId: Str, messages: seq<Value>, finalizable: set<Str>, now: Time, k: MessageKey)
    requires StoreMessages(s, chatId, messages, finalizable, now).Committed? && Live(s, chatId)
    requires k in StoreMessages(s, chatId, messages, finalizable, now).state.messages && k.chatId == chatId
    ensures var row := StoreMessages(s, chatId, messages, finalizable, now).state.messages[k];
      BodyAfter(row, k.messageId, Normalised(messages), finalizable) == row.body
  {
    hide StoreMessages, IdOf, RoleOf, Deep;
    var ms := Normalised(messages);
    RowAfterBatch(s, chatId, messages, finalizable, now, k);
    CommittedBatch(s, chatId, messages, finalizable, now);
    if k !in s.messages {
      MessageForIsTheOne(ms, StoreMessages(s, chatId, messages, finalizable, now).state.messages[k].body, k.messageId);
    }
  }

  /** Storing the first part of a batch again changes nothing at all: no row, no counter, no timestamp. */
  lemma RepeatedPartChangesNothing(s: State, chatId: Str, part: seq<Value>, rest: seq<Value>, finalizable: set<Str>, now: Time,
                                   s': State, later: Time)
    requires StoreMessages(s, chatId, part + rest, finalizable, now).Committed?
    requires s'.messages == StoreMessages(s, chatId, part + rest, finalizable, now).state.messages
    requires s'.chats == StoreMessages(s, chatId, part + rest, finalizable, now).state.chats
    ensures StoreMessages(s', chatId, part, finalizable, later) == Committed(s', ())
  {
    hide IdOf, RoleOf, Deep, BodyAfter, AllHaveRoles, Missing, Rewritten, Normalised;
    var ms := Normalised(part);
    AcceptedPart(s, chatId, part, rest, finalizable, now);
    if Live(s, chatId) {
      LiveStaysLive(s, chatId, part + rest, finalizable, now);
      PartIsStored(s, chatId, part, rest, finalizable, now, s');
      NothingMissing(s', chatId, ms);
      RepeatHasRoles(s, chatId, part, rest, finalizable, now, s');
      NothingIsRewritten(s, chatId, part, rest, finalizable, now, s');
      assert s'.(messages := s'.messages) == s';
    } else {
      DeadChatStoresNothing(s, chatId, part + rest, finalizable, now);
    }
  }

  lemma AcceptedPart(s: State, chatId: Str, part: seq<Value>, rest: seq<Value>, finalizable: set<Str>, now: Time)
    requires StoreMessages(s, chatId, part + rest, finalizable, now).Committed?
    ensures DistinctIds(Normalised(part + rest)) && DistinctIds(Normalised(part)) && BatchError(Normalised(part)).None?
    ensures forall m :: m in Normalised(part) ==> m in Normalised(part + rest)
  {
    hide IdOf, RoleOf, Deep, Missing, Rewritten, Normalised;
    NormalisedOfConcatenation(part, rest);
    BatchIsAcceptedExactly(Normalised(part + rest));
    DistinctPrefix(Normalised(part), Normalised(rest));
    BatchIsAcceptedExactly(Normalised(part));
  }

  lemma PartIsStored(s: State, chatId: Str, part: seq<Value>, rest: seq<Value>, finalizable: set<Str>, now: Time, s': State)
    requires StoreMessages(s, chatId, part + rest, finalizable, now).Committed? && Live(s, chatId)
    requires s'.messages == StoreMessages(s, chatId, part + rest, finalizable, now).state.messages
    ensures forall m :: m in Normalised(part) && IdOf(m).Some? ==> Stored(s', chatId, IdOf(m).value)
  {
    hide IdOf, Normalised, StoreMessages;
    AcceptedPart(s, chatId, part, rest, finalizable, now);
    forall m | m in Normalised(part) && IdOf(m).Some? ensures Stored(s', chatId, IdOf(m).value) {
      BatchIdsAreStored(s, chatId, part + rest, finalizable, now, m, IdOf(m).value);
    }
  }

  lemma NothingIsRewritten(s: State, chatId: Str, part: seq<Value>, rest: seq<Value>, finalizable: set<Str>, now: Time, s': State)
    requires StoreMessages(s, chatId, part + rest, finalizable, now).Committed? && Live(s, chatId)
    requires s'.messages == StoreMessages(s, chatId, part + rest, finalizable, now).state.messages
    ensures Rewritten(s', chatId, Normalised(part), finalizable) == s'.messages
  {
    hide StoreMessages, IdOf, RoleOf, Deep, Normalised;
    AcceptedPart(s, chatId, part, rest, finalizable, now);
    var ms, all := Normalised(part), Normalised(part + rest);
    forall k | k in s'.messages ensures Rewritten(s', chatId, ms, finalizable)[k] == s'.messages[k] {
      if k.chatId == chatId {
        RepeatedRewriteIsQuiet(s, chatId, part + rest, finalizable, now, k);
        var m := MessageFor(ms, k.messageId);
        if m.Some? { MessageForIsTheOne(all, m.value, k.messageId); }
      }
    }
  }

  /** Storing the same batch again changes nothing either. */
  lemma RepeatedBatchChangesNothing(s: State, chatId: Str, messages: seq<Value>, finalizable: set<Str>, now: Time, s': State, later: Time)
    requires StoreMessages(s, chatId, messages, finalizable, now).Committed?
    requires s'.messages == StoreMessages(s, chatId, messages, finalizable, now).state.messages
    requires s'.chats == StoreMessages(s, chatId, messages, finalizable, now).state.chats
    ensures StoreMessages(s', chatId, messages, finalizable, later) == Committed(s', ())
  {
    hide StoreMessages;
    assert messages + [] == messages;
    RepeatedPartChangesNothing(s, chatId, messages, [], finalizable, now, s', later);
  }

  lemma LiveStaysLive(s: State, chatId: Str, messages: seq<Value>, finalizable: set<Str>, now: Time)
    requires StoreMessages(s, chatId, messages, finalizable, now).Committed? && Live(s, chatId)
    ensures Live(StoreMessages(s, chatId, messages, finalizable, now).state, chatId)
  {
  }

  lemma RepeatHasRoles(s: State, chatId: Str, part: seq<Value>, rest: seq<Value>, finalizable: set<Str>, now: Time, s': State)
    requires StoreMessages(s, chatId, part + rest, finalizable, now).Committed? && Live(s, chatId)
    requires s'.messages == StoreMessages(s, chatId, part + rest, finalizable, now).state.messages
    ensures RewritesHaveRoles(s', chatId, Normalised(part), finalizable)
  {
    hide StoreMessages, IdOf, RoleOf, Deep, Normalised;
    var all := Normalised(part + rest);
    AcceptedPart(s, chatId, part, rest, finalizable, now);
    CommittedBatch(s, chatId, part + rest, finalizable, now);
    forall m | m in Normalised(part) && IdOf(m).Some? && IdOf(m).value in finalizable ensures RoleOf(m).Some? {
      assert m in all;
      if !Stored(s, chatId, IdOf(m).value) { assert m in Missing(s, chatId, all); }
    }
  }

  // ---- Growing a batch ----

  lemma NormalisedOfConcatenation(a: seq<Value>, b: seq<Value>)
    ensures Normalised(a + b) == Normalised(a) + Normalised(b)
  {
  }

  lemma {:induction false} DistinctPrefix(x: seq<Value>, y: seq<Value>)
    requires DistinctIds(x + y)
    ensures DistinctIds(x)
    decreases |y|
  {
    hide IdOf;
    if y == [] {
      assert x + y == x;
    } else {
      assert (x + y)[..|x + y| - 1] == x + y[..|y| - 1];
      DistinctPrefix(x, y[..|y| - 1]);
    }
  }

  lemma {:induction false} MissingOfConcatenation(s: State, chatId: Str, x: seq<Value>, y: seq<Value>)
    ensures Missing(s, chatId, x + y) == Missing(s, chatId, x) + Missing(s, chatId, y)
    decreases |y|
  {
    hide IdOf;
    if y == [] {
      assert x + y == x;
    } else {
      var n := |y| - 1;
      assert (x + y)[..|x + y| - 1] == x + y[..n];
      assert (x + y)[|x + y| - 1] == y[n];
      MissingOfConcatenation(s, chatId, x, y[..n]);
    }
  }

  lemma {:induction false} SameMissing(s: State, s': State, chatId: Str, messages: seq<Value>)
    requires forall m :: m in messages && IdOf(m).Some? ==> (Stored(s, chatId, IdOf(m).value) <==> Stored(s', chatId, IdOf(m).value))
    ensures Missing(s, chatId, messages) == Missing(s', chatId, messages)
  {
    hide IdOf;
    if messages != [] {
      var n := |messages| - 1;
      assert messages == messages[..n] + [messages[n]];
      SameMissing(s, s', chatId, messages[..n]);
    }
  }

  lemma {:induction false} InsertOfConcatenation(rows: map<MessageKey, Message>, chatId: Str, p: seq<Value>, q: seq<Value>, start: nat)
    requires Insertable(rows, chatId, p + q)
    ensures Insertable(rows, chatId, p)
    ensures Insertable(Insert(rows, chatId, p, start), chatId, q)
    ensures Insert(rows, chatId, p + q, start) == Insert(Insert(rows, chatId, p, start), chatId, q, start + |p|)
    decreases |q|
  {
    hide IdOf, RoleOf;
    if q == [] {
      assert p + q == p;
    } else {
      var n := |q| - 1;
      assert (p + q)[..|p + q| - 1] == p + q[..n] && (p + q)[|p + q| - 1] == q[n];
      InsertOfConcatenation(rows, chatId, p, q[..n], start);
      InsertedKeys(rows, chatId, p, start);
      InsertStep(rows, chatId, p + q, start);
      LastIsNewToBoth(p, q[..n], IdOf(q[n]).value);
      InsertStep(Insert(rows, chatId, p, start), chatId, q, start + |p|);
    }
  }

  lemma LastIsNewToBoth(p: seq<Value>, q: seq<Value>, id: Str)
    requires !HasId(p + q, id)
    ensures !HasId(p, id) && !HasId(q, id)
  {
    hide IdOf;
    assert forall m :: m in p ==> m in p + q;
    assert forall m :: m in q ==> m in p + q;
  }

  lemma InsertOnlyRewritesNothing(s: State, chatId: Str, messages: seq<Value>)
    ensures Rewritten(s, chatId, messages, {}) == s.messages
  {
  }

  /** What an insert-only batch does to the transcript of a live chat. */
  ghost predicate Adds(s: State, s': State, chatId: Str, added: seq<Value>) {
    && chatId in s.chats && chatId in s'.chats
    && Insertable(s.messages, chatId, added)
    && s'.messages == Insert(s.messages, chatId, added, s.chats[chatId].next)
    && s'.chats[chatId].next == s.chats[chatId].next + |added|
  }

  lemma InsertOnlyBatch(s: State, chatId: Str, messages: seq<Value>, now: Time)
    requires StoreMessages(s, chatId, messages, {}, now).Committed? && Live(s, chatId)
    ensures Adds(s, StoreMessages(s, chatId, messages, {}, now).state, chatId, Missing(s, chatId, Normalised(messages)))
  {
    hide StoreMessages, IdOf, RoleOf, Deep;
    var added, rows := StoredBatch(s, chatId, messages, {}, now);
    InsertOnlyRewritesNothing(s, chatId, Normalised(messages));
  }

  /** The same rows and the same position counter. */
  predicate SameTranscript(s: State, s': State, chatId: Str) {
    && s.messages == s'.messages
    && chatId in s.chats && chatId in s'.chats && s.chats[chatId].next == s'.chats[chatId].next
  }

  /**
    Storing is incremental: a batch stored in two steps, the second step re-sending the first,
    gives the same ids, positions and bodies as the whole batch at once.
   */
  lemma StoringIsIncremental(s: State, chatId: Str, a: seq<Value>, b: seq<Value>, now: Time, t1: Time, t2: Time)
    requires Live(s, chatId) && StoreMessages(s, chatId, a + b, {}, now).Committed?
    ensures StoreMessages(s, chatId, a, {}, t1).Committed?
    ensures var s1 := StoreMessages(s, chatId, a, {}, t1).state;
      && StoreMessages(s1, chatId, a + b, {}, t2).Committed?
      && SameTranscript(StoreMessages(s1, chatId, a + b, {}, t2).state, StoreMessages(s, chatId, a + b, {}, now).state, chatId)
  {
    hide StoreMessages, IdOf, RoleOf, Deep, Missing, Normalised, Adds, SameTranscript;
    PrefixIsStored(s, chatId, a, b, now, t1);
    SecondStepIsStored(s, chatId, a, b, now, t1, t2);
    var s1 := StoreMessages(s, chatId, a, {}, t1).state;
    var p, q := Missing(s, chatId, Normalised(a)), Missing(s, chatId, Normalised(b));
    NormalisedOfConcatenation(a, b);
    MissingOfConcatenation(s, chatId, Normalised(a), Normalised(b));
    MissingAfterPrefix(s, chatId, a, b, now, t1);
    InsertOnlyBatch(s, chatId, a + b, now);
    InsertOnlyBatch(s, chatId, a, t1);
    InsertOnlyBatch(s1, chatId, a + b, t2);
    TwoInsertsAreOne(s, s1, StoreMessages(s1, chatId, a + b, {}, t2).state,
      StoreMessages(s, chatId, a + b, {}, now).state, chatId, p, q);
  }

  lemma TwoInsertsAreOne(s: State, s1: State, s2: State, whole: State, chatId: Str, p: seq<Value>, q: seq<Value>)
    requires Adds(s, s1, chatId, p) && Adds(s1, s2, chatId, q) && Adds(s, whole, chatId, p + q)
    ensures SameTranscript(s2, whole, chatId)
  {
    hide Insert, Insertable;
    InsertOfConcatenation(s.messages, chatId, p, q, s.chats[chatId].next);
  }

  /** An insert-only batch commits exactly when its ids are distinct and what it adds is complete. */
  lemma InsertOnlyCommitsExactly(s: State, chatId: Str, messages: seq<Value>, now: Time)
    requires Live(s, chatId)
    ensures StoreMessages(s, chatId, messages, {}, now).Committed?
       <==> DistinctIds(Normalised(messages)) && AllHaveRoles(Missing(s, chatId, Normalised(messages)))
    ensures StoreMessages(s, chatId, messages, {}, now).Committed? ==> Live(StoreMessages(s, chatId, messages, {}, now).state, chatId)
  {
    hide IdOf, RoleOf, Deep, Inserted, Rewritten;
    BatchIsAcceptedExactly(Normalised(messages));
  }

  lemma PrefixIsStored(s: State, chatId: Str, a: seq<Value>, b: seq<Value>, now: Time, t1: Time)
    requires Live(s, chatId) && StoreMessages(s, chatId, a + b, {}, now).Committed?
    ensures StoreMessages(s, chatId, a, {}, t1).Committed?
    ensures Live(StoreMessages(s, chatId, a, {}, t1).state, chatId)
  {
    hide StoreMessages, IdOf, RoleOf, Deep;
    NormalisedOfConcatenation(a, b);
    InsertOnlyCommitsExactly(s, chatId, a + b, now);
    InsertOnlyCommitsExactly(s, chatId, a, t1);
    DistinctPrefix(Normalised(a), Normalised(b));
    MissingOfConcatenation(s, chatId, Normalised(a), Normalised(b));
  }

  lemma OtherHalfIsUntouched(x: seq<Value>, y: seq<Value>, m: Value)
    requires DistinctIds(x + y) && m in y && IdOf(m).Some?
    ensures !HasId(x, IdOf(m).value)
  {
    hide IdOf;
    DistinctIdsByIndex(x + y);
    var j :| 0 <= j < |y| && y[j] == m;
    assert (x + y)[|x| + j] == m;
    forall m' | m' in x ensures IdOf(m') != IdOf(m) {
      var i :| 0 <= i < |x| && x[i] == m';
      assert (x + y)[i] == m';
    }
  }

  /** After the first step only the second part is missing. */
  lemma MissingAfterPrefix(s: State, chatId: Str, a: seq<Value>, b: seq<Value>, now: Time, t1: Time)
    requires Live(s, chatId) && StoreMessages(s, chatId, a + b, {}, now).Committed?
    requires StoreMessages(s, chatId, a, {}, t1).Committed?
    ensures Missing(StoreMessages(s, chatId, a, {}, t1).state, chatId, Normalised(a + b)) == Missing(s, chatId, Normalised(b))
  {
    hide StoreMessages, IdOf, RoleOf, Deep, Insert, Insertable;
    var x, y := Normalised(a), Normalised(b);
    var s1 := StoreMessages(s, chatId, a, {}, t1).state;
    NormalisedOfConcatenation(a, b);
    CommittedBatch(s, chatId, a + b, {}, now);
    InsertOnlyBatch(s, chatId, a, t1);
    InsertedKeys(s.messages, chatId, Missing(s, chatId, x), s.chats[chatId].next);
    forall m | m in x && IdOf(m).Some? ensures Stored(s1, chatId, IdOf(m).value) {
      BatchIdsAreStored(s, chatId, a, {}, t1, m, IdOf(m).value);
    }
    NothingMissing(s1, chatId, x);
    forall m | m in y && IdOf(m).Some? ensures Stored(s, chatId, IdOf(m).value) <==> Stored(s1, chatId, IdOf(m).value) {
      OtherHalfIsUntouched(x, y, m);
    }
    SameMissing(s, s1, chatId, y);
    MissingOfConcatenation(s1, chatId, x, y);
  }

  lemma SecondStepIsStored(s: State, chatId: Str, a: seq<Value>, b: seq<Value>, now: Time, t1: Time, t2: Time)
    requires Live(s, chatId) && StoreMessages(s, chatId, a + b, {}, now).Committed?
    requires StoreMessages(s, chatId, a, {}, t1).Committed?
    ensures StoreMessages(StoreMessages(s, chatId, a, {}, t1).state, chatId, a + b, {}, t2).Committed?
  {
    hide StoreMessages, IdOf, RoleOf, Deep;
    var s1 := StoreMessages(s, chatId, a, {}, t1).state;
    PrefixIsStored(s, chatId, a, b, now, t1);
    InsertOnlyCommitsExactly(s, chatId, a + b, now);
    InsertOnlyCommitsExactly(s1, chatId, a + b, t2);
    MissingAfterPrefix(s, chatId, a, b, now, t1);
    NormalisedOfConcatenation(a, b);
    MissingOfConcatenation(s, chatId, Normalised(a), Normalised(b));
  }

  // ---- Order ----

  /** The messages a batch adds keep their order, from the chat's next position on. */
  lemma NewMessagesKeepIncomingOrder(s: State, chatId: Str, messages: seq<Value>, finalizable: set<Str>, now: Time)
    requires StoreMessages(s, chatId, messages, finalizable, now).Committed? && Live(s, chatId)
    ensures var added := Missing(s, chatId, Normalised(messages));
      var s' := StoreMessages(s, chatId, messages, finalizable, now).state;
      && (forall i :: 0 <= i < |added| ==> PlacedAt(s'.messages, chatId, added[i], s.chats[chatId].next + i))
      && s'.chats[chatId].next == s.chats[chatId].next + |added|
  {
    hide StoreMessages, IdOf, RoleOf, Deep, Insert, Insertable, PlacedAt;
    var added, rows := StoredBatch(s, chatId, messages, finalizable, now);
    if added != [] {
      InsertedPositions(rows, chatId, added, s.chats[chatId].next);
    }
  }
}
