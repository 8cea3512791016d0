/** The atomic writes are the step model run without interruption. */
module AllocatorRefinement {
  import opened Text
  import opened Json
  import opened WellFormed
  import opened StoreState
  import opened StoreInvariant
  import opened StoreBatches
  import A = PositionAllocator

  function Positions(rows: map<MessageKey, Message>): map<MessageKey, nat> {
    map k | k in rows :: rows[k].position
  }

  function Counters(chats: map<Str, Chat>): map<Str, A.ChatRow> {
    map c | c in chats :: A.ChatRow(chats[c].next, chats[c].deletedAt.None?)
  }

  /** The step model's tables for a store nobody is writing to. */
  function View(s: State): A.Table {
    A.Table(Counters(s.chats), Positions(s.messages), map[], map[])
  }

  predicate SameTables(t: A.Table, s: State) {
    t.chats == Counters(s.chats) && t.rows == Positions(s.messages)
  }

  function IdsOf(messages: seq<Value>): (r: seq<Str>)
    requires forall m :: m in messages ==> IdOf(m).Some?
    ensures |r| == |messages|
    ensures forall i :: 0 <= i < |r| ==> IdOf(messages[i]) == Some(r[i])
  {
    seq(|messages|, i requires 0 <= i < |messages| => assert messages[i] in messages; IdOf(messages[i]).value)
  }

  lemma IdsOfAccepted(messages: seq<Value>)
    requires DistinctIds(messages)
    ensures forall m :: m in messages ==> IdOf(m).Some?
    ensures A.Distinct(IdsOf(messages))
  {
    hide IdOf;
    DistinctIdsByIndex(messages);
    var ids := IdsOf(messages);
    forall i, j | 0 <= i < j < |ids| ensures ids[i] != ids[j] {
      assert IdOf(messages[i]) != IdOf(messages[j]);
    }
  }

  lemma IdsOfAppended(init: seq<Value>, last: Value)
    requires IdOf(last).Some? && forall m :: m in init ==> IdOf(m).Some?
    ensures forall m :: m in init + [last] ==> IdOf(m).Some?
    ensures IdsOf(init + [last]) == IdsOf(init) + [IdOf(last).value]
  {
    hide IdOf;
    var all := init + [last];
    forall i | 0 <= i < |all| ensures IdsOf(all)[i] == (IdsOf(init) + [IdOf(last).value])[i] {
      assert IdOf(all[i]) == Some(IdsOf(all)[i]);
    }
  }

  lemma {:induction false} UnstoredIsMissing(s: State, chatId: Str, messages: seq<Value>)
    requires forall m :: m in messages ==> IdOf(m).Some?
    ensures A.Unstored(Positions(s.messages), chatId, IdsOf(messages)) == IdsOf(Missing(s, chatId, messages))
  {
    hide IdOf, IdsOf;
    if messages != [] {
      var n := |messages| - 1;
      var init, last := messages[..n], messages[n];
      assert messages == init + [last];
      UnstoredIsMissing(s, chatId, init);
      IdsOfAppended(init, last);
      var ids, id := IdsOf(init), IdOf(last).value;
      assert (ids + [id])[..n] == ids;
      var before := Missing(s, chatId, init);
      if Stored(s, chatId, id) {
        assert before + [] == before;
      } else {
        IdsOfAppended(before, last);
      }
    }
  }

  /** `n` inserts in a row. */
  function Inserts(t: A.Table, w: nat, n: nat): A.Table {
    if n == 0 then t else A.AfterInsert(Inserts(t, w, n - 1), w)
  }

  /** The writer in the middle of its inserts: the first `j` rows are in. */
  predicate Midway(t: A.Table, rows: map<MessageKey, Message>, chats: map<Str, A.ChatRow>, chatId: Str,
                   added: seq<Value>, start: nat, j: nat)
    requires Insertable(rows, chatId, added) && j <= |added|
    requires Insertable(rows, chatId, added[..j])
  {
    InsertableMembers(rows, chatId, added);
    && t.chats == chats
    && t.rows == Positions(Insert(rows, chatId, added[..j], start))
    && 0 in t.writers
    && t.writers[0] == if j == |added| then A.Finished else A.Holding(chatId, IdsOf(added)[j..], start + j, true)
  }

  /** A row more, and its position. */
  lemma PositionsOfMore(rows: map<MessageKey, Message>, k: MessageKey, row: Message)
    ensures Positions(rows[k := row]) == Positions(rows)[k := row.position]
    ensures k in Positions(rows) <==> k in rows
  {
  }

  lemma InsertsTheNext(t: A.Table, chatId: Str, ids: seq<Str>, start: nat, j: nat)
    requires j < |ids| && 0 in t.writers && t.writers[0] == A.Holding(chatId, ids[j..], start + j, true)
    requires MessageKey(chatId, ids[j]) !in t.rows
    ensures var r := A.AfterInsert(t, 0);
      && r.chats == t.chats && r.rows == t.rows[MessageKey(chatId, ids[j]) := start + j]
      && 0 in r.writers
      && r.writers[0] == if j + 1 == |ids| then A.Finished else A.Holding(chatId, ids[j + 1..], start + j + 1, true)
  {
    assert ids[j..][0] == ids[j] && ids[j..][1..] == ids[j + 1..];
  }

  lemma OneMoreInsert(t: A.Table, rows: map<MessageKey, Message>, chats: map<Str, A.ChatRow>, chatId: Str,
                      added: seq<Value>, start: nat, j: nat)
    requires Insertable(rows, chatId, added) && j < |added|
    requires Insertable(rows, chatId, added[..j]) && Insertable(rows, chatId, added[..j + 1])
    requires Midway(t, rows, chats, chatId, added, start, j)
    ensures Midway(A.AfterInsert(t, 0), rows, chats, chatId, added, start, j + 1)
  {
    hide IdOf, RoleOf, Insertable, Insert, A.AfterInsert, Positions;
    InsertableMembers(rows, chatId, added);
    var init, more := added[..j], added[..j + 1];
    assert more[..j] == init && more[j] == added[j] && added[j] in added;
    InsertStep(rows, chatId, more, start);
    LastIsNew(rows, chatId, more);
    InsertedKeys(rows, chatId, init, start);
    var k := MessageKey(chatId, IdOf(added[j]).value);
    PositionsOfMore(Insert(rows, chatId, init, start), k, Message(start + j, RoleOf(added[j]).value, added[j]));
    InsertsTheNext(t, chatId, IdsOf(added), start, j);
  }

  lemma LastIsNew(rows: map<MessageKey, Message>, chatId: Str, messages: seq<Value>)
    requires Insertable(rows, chatId, messages) && messages != []
    ensures var n := |messages| - 1;
      && IdOf(messages[n]).Some? && MessageKey(chatId, IdOf(messages[n]).value) !in rows
      && !HasId(messages[..n], IdOf(messages[n]).value)
  {
  }

  lemma {:induction false} AllInserts(t: A.Table, rows: map<MessageKey, Message>, chats: map<Str, A.ChatRow>, chatId: Str,
                                      added: seq<Value>, start: nat, j: nat)
    requires Insertable(rows, chatId, added) && j <= |added|
    requires t.chats == chats && t.rows == Positions(rows) && added != []
    requires (forall m :: m in added ==> IdOf(m).Some?) && t.writers == map[0 := A.Holding(chatId, IdsOf(added), start, true)]
    ensures Insertable(rows, chatId, added[..j])
    ensures Midway(Inserts(t, 0, j), rows, chats, chatId, added, start, j)
  {
    hide IdOf, RoleOf, Insertable;
    InsertablePart(rows, chatId, added, j);
    if j == 0 {
      assert IdsOf(added)[0..] == IdsOf(added);
    } else {
      AllInserts(t, rows, chats, chatId, added, start, j - 1);
      OneMoreInsert(Inserts(t, 0, j - 1), rows, chats, chatId, added, start, j - 1);
    }
  }

  lemma CheckOne(t: A.Table, chatId: Str, id: Str)
    requires t.writers == map[]
    ensures A.AfterCheck(t, 0, chatId, [id], false) ==
      t.(writers := map[0 := if MessageKey(chatId, id) in t.rows then A.Finished else A.Checked(chatId, [id], false)])
  {
    assert [id][..0] == [];
    assert A.Unstored(t.rows, chatId, [id]) == if MessageKey(chatId, id) in t.rows then [] else [id];
    assert A.Distinct([id]);
  }

  /** What reserving and inserting one checked id comes to. */
  lemma ReserveAndInsertOne(t: A.Table, chatId: Str, id: Str)
    requires t.writers == map[0 := A.Checked(chatId, [id], false)] && MessageKey(chatId, id) !in t.rows
    ensures var r := A.AfterInsert(A.AfterReserve(t, 0), 0);
      if A.IsLive(t, chatId) then
        var next := t.chats[chatId].next;
        r.chats == t.chats[chatId := A.ChatRow(next + 1, true)] && r.rows == t.rows[MessageKey(chatId, id) := next]
      else r.chats == t.chats && r.rows == t.rows
  {
  }

  /** An append is a check, a reservation and an insert that nothing comes between. */
  lemma UninterruptedAppend(s: State, chatId: Str, message: Value, now: Time)
    requires Writable(Deep(message))
    ensures var id := IdOf(Deep(message)).value;
      SameTables(A.AfterInsert(A.AfterReserve(A.AfterCheck(View(s), 0, chatId, [id], false), 0), 0),
                 AppendMessage(s, chatId, message, AnyOwner, now).state)
  {
    hide IdOf, RoleOf, Deep, A.AfterCheck, A.AfterReserve, A.AfterInsert, AppendMessage;
    var id := IdOf(Deep(message)).value;
    CheckOne(View(s), chatId, id);
    var checked := A.AfterCheck(View(s), 0, chatId, [id], false);
    AppendedTables(s, chatId, message, now);
    if Stored(s, chatId, id) {
      NothingLeftToDo(checked);
    } else {
      ReserveAndInsertOne(checked, chatId, id);
    }
  }

  lemma NothingLeftToDo(t: A.Table)
    requires t.writers == map[0 := A.Finished]
    ensures A.AfterInsert(A.AfterReserve(t, 0), 0) == t
  {
  }

  /** What an append does to the counter and the positions. */
  lemma AppendedTables(s: State, chatId: Str, message: Value, now: Time)
    requires Writable(Deep(message))
    ensures var id := IdOf(Deep(message)).value;
      var s' := AppendMessage(s, chatId, message, AnyOwner, now).state;
      if Live(s, chatId) && !Stored(s, chatId, id) then
        var next := s.chats[chatId].next;
        && Counters(s'.chats) == Counters(s.chats)[chatId := A.ChatRow(next + 1, true)]
        && Positions(s'.messages) == Positions(s.messages)[MessageKey(chatId, id) := next]
      else s' == s
  {
    hide IdOf, RoleOf, Deep;
  }

  lemma CheckBatch(s: State, chatId: Str, messages: seq<Value>)
    requires Live(s, chatId) && DistinctIds(messages) && forall m :: m in messages ==> IdOf(m).Some?
    ensures var added := Missing(s, chatId, messages);
      A.AfterCheck(View(s), 0, chatId, IdsOf(messages), true) ==
      View(s).(writers := map[0 := if added == [] then A.Finished else A.Checked(chatId, IdsOf(added), true)])
  {
    hide IdOf, Missing, DistinctIds, IdsOf, A.Unstored, A.Distinct;
    IdsOfAccepted(messages);
    UnstoredIsMissing(s, chatId, messages);
  }

  lemma ReserveBatch(s: State, t: A.Table, chatId: Str, ids: seq<Str>, now: Time)
    requires Live(s, chatId) && t == View(s).(writers := map[0 := A.Checked(chatId, ids, true)])
    ensures var r := A.AfterReserve(t, 0);
      && r.chats == Counters(s.chats[chatId := Reserved(s.chats[chatId], |ids|, now)])
      && r.rows == Positions(s.messages)
      && r.writers == map[0 := A.Holding(chatId, ids, s.chats[chatId].next, true)]
  {
    hide A.Reserved;
  }

  /** A batch store is its check, one reservation and its inserts, with nothing in between. */
  lemma UninterruptedBatch(s: State, chatId: Str, messages: seq<Value>, now: Time)
    requires Live(s, chatId) && StoreMessages(s, chatId, messages, {}, now).Committed?
    ensures DistinctIds(Normalised(messages)) && forall m :: m in Normalised(messages) ==> IdOf(m).Some?
    ensures var ids := IdsOf(Normalised(messages));
      var reserved := A.AfterReserve(A.AfterCheck(View(s), 0, chatId, ids, true), 0);
      SameTables(Inserts(reserved, 0, |Missing(s, chatId, Normalised(messages))|),
                 StoreMessages(s, chatId, messages, {}, now).state)
  {
    hide IdOf, RoleOf, StoreMessages, Insertable, Missing, DistinctIds, Normalised, A.AfterCheck, IdsOf, Insert;
    CommittedIsDistinct(s, chatId, messages, now);
    var ms := Normalised(messages);
    IdsOfAccepted(ms);
    var added, rows := StoredBatch(s, chatId, messages, {}, now);
    InsertOnlyRewritesNothing(s, chatId, ms);
    CheckBatch(s, chatId, ms);
    var checked := A.AfterCheck(View(s), 0, chatId, IdsOf(ms), true);
    if added != [] {
      hide A.AfterReserve;
      InsertableMembers(rows, chatId, added);
      ReserveBatch(s, checked, chatId, IdsOf(added), now);
      var reserved := A.AfterReserve(checked, 0);
      AllInserts(reserved, rows, reserved.chats, chatId, added, s.chats[chatId].next, |added|);
      assert added[..|added|] == added;
    }
  }

  lemma CommittedIsDistinct(s: State, chatId: Str, messages: seq<Value>, now: Time)
    requires StoreMessages(s, chatId, messages, {}, now).Committed?
    ensures DistinctIds(Normalised(messages))
  {
    BatchIsAcceptedExactly(Normalised(messages));
  }
}
