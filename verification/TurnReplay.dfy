/** Replaying a whole turn: when the second delivery changes nothing. */
module TurnReplay {
  import opened Text
  import opened Json
  import opened WellFormed
  import opened StoreState
  import opened StoreInvariant
  import opened StoreRuns
  import opened StoreDurability
  import opened TurnSettlement
  import opened StoreBatches
  import Investigation

  /** The settlement is refused: it names a row, and that row is missing or belongs elsewhere. */
  predicate IsRefused(s: State, chatId: Str, p: Pending) {
    p.id != [] && (p.id in s.investigations ==> !InContext(s.investigations[p.id], chatId, p.projectRef, p.environmentRef))
  }

  predicate AllRefused(s: State, chatId: Str, pending: seq<Pending>) {
    forall p :: p in pending ==> IsRefused(s, chatId, p)
  }

  lemma RefusedExactly(s: State, chatId: Str, p: Pending, now: Time)
    ensures var u := Upsert(s, p.id, chatId, p.projectRef, p.environmentRef, p.state, p.freshId, now);
      && (IsRefused(s, chatId, p) <==> u.Committed? && u.result.Refused?)
      && (IsRefused(s, chatId, p) ==> u.state == s)
  {
    hide Deep;
  }

  lemma SettlementsOnlyAdd(s: State, chatId: Str, p: Pending, before: TurnSettlements, now: Time)
    requires SettleOne(s, chatId, p, before, now).Committed?
    ensures var t := SettleOne(s, chatId, p, before, now);
      && (IsRefused(s, chatId, p) ==> t == Committed(s, before))
      && (!IsRefused(s, chatId, p) ==> t.result.settled != [])
      && (before.settled != [] ==> t.result.settled != [])
  {
    hide Upsert, Investigation.SettlementMessage, IsRefused;
    RefusedExactly(s, chatId, p, now);
  }

  /** A turn settles nothing exactly when every one of its settlements is refused, and then it moves no row. */
  lemma {:induction false} NothingSettledExactly(s: State, chatId: Str, pending: seq<Pending>, now: Time)
    requires SettlePending(s, chatId, pending, now).Committed?
    ensures SettlePending(s, chatId, pending, now).result.settled == [] <==> AllRefused(s, chatId, pending)
    ensures AllRefused(s, chatId, pending) ==> SettlePending(s, chatId, pending, now) == Committed(s, TurnSettlements([], []))
  {
    hide SettleOne, IsRefused;
    if pending != [] {
      var n := |pending| - 1;
      assert pending == pending[..n] + [pending[n]];
      NothingSettledExactly(s, chatId, pending[..n], now);
      var before := SettlePending(s, chatId, pending[..n], now);
      SettlementsOnlyAdd(before.state, chatId, pending[n], before.result, now);
      if AllRefused(s, chatId, pending[..n]) {
        assert AllRefused(s, chatId, pending) <==> IsRefused(s, chatId, pending[n]);
      } else {
        assert !AllRefused(s, chatId, pending);
      }
    }
  }

  lemma {:induction false} SettledRowsMove(settled: seq<Settled>, id: Str)
    requires settled != [] && settled[|settled| - 1].id == id && settled[|settled| - 1].revision > 0
    ensures Revisions(settled, id) > 0
  {
  }

  lemma LastStands(s: State, settled: seq<Settled>)
    requires LastSettlementStands(s, settled) && settled != []
    ensures Stands(s, settled[|settled| - 1])
  {
    hide Stands;
    assert IsLast(settled, |settled| - 1);
  }

  /** Settling anything changes the investigations. */
  lemma SettlingChangesRows(s: State, chatId: Str, pending: seq<Pending>, now: Time)
    requires SettlePending(s, chatId, pending, now).Committed? && SettlePending(s, chatId, pending, now).result.settled != []
    ensures SettlePending(s, chatId, pending, now).state.investigations != s.investigations
  {
    hide SettlePending, Revisions, IsLast, LastSettlementStands, CardsMatch, Deep, InContext;
    var t := SettlePending(s, chatId, pending, now);
    var last := t.result.settled[|t.result.settled| - 1];
    PendingRevises(s, chatId, pending, now, last.id);
    PendingCardsMatch(s, chatId, pending, now);
    LastStands(t.state, t.result.settled);
    if last.revision > 0 {
      SettledRowsMove(t.result.settled, last.id);
    } else {
      FirstSettlementOpens(s, chatId, pending, now, last.id);
    }
  }

  /** A row that a turn leaves at revision 0 was opened by it. */
  lemma {:induction false} FirstSettlementOpens(s: State, chatId: Str, pending: seq<Pending>, now: Time, id: Str)
    requires SettlePending(s, chatId, pending, now).Committed?
    ensures var t := SettlePending(s, chatId, pending, now);
      id in t.state.investigations && t.state.investigations[id].revision == 0 && id in s.investigations ==>
        t.state.investigations[id] == s.investigations[id] && forall i :: 0 <= i < |t.result.settled| ==> t.result.settled[i].id != id
  {
    hide Upsert, Investigation.SettlementMessage, Deep;
    if pending != [] {
      var n := |pending| - 1;
      var p := pending[n];
      FirstSettlementOpens(s, chatId, pending[..n], now, id);
      var before := SettlePending(s, chatId, pending[..n], now);
      PendingRevises(s, chatId, pending[..n], now, id);
      UpsertMovesOneRow(before.state, chatId, p, now, id);
    }
  }

  lemma UpsertMovesOneRow(s: State, chatId: Str, p: Pending, now: Time, id: Str)
    ensures var u := Upsert(s, p.id, chatId, p.projectRef, p.environmentRef, p.state, p.freshId, now);
      && (u.Committed? && u.result.Upserted? && u.result.id == id && id in s.investigations ==>
            id in u.state.investigations && u.state.investigations[id].revision > 0)
      && (u.Committed? && u.result.Upserted? && u.result.id != id ==>
            (id in u.state.investigations <==> id in s.investigations)
            && (id in s.investigations ==> u.state.investigations[id] == s.investigations[id]))
      && (u.Committed? && u.result.Refused? ==> u.state == s)
  {
    hide Deep;
  }

  /**
    A committed turn that is replayed, with whatever ids are generated the second time, leaves
    the store as it was exactly when every settlement of the replay is refused by then;
    otherwise the investigations move again.
   */
  lemma ReplayedTurnIsQuietExactly(s: State, op: Op, now: Time, pending: seq<Pending>, later: Time)
    requires op.Turn?
    requires PersistTurn(s, op.chatId, op.messages, op.session, op.pending, op.finalizeIds, now).Committed?
    ensures var once := Step(s, Call(op, now)).state;
      var again := PersistTurn(once, op.chatId, op.messages, op.session, pending, op.finalizeIds, later);
      && (AllRefused(once, op.chatId, pending) && Null !in op.messages ==> again == Committed(once, []))
      && (again.Committed? ==> (again.state == once <==> AllRefused(once, op.chatId, pending)))
      && (again.Committed? && !AllRefused(once, op.chatId, pending) ==> again.state.investigations != once.investigations)
  {
    hide StoreMessages, SettlePending, NewCards, RawIds, AllRefused, Finalizable, PersistTurn, Step;
    var t, all := TurnParts(s, op, now);
    var once := Step(s, Call(op, now)).state;
    CommittedTurnState(s, op, now);
    RepeatedPartChangesNothing(t.state, op.chatId, op.messages, NewCards(t.result.cards, RawIds(op.messages)),
      Finalizable(op.finalizeIds), now, once, later);
    QuietTurn(once, op, pending, later);
    var op' := op.(pending := pending);
    if PersistTurn(once, op.chatId, op.messages, op.session, pending, op.finalizeIds, later).Committed? {
      var t', all' := TurnParts(once, op', later);
      NothingSettledExactly(once, op.chatId, pending, later);
      StoreKeepsInvestigations(t'.state, op.chatId, all', Finalizable(op.finalizeIds), later);
      if !AllRefused(once, op.chatId, pending) { SettlingChangesRows(once, op.chatId, pending, later); }
    }
  }

  lemma CommittedTurnState(s: State, op: Op, now: Time)
    requires op.Turn?
    requires PersistTurn(s, op.chatId, op.messages, op.session, op.pending, op.finalizeIds, now).Committed?
    ensures Step(s, Call(op, now)).state == PersistTurn(s, op.chatId, op.messages, op.session, op.pending, op.finalizeIds, now).state
    ensures Null !in op.messages
  {
    hide StoreMessages, SettlePending, NewCards, RawIds;
  }

  /** A turn all of whose settlements are refused, over a transcript that already holds it. */
  lemma QuietTurn(s: State, op: Op, pending: seq<Pending>, now: Time)
    requires op.Turn? && op.chatId in s.sessions && s.sessions[op.chatId] == op.session && Null !in op.messages
    requires StoreMessages(s, op.chatId, op.messages, Finalizable(op.finalizeIds), now) == Committed(s, ())
    ensures AllRefused(s, op.chatId, pending) ==>
      PersistTurn(s, op.chatId, op.messages, op.session, pending, op.finalizeIds, now) == Committed(s, [])
  {
    hide StoreMessages, SettlePending, RawIds, AllRefused, Finalizable;
    if AllRefused(s, op.chatId, pending) {
      RefusedTurnSettlesNothing(s, op.chatId, pending, now);
      assert NewCards([], RawIds(op.messages)) == [];
      assert op.messages + [] == op.messages;
      assert s.(sessions := s.sessions[op.chatId := op.session]) == s;
    }
  }

  lemma {:induction false} RefusedTurnSettlesNothing(s: State, chatId: Str, pending: seq<Pending>, now: Time)
    requires AllRefused(s, chatId, pending)
    ensures SettlePending(s, chatId, pending, now) == Committed(s, TurnSettlements([], []))
  {
    hide IsRefused, Upsert, Investigation.SettlementMessage;
    if pending != [] {
      var n := |pending| - 1;
      assert pending == pending[..n] + [pending[n]];
      RefusedTurnSettlesNothing(s, chatId, pending[..n], now);
      RefusedExactly(s, chatId, pending[n], now);
    }
  }
}
