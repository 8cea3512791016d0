/** Runs of the store: any sequence of calls, each of which commits or is rolled back. */
module StoreRuns {
  import opened Text
  import opened Json
  import opened WellFormed
  import opened StoreState
  import opened StoreInvariant
  import opened StoreSteps
  import Investigation

  datatype Op =
    | Create(chatId: Str, organizationId: Str, userId: Str)
    | SoftDelete(chatId: Str, userId: Str, organizationId: Str)
    | SoftDeleteAll(organizationId: Str)
    | HardDelete(ids: set<Str>)
    | Persist(chatId: Str, messages: seq<Value>)
    | Turn(chatId: Str, messages: seq<Value>, session: Session, pending: seq<Pending>, finalizeIds: set<Str>)
    | Finalize(chatId: Str, messageId: Str, expectedRole: Str, message: Value)
    | Append(chatId: Str, message: Value, scope: Scope)
    | UpsertInquiry(id: Str, chatId: Str, projectRef: Str, environmentRef: Str, state: Value, freshId: Str)
    | SeedInquiry(id: Str, chatId: Str, projectRef: Str, environmentRef: Str, state: Value)
    | RecordAttempt(id: Str)
    | Abandon(id: Str, note: Str, otherText: Str)
    | SweepSettle(id: Str, chatId: Str, note: Str, otherText: Str)
    | SettleState(id: Str, chatId: Str, projectRef: Str, environmentRef: Str, state: Value, messageId: Str, freshId: Str)

  /** What a call reports to its caller. */
  datatype Event =
    | Nothing
    | Failed(error: StoreError)
    | Flag(flag: bool)
    | UpsertEvent(upsert: UpsertResult)
    | SeedEvent(seed: SeedResult)
    | AttemptEvent(attempts: Option<nat>)
    | TurnEvent(settled: seq<Settled>)
    | AbandonEvent(abandoned: Option<Settled>)
    | SweepEvent(card: Option<SettledCard>)
    | CloseEvent(close: CloseResult)

  datatype Outcome = Outcome(state: State, event: Event)

  datatype Call = Call(op: Op, now: Time)

  /** A transaction's outcome: its new state, or the old one. */
  function Settle<T>(s: State, t: Tx<T>, report: T -> Event): Outcome {
    match t
    case Committed(s', r) => Outcome(s', report(r))
    case RolledBack(e) => Outcome(s, Failed(e))
  }

  function Step(s: State, call: Call): Outcome {
    var now := call.now;
    match call.op
    case Create(c, org, user) => Outcome(CreateChat(s, c, org, user, now), Nothing)
    case SoftDelete(c, user, org) => Outcome(SoftDeleteChat(s, c, user, org, now), Nothing)
    case SoftDeleteAll(org) => Outcome(SoftDeleteOrganization(s, org, now), Nothing)
    case HardDelete(ids) => Outcome(DeleteChats(s, ids), Nothing)
    case Persist(c, ms) => Settle(s, StoreMessages(s, c, ms, {}, now), _ => Nothing)
    case Turn(c, ms, session, pending, ids) =>
      Settle(s, PersistTurn(s, c, ms, session, pending, ids, now), settled => TurnEvent(settled))
    case Finalize(c, id, role, m) => Settle(s, FinalizeMessage(s, c, id, role, m), b => Flag(b))
    case Append(c, m, scope) => Settle(s, AppendMessage(s, c, m, scope, now), b => Flag(b))
    case UpsertInquiry(id, c, p, e, state, freshId) => Settle(s, Upsert(s, id, c, p, e, state, freshId, now), r => UpsertEvent(r))
    case SeedInquiry(id, c, p, e, state) => Settle(s, Seed(s, id, c, p, e, state, now), r => SeedEvent(r))
    case RecordAttempt(id) => Settle(s, RecordSweepAttempt(s, id, now), r => AttemptEvent(r))
    case Abandon(id, note, text) => Settle(s, SettleInconclusive(s, id, note, text, now), r => AbandonEvent(r))
    case SweepSettle(id, c, note, text) => Settle(s, SettleAndClose(s, id, c, note, text, now), r => SweepEvent(r))
    case SettleState(id, c, p, e, state, mid, freshId) =>
      Settle(s, SettleStateAndClose(s, id, c, p, e, state, mid, freshId, now), r => CloseEvent(r))
  }

  /** The state after all the calls. */
  function RunState(s: State, calls: seq<Call>): State {
    if calls == [] then s else Step(RunState(s, calls[..|calls| - 1]), calls[|calls| - 1]).state
  }

  /** What call `i` of the run reported. */
  function EventAt(s: State, calls: seq<Call>, i: nat): Event
    requires i < |calls|
  {
    Step(RunState(s, calls[..i]), calls[i]).event
  }

  /** A failed call changes nothing. */
  lemma FailureChangesNothing(s: State, call: Call)
    ensures Step(s, call).event.Failed? ==> Step(s, call).state == s
  {
  }

  /** The calls of a run that did not fail. */
  function Succeeding(s: State, calls: seq<Call>): seq<Call> {
    if calls == [] then []
    else
      var n := |calls| - 1;
      Succeeding(s, calls[..n]) + (if EventAt(s, calls, n).Failed? then [] else [calls[n]])
  }

  lemma EventOfAppended(s: State, init: seq<Call>, last: Call, i: nat)
    requires i <= |init|
    ensures EventAt(s, init + [last], i) == if i < |init| then EventAt(s, init, i) else Step(RunState(s, init), last).event
    ensures RunState(s, init + [last]) == Step(RunState(s, init), last).state
  {
    hide Step;
    var all := init + [last];
    assert all[..i] == init[..i] && all[..|init|] == init && init[..|init|] == init;
  }

  /** Failed calls leave no trace: the run without them ends in the same store, and none of its calls fails. */
  lemma {:induction false} FailedCallsLeaveNoTrace(s: State, calls: seq<Call>)
    ensures RunState(s, Succeeding(s, calls)) == RunState(s, calls)
    ensures forall i :: 0 <= i < |Succeeding(s, calls)| ==> !EventAt(s, Succeeding(s, calls), i).Failed?
  {
    hide Step, EventAt;
    if calls != [] {
      var n := |calls| - 1;
      var init, kept := calls[..n], Succeeding(s, calls[..n]);
      FailedCallsLeaveNoTrace(s, init);
      assert calls == init + [calls[n]];
      EventOfAppended(s, init, calls[n], n);
      FailureChangesNothing(RunState(s, init), calls[n]);
      EventOfAppended(s, kept, calls[n], |kept|);
      if EventAt(s, calls, n).Failed? {
        assert kept + [] == kept;
      } else {
        forall i | 0 <= i < |kept| + 1 ensures !EventAt(s, kept + [calls[n]], i).Failed? {
          EventOfAppended(s, kept, calls[n], i);
        }
      }
    }
  }

  /** A run continued is one run. */
  lemma {:induction false} RunOfConcatenation(s: State, a: seq<Call>, b: seq<Call>)
    ensures RunState(s, a + b) == RunState(RunState(s, a), b)
    decreases |b|
  {
    hide Step;
    if b == [] {
      assert a + b == a;
    } else {
      var n := |b| - 1;
      RunOfConcatenation(s, a, b[..n]);
      assert (a + b)[..|a + b| - 1] == a + b[..n];
    }
  }

  // ---- The invariant over runs ----

  lemma UpsertKeepsTranscripts(s: State, id: Str, chatId: Str, p: Str, e: Str, state: Value, freshId: Str, now: Time)
    requires Upsert(s, id, chatId, p, e, state, freshId, now).Committed?
    ensures var s' := Upsert(s, id, chatId, p, e, state, freshId, now).state;
      s'.messages == s.messages && s'.chats == s.chats && s'.sessions == s.sessions
  {
  }

  lemma SettleInconclusiveNeverFails(s: State, id: Str, note: Str, otherText: Str, now: Time)
    ensures SettleInconclusive(s, id, note, otherText, now).Committed?
    ensures SettleInconclusive(s, id, note, otherText, now).result.None? ==> SettleInconclusive(s, id, note, otherText, now).state == s
  {
  }

  lemma UpsertRefusalChangesNothing(s: State, id: Str, chatId: Str, p: Str, e: Str, state: Value, freshId: Str, now: Time)
    ensures var u := Upsert(s, id, chatId, p, e, state, freshId, now);
      u.Committed? && u.result.Refused? ==> u.state == s
  {
  }

  lemma {:induction false} PendingKeepsTranscripts(s: State, chatId: Str, pending: seq<Pending>, now: Time)
    requires SettlePending(s, chatId, pending, now).Committed?
    ensures var s' := SettlePending(s, chatId, pending, now).state;
      s'.messages == s.messages && s'.chats == s.chats && s'.sessions == s.sessions
  {
    if pending != [] {
      PendingKeepsTranscripts(s, chatId, pending[..|pending| - 1], now);
    }
  }

  lemma PersistTurnKeepsValid(s: State, op: Op, now: Time)
    requires op.Turn? && Valid(s)
    ensures Valid(Step(s, Call(op, now)).state)
  {
    hide Valid, StoreMessages, SettlePending;
    var t := SettlePending(s, op.chatId, op.pending, now);
    if t.Committed? {
      PendingKeepsTranscripts(s, op.chatId, op.pending, now);
      SameTranscriptsKeepValid(s, t.state);
      var all := op.messages + NewCards(t.result.cards, RawIds(op.messages));
      var stored := StoreMessages(t.state, op.chatId, all, Finalizable(op.finalizeIds), now);
      if stored.Committed? {
        StoreMessagesKeepsValid(t.state, op.chatId, all, Finalizable(op.finalizeIds), now);
        SameTranscriptsKeepValid(stored.state, stored.state.(sessions := stored.state.sessions[op.chatId := op.session]));
      }
    }
  }

  lemma SweepSettleKeepsValid(s: State, op: Op, now: Time)
    requires op.SweepSettle? && Valid(s)
    ensures Valid(Step(s, Call(op, now)).state)
  {
    hide Valid, AppendMessage, SettleInconclusive;
    var t := SettleInconclusive(s, op.id, op.note, op.otherText, now);
    if t.Committed? && t.result.Some? {
      SettleInconclusiveKeepsTranscripts(s, op.id, op.note, op.otherText, now);
      SameTranscriptsKeepValid(s, t.state);
      var card := Investigation.SettlementMessage(t.result.value.id, t.result.value.revision, t.result.value.state, None);
      if card.Some? && AppendMessage(t.state, op.chatId, card.value, AnyOwner, now).Committed? {
        AppendKeepsValid(t.state, op.chatId, card.value, AnyOwner, now);
      }
    }
  }

  lemma SettleInconclusiveKeepsTranscripts(s: State, id: Str, note: Str, text: Str, now: Time)
    requires SettleInconclusive(s, id, note, text, now).Committed?
    ensures SettleInconclusive(s, id, note, text, now).state.messages == s.messages
    ensures SettleInconclusive(s, id, note, text, now).state.chats == s.chats
    ensures SettleInconclusive(s, id, note, text, now).state.sessions == s.sessions
  {
  }

  lemma SettleStateKeepsValid(s: State, op: Op, now: Time)
    requires op.SettleState? && Valid(s)
    ensures Valid(Step(s, Call(op, now)).state)
  {
    hide Valid, AppendMessage, Upsert;
    var t := Upsert(s, op.id, op.chatId, op.projectRef, op.environmentRef, op.state, op.freshId, now);
    if t.Committed? && t.result.Upserted? {
      UpsertKeepsTranscripts(s, op.id, op.chatId, op.projectRef, op.environmentRef, op.state, op.freshId, now);
      SameTranscriptsKeepValid(s, t.state);
      var card := Investigation.SettlementMessage(t.result.id, t.result.revision, op.state, Some(op.messageId));
      if card.Some? && AppendMessage(t.state, op.chatId, card.value, AnyOwner, now).Committed? {
        AppendKeepsValid(t.state, op.chatId, card.value, AnyOwner, now);
      }
    }
  }

  /** What a committed `settleInvestigationStateAndCloseCard` did: nothing, or one revision and one card. */
  lemma SettleStateOutcome(s: State, op: Op, now: Time)
    requires op.SettleState?
    ensures var t := SettleStateAndClose(s, op.id, op.chatId, op.projectRef, op.environmentRef, op.state, op.messageId, op.freshId, now);
      t.Committed? ==>
        if t.result.Closed? && t.result.closed then
          var u := Upsert(s, op.id, op.chatId, op.projectRef, op.environmentRef, op.state, op.freshId, now);
          && u.Committed? && u.result.Upserted? && t.result.id == u.result.id && t.result.revision == u.result.revision
          && Investigation.SettlementMessage(u.result.id, u.result.revision, op.state, Some(op.messageId)) == Some(t.result.card)
          && AppendMessage(u.state, op.chatId, t.result.card, AnyOwner, now) == Committed(t.state, true)
          && Live(s, op.chatId) && !Stored(s, op.chatId, op.messageId)
        else
          && t.state == s
          && (t.result.Closed? ==>
                && Live(s, op.chatId) && Stored(s, op.chatId, op.messageId) && t.result.id == op.id
                && op.id in s.investigations && t.result.revision == s.investigations[op.id].revision)
  {
    hide AppendMessage, Upsert, Investigation.SettlementMessage;
  }

  lemma StepKeepsValid(s: State, call: Call)
    requires Valid(s)
    ensures Valid(Step(s, call).state)
  {
    var now := call.now;
    match call.op {
      case Create(c, org, user) => CreateChatKeepsValid(s, c, org, user, now);
      case HardDelete(ids) => DeleteChatsKeepsValid(s, ids);
      case Persist(c, ms) =>
        if StoreMessages(s, c, ms, {}, now).Committed? { StoreMessagesKeepsValid(s, c, ms, {}, now); }
      case Turn(_, _, _, _, _) => PersistTurnKeepsValid(s, call.op, now);
      case Finalize(c, id, role, m) =>
        if FinalizeMessage(s, c, id, role, m).Committed? { FinalizeKeepsValid(s, c, id, role, m); }
      case Append(c, m, scope) =>
        if AppendMessage(s, c, m, scope, now).Committed? { AppendKeepsValid(s, c, m, scope, now); }
      case SweepSettle(_, _, _, _) => SweepSettleKeepsValid(s, call.op, now);
      case SettleState(_, _, _, _, _, _, _) => SettleStateKeepsValid(s, call.op, now);
      case SoftDelete(_, _, _) => SoftDeleteKeepsValid(s, call);
      case SoftDeleteAll(_) => SoftDeleteKeepsValid(s, call);
      case _ => InquiryStepKeepsValid(s, call);
    }
  }

  lemma SoftDeleteKeepsValid(s: State, call: Call)
    requires Valid(s) && (call.op.SoftDelete? || call.op.SoftDeleteAll?)
    ensures Valid(Step(s, call).state)
  {
    hide Valid;
    hide CreateChat, DeleteChats, StoreMessages, PersistTurn, FinalizeMessage, AppendMessage, Upsert, Seed,
      RecordSweepAttempt, SettleInconclusive, SettleAndClose, SettleStateAndClose;
    SameTranscriptsKeepValid(s, Step(s, call).state);
  }

  lemma SeedKeepsTranscripts(s: State, id: Str, c: Str, p: Str, e: Str, state: Value, now: Time)
    ensures var t := Seed(s, id, c, p, e, state, now); t.Committed? && t.state.messages == s.messages && t.state.chats == s.chats && t.state.sessions == s.sessions
  {
  }

  lemma RecordKeepsTranscripts(s: State, id: Str, now: Time)
    ensures var t := RecordSweepAttempt(s, id, now); t.Committed? && t.state.messages == s.messages && t.state.chats == s.chats && t.state.sessions == s.sessions
  {
  }

  lemma InquiryStepKeepsValid(s: State, call: Call)
    requires Valid(s) && (call.op.UpsertInquiry? || call.op.SeedInquiry? || call.op.RecordAttempt? || call.op.Abandon?)
    ensures Valid(Step(s, call).state)
  {
    hide Valid, CreateChat, SoftDeleteChat, SoftDeleteOrganization, DeleteChats, StoreMessages, PersistTurn, FinalizeMessage,
      AppendMessage, Upsert, Seed, RecordSweepAttempt, SettleInconclusive, SettleAndClose, SettleStateAndClose;
    match call.op {
      case UpsertInquiry(id, c, p, e, state, freshId) =>
        if Upsert(s, id, c, p, e, state, freshId, call.now).Committed? { UpsertKeepsTranscripts(s, id, c, p, e, state, freshId, call.now); }
      case SeedInquiry(id, c, p, e, state) => SeedKeepsTranscripts(s, id, c, p, e, state, call.now);
      case RecordAttempt(id) => RecordKeepsTranscripts(s, id, call.now);
      case Abandon(id, note, text) =>
        if SettleInconclusive(s, id, note, text, call.now).Committed? {
          SettleInconclusiveKeepsTranscripts(s, id, note, text, call.now);
        }
    }
    SameTranscriptsKeepValid(s, Step(s, call).state);
  }

  /** Every reachable transcript is gap-free, without duplicates, and matches its bodies. */
  lemma {:induction false} ReachableIsValid(s: State, calls: seq<Call>)
    requires Valid(s)
    ensures Valid(RunState(s, calls))
  {
    hide Valid, Step;
    if calls != [] {
      ReachableIsValid(s, calls[..|calls| - 1]);
      StepKeepsValid(RunState(s, calls[..|calls| - 1]), calls[|calls| - 1]);
    }
  }

  /** So in particular after any run of a store that began empty. */
  lemma EveryTranscriptIsGapFree(calls: seq<Call>)
    ensures Valid(RunState(EMPTY, calls))
  {
    hide Valid, RunState;
    EmptyIsValid();
    ReachableIsValid(EMPTY, calls);
  }
}
