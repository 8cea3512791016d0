/** What is durable over a run: stored messages, investigation contexts and revision counts. */
module StoreDurability {
  import opened Text
  import opened Json
  import opened WellFormed
  import opened StoreState
  import opened StoreInvariant
  import opened StoreSteps
  import opened StoreRuns
  import Investigation

  // ---- Messages ----

  /** Every stored message keeps its place and role; its body too, unless it is one of `rewritable`. */
  ghost predicate Durable(s: State, s': State, chatId: Str, rewritable: set<Str>) {
    forall k :: k in s.messages ==>
      && k in s'.messages
      && s'.messages[k].position == s.messages[k].position
      && s'.messages[k].role == s.messages[k].role
      && (s'.messages[k].body == s.messages[k].body || (k.chatId == chatId && k.messageId in rewritable))
  }

  lemma StoreIsDurable(s: State, chatId: Str, messages: seq<Value>, finalizable: set<Str>, now: Time)
    requires StoreMessages(s, chatId, messages, finalizable, now).Committed?
    ensures Durable(s, StoreMessages(s, chatId, messages, finalizable, now).state, chatId, finalizable)
  {
    hide StoreMessages, IdOf, RoleOf, Deep, Insert;
    if Live(s, chatId) {
      var added, rows := StoredBatch(s, chatId, messages, finalizable, now);
      assert Durable(s, s.(messages := rows), chatId, finalizable);
      InsertedKeys(rows, chatId, added, s.chats[chatId].next);
    } else {
      DeadChatStoresNothing(s, chatId, messages, finalizable, now);
    }
  }

  /** The ids whose bodies a call may rewrite: named by a finalisation, never a settlement card's by a turn. */
  function Rewritable(op: Op): set<Str> {
    match op
    case Finalize(_, id, _, _) => {id}
    case Turn(_, _, _, _, ids) => Finalizable(ids)
    case _ => {}
  }

  function ChatOf(op: Op): Str {
    match op
    case Finalize(c, _, _, _) => c
    case Turn(c, _, _, _, _) => c
    case _ => []
  }

  lemma TurnIsDurable(s: State, op: Op, now: Time)
    requires op.Turn?
    ensures Durable(s, Step(s, Call(op, now)).state, op.chatId, Finalizable(op.finalizeIds))
  {
    hide StoreMessages, SettlePending, NewCards;
    var t := SettlePending(s, op.chatId, op.pending, now);
    if t.Committed? {
      PendingKeepsTranscripts(s, op.chatId, op.pending, now);
      var all := op.messages + NewCards(t.result.cards, RawIds(op.messages));
      if StoreMessages(t.state, op.chatId, all, Finalizable(op.finalizeIds), now).Committed? {
        StoreIsDurable(t.state, op.chatId, all, Finalizable(op.finalizeIds), now);
      }
    }
  }

  lemma AppendIsDurable(s: State, chatId: Str, message: Value, scope: Scope, now: Time)
    requires AppendMessage(s, chatId, message, scope, now).Committed?
    ensures Durable(s, AppendMessage(s, chatId, message, scope, now).state, [], {})
  {
  }

  lemma SweepSettleIsDurable(s: State, op: Op, now: Time)
    requires op.SweepSettle?
    ensures var t := SettleAndClose(s, op.id, op.chatId, op.note, op.otherText, now); t.Committed? ==> Durable(s, t.state, [], {})
  {
    hide AppendMessage, SettleInconclusive, Investigation.SettlementMessage;
    var t := SettleInconclusive(s, op.id, op.note, op.otherText, now);
    if t.Committed? && t.result.Some? {
      SettleInconclusiveKeepsTranscripts(s, op.id, op.note, op.otherText, now);
      var card := Investigation.SettlementMessage(t.result.value.id, t.result.value.revision, t.result.value.state, None);
      if card.Some? && AppendMessage(t.state, op.chatId, card.value, AnyOwner, now).Committed? {
        AppendIsDurable(t.state, op.chatId, card.value, AnyOwner, now);
      }
    }
  }

  lemma SettleStateIsDurable(s: State, op: Op, now: Time)
    requires op.SettleState?
    ensures var t := SettleStateAndClose(s, op.id, op.chatId, op.projectRef, op.environmentRef, op.state, op.messageId, op.freshId, now);
      t.Committed? ==> Durable(s, t.state, [], {})
  {
    hide AppendMessage, Upsert, SettleStateAndClose, Investigation.SettlementMessage;
    SettleStateOutcome(s, op, now);
    var t := Upsert(s, op.id, op.chatId, op.projectRef, op.environmentRef, op.state, op.freshId, now);
    if t.Committed? && t.result.Upserted? {
      UpsertKeepsTranscripts(s, op.id, op.chatId, op.projectRef, op.environmentRef, op.state, op.freshId, now);
      var card := Investigation.SettlementMessage(t.result.id, t.result.revision, op.state, Some(op.messageId));
      if card.Some? && AppendMessage(t.state, op.chatId, card.value, AnyOwner, now).Committed? {
        AppendIsDurable(t.state, op.chatId, card.value, AnyOwner, now);
      }
    }
  }

  lemma SettleIsDurable(s: State, op: Op, now: Time)
    requires op.SweepSettle? || op.SettleState?
    ensures Durable(s, Step(s, Call(op, now)).state, [], {})
  {
    hide CreateChat, SoftDeleteChat, SoftDeleteOrganization, DeleteChats, StoreMessages, PersistTurn, FinalizeMessage,
      AppendMessage, Upsert, Seed, RecordSweepAttempt, SettleInconclusive, SettleAndClose, SettleStateAndClose;
    if op.SweepSettle? { SweepSettleIsDurable(s, op, now); } else { SettleStateIsDurable(s, op, now); }
  }

  lemma QuietStepIsDurable(s: State, call: Call)
    requires call.op.Create? || call.op.SoftDelete? || call.op.SoftDeleteAll? || call.op.UpsertInquiry? || call.op.SeedInquiry?
          || call.op.RecordAttempt? || call.op.Abandon?
    ensures Step(s, call).state.messages == s.messages
  {
    hide Deep, Investigation.IsInProgress, Investigation.SqlSettled, InContext, Live;
    hide DeleteChats, StoreMessages, PersistTurn, FinalizeMessage, AppendMessage, SettleAndClose, SettleStateAndClose;
  }

  lemma FinalizeIsDurable(s: State, call: Call)
    requires call.op.Finalize?
    ensures Durable(s, Step(s, call).state, ChatOf(call.op), Rewritable(call.op))
  {
    hide IdOf, RoleOf;
    hide CreateChat, SoftDeleteChat, SoftDeleteOrganization, DeleteChats, StoreMessages, PersistTurn, AppendMessage,
      Upsert, Seed, RecordSweepAttempt, SettleInconclusive, SettleAndClose, SettleStateAndClose;
  }

  lemma StepIsDurable(s: State, call: Call)
    requires !call.op.HardDelete?
    ensures Durable(s, Step(s, call).state, ChatOf(call.op), Rewritable(call.op))
  {
    hide StoreMessages, AppendMessage, PersistTurn, SettleAndClose, SettleStateAndClose;
    match call.op {
      case Persist(c, ms) =>
        if StoreMessages(s, c, ms, {}, call.now).Committed? { StoreIsDurable(s, c, ms, {}, call.now); }
      case Turn(_, _, _, _, _) => TurnIsDurable(s, call.op, call.now);
      case Append(c, m, scope) =>
        if AppendMessage(s, c, m, scope, call.now).Committed? { AppendIsDurable(s, c, m, scope, call.now); }
      case SweepSettle(_, _, _, _) => SettleIsDurable(s, call.op, call.now);
      case SettleState(_, _, _, _, _, _, _) => SettleIsDurable(s, call.op, call.now);
      case Finalize(_, _, _, _) => FinalizeIsDurable(s, call);
      case _ => QuietStepIsDurable(s, call);
    }
  }

  /** A call that does not hard-delete the chat. */
  predicate Spares(call: Call, chatId: Str) {
    call.op.HardDelete? ==> chatId !in call.op.ids
  }

  predicate AllSpare(calls: seq<Call>, chatId: Str) {
    forall i :: 0 <= i < |calls| ==> Spares(calls[i], chatId)
  }

  predicate Rewrites(call: Call, k: MessageKey) {
    ChatOf(call.op) == k.chatId && k.messageId in Rewritable(call.op)
  }

  lemma MessageSurvivesStep(s: State, call: Call, k: MessageKey)
    requires k in s.messages && Spares(call, k.chatId)
    ensures var s' := Step(s, call).state;
      && k in s'.messages
      && s'.messages[k].position == s.messages[k].position && s'.messages[k].role == s.messages[k].role
      && (s'.messages[k].body == s.messages[k].body || Rewrites(call, k))
  {
    if !call.op.HardDelete? { StepIsDurable(s, call); }
  }

  /**
    Until its chat is hard-deleted, a stored message keeps its id, position and role, and keeps
    its body unless some call named it for finalisation.
   */
  lemma {:induction false} MessagesAreDurable(s: State, calls: seq<Call>, k: MessageKey)
    requires k in s.messages && AllSpare(calls, k.chatId)
    ensures var s' := RunState(s, calls);
      && k in s'.messages
      && s'.messages[k].position == s.messages[k].position && s'.messages[k].role == s.messages[k].role
      && (s'.messages[k].body == s.messages[k].body || exists i :: 0 <= i < |calls| && Rewrites(calls[i], k))
  {
    hide Step, Rewrites, Spares;
    if calls != [] {
      var n := |calls| - 1;
      MessagesAreDurable(s, calls[..n], k);
      MessageSurvivesStep(RunState(s, calls[..n]), calls[n], k);
      if i :| 0 <= i < n && Rewrites(calls[..n][i], k) {
        assert Rewrites(calls[i], k);
      }
    }
  }

  /** A rewritten body still carries the row's id and role. */
  lemma RewrittenBodiesStillMatch(s: State, calls: seq<Call>, k: MessageKey)
    requires Valid(s) && k in s.messages && AllSpare(calls, k.chatId)
    ensures var s' := RunState(s, calls);
      k in s'.messages && RowMatchesBody(k, s'.messages[k]) && RoleOf(s'.messages[k].body) == Some(s.messages[k].role)
  {
    ReachableIsValid(s, calls);
    MessagesAreDurable(s, calls, k);
  }

  // ---- Investigations ----

  /** How many of a turn's settlements revised `id`; revision 0 is a row being opened. */
  function Revisions(settled: seq<Settled>, id: Str): nat {
    if settled == [] then 0
    else
      var last := settled[|settled| - 1];
      Revisions(settled[..|settled| - 1], id) + (if last.id == id && last.revision > 0 then 1 else 0)
  }

  /** The revisions of `id` that a call reports it committed. */
  function Commits(e: Event, id: Str): nat {
    match e
    case UpsertEvent(Upserted(i, _, created)) => if i == id && !created then 1 else 0
    case TurnEvent(settled) => Revisions(settled, id)
    case AbandonEvent(Some(settled)) => if settled.id == id then 1 else 0
    case SweepEvent(Some(card)) => if card.settled.id == id then 1 else 0
    case CloseEvent(Closed(i, revision, _, closed)) => if i == id && closed && revision > 0 then 1 else 0
    case _ => 0
  }

  function RevisionOf(s: State, id: Str): nat {
    if id in s.investigations then s.investigations[id].revision else 0
  }

  /** The row stays in its context and its revision moves by the commits reported. */
  ghost predicate RevisedBy(s: State, s': State, id: Str, commits: nat) {
    && (id in s.investigations ==>
          && id in s'.investigations
          && InContext(s'.investigations[id], s.investigations[id].chatId, s.investigations[id].projectRef, s.investigations[id].environmentRef))
    && RevisionOf(s', id) == RevisionOf(s, id) + commits
  }

  lemma UpsertRevises(s: State, id: Str, c: Str, p: Str, e: Str, state: Value, freshId: Str, now: Time, any: Str)
    requires Upsert(s, id, c, p, e, state, freshId, now).Committed?
    ensures var t := Upsert(s, id, c, p, e, state, freshId, now);
      && RevisedBy(s, t.state, any, Commits(UpsertEvent(t.result), any))
      && (t.result.Upserted? ==> t.result.created == (t.result.revision == 0))
      && (t.result.Upserted? ==> t.result.id in t.state.investigations && t.state.investigations[t.result.id].revision == t.result.revision)
  {
    hide Deep;
  }

  lemma SettleOneRevises(s: State, chatId: Str, p: Pending, before: TurnSettlements, now: Time, id: Str)
    requires SettleOne(s, chatId, p, before, now).Committed?
    ensures var t := SettleOne(s, chatId, p, before, now);
      && Revisions(t.result.settled, id) >= Revisions(before.settled, id)
      && RevisedBy(s, t.state, id, Revisions(t.result.settled, id) - Revisions(before.settled, id))
  {
    hide Upsert, Investigation.SettlementMessage;
    var u := Upsert(s, p.id, chatId, p.projectRef, p.environmentRef, p.state, p.freshId, now);
    UpsertRevises(s, p.id, chatId, p.projectRef, p.environmentRef, p.state, p.freshId, now, id);
    if u.result.Upserted? {
      var last := Settled(u.result.id, u.result.revision, p.state);
      assert (before.settled + [last])[..|before.settled|] == before.settled;
    } else {
      UpsertRefusalChangesNothing(s, p.id, chatId, p.projectRef, p.environmentRef, p.state, p.freshId, now);
    }
  }

  lemma {:induction false} PendingRevises(s: State, chatId: Str, pending: seq<Pending>, now: Time, id: Str)
    requires SettlePending(s, chatId, pending, now).Committed?
    ensures var t := SettlePending(s, chatId, pending, now);
      RevisedBy(s, t.state, id, Revisions(t.result.settled, id))
  {
    hide SettleOne;
    if pending != [] {
      var n := |pending| - 1;
      PendingRevises(s, chatId, pending[..n], now, id);
      var before := SettlePending(s, chatId, pending[..n], now);
      SettleOneRevises(before.state, chatId, pending[n], before.result, now, id);
    }
  }

  lemma StoreKeepsInvestigations(s: State, chatId: Str, messages: seq<Value>, finalizable: set<Str>, now: Time)
    requires StoreMessages(s, chatId, messages, finalizable, now).Committed?
    ensures StoreMessages(s, chatId, messages, finalizable, now).state.investigations == s.investigations
  {
  }

  lemma TurnRevises(s: State, op: Op, now: Time, id: Str)
    requires op.Turn?
    ensures RevisedBy(s, Step(s, Call(op, now)).state, id, Commits(Step(s, Call(op, now)).event, id))
  {
    hide StoreMessages, SettlePending, NewCards, Revisions;
    var t := SettlePending(s, op.chatId, op.pending, now);
    if t.Committed? {
      PendingRevises(s, op.chatId, op.pending, now, id);
      var all := op.messages + NewCards(t.result.cards, RawIds(op.messages));
      if StoreMessages(t.state, op.chatId, all, Finalizable(op.finalizeIds), now).Committed? {
        StoreKeepsInvestigations(t.state, op.chatId, all, Finalizable(op.finalizeIds), now);
      }
    }
  }

  lemma AppendKeepsInvestigations(s: State, chatId: Str, message: Value, scope: Scope, now: Time)
    requires AppendMessage(s, chatId, message, scope, now).Committed?
    ensures AppendMessage(s, chatId, message, scope, now).state.investigations == s.investigations
  {
  }

  lemma SweepSettleRevises(s: State, op: Op, now: Time, id: Str)
    requires op.SweepSettle?
    ensures RevisedBy(s, Step(s, Call(op, now)).state, id, Commits(Step(s, Call(op, now)).event, id))
  {
    hide AppendMessage, Investigation.SettlementMessage, Investigation.SqlSettled;
    var t := SettleInconclusive(s, op.id, op.note, op.otherText, now);
    if t.result.Some? {
      var card := Investigation.SettlementMessage(t.result.value.id, t.result.value.revision, t.result.value.state, None);
      if card.Some? && AppendMessage(t.state, op.chatId, card.value, AnyOwner, now).Committed? {
        AppendKeepsInvestigations(t.state, op.chatId, card.value, AnyOwner, now);
      }
    }
  }

  lemma SettleStateRevises(s: State, op: Op, now: Time, id: Str)
    requires op.SettleState?
    ensures RevisedBy(s, Step(s, Call(op, now)).state, id, Commits(Step(s, Call(op, now)).event, id))
  {
    hide SettleStateAndClose, AppendMessage, Upsert, Investigation.SettlementMessage;
    var t := SettleStateAndClose(s, op.id, op.chatId, op.projectRef, op.environmentRef, op.state, op.messageId, op.freshId, now);
    SettleStateOutcome(s, op, now);
    if t.Committed? && t.result.Closed? && t.result.closed {
      var u := Upsert(s, op.id, op.chatId, op.projectRef, op.environmentRef, op.state, op.freshId, now);
      UpsertRevises(s, op.id, op.chatId, op.projectRef, op.environmentRef, op.state, op.freshId, now, id);
      AppendKeepsInvestigations(u.state, op.chatId, t.result.card, AnyOwner, now);
    }
  }

  lemma ChatStepRevises(s: State, call: Call, id: Str)
    requires call.op.Create? || call.op.SoftDelete? || call.op.SoftDeleteAll? || call.op.Persist? || call.op.Finalize? || call.op.Append?
    ensures Step(s, call).state.investigations == s.investigations
    ensures Commits(Step(s, call).event, id) == 0
  {
    hide IdOf, RoleOf, Deep, BatchError, Missing, Rewritten, Live;
    hide DeleteChats, PersistTurn, Upsert, Seed, RecordSweepAttempt, SettleInconclusive, SettleAndClose,
      SettleStateAndClose;
  }

  lemma UpsertStepRevises(s: State, call: Call, id: Str)
    requires call.op.UpsertInquiry?
    ensures RevisedBy(s, Step(s, call).state, id, Commits(Step(s, call).event, id))
  {
    hide Upsert;
    var op := call.op;
    if Upsert(s, op.id, op.chatId, op.projectRef, op.environmentRef, op.state, op.freshId, call.now).Committed? {
      UpsertRevises(s, op.id, op.chatId, op.projectRef, op.environmentRef, op.state, op.freshId, call.now, id);
    }
  }

  lemma SeedStepRevises(s: State, call: Call, id: Str)
    requires call.op.SeedInquiry?
    ensures RevisedBy(s, Step(s, call).state, id, Commits(Step(s, call).event, id))
  {
    hide Deep;
    hide CreateChat, SoftDeleteChat, SoftDeleteOrganization, DeleteChats, StoreMessages, PersistTurn, FinalizeMessage,
      AppendMessage, Upsert, RecordSweepAttempt, SettleInconclusive, SettleAndClose, SettleStateAndClose;
  }

  lemma AttemptStepRevises(s: State, call: Call, id: Str)
    requires call.op.RecordAttempt?
    ensures RevisedBy(s, Step(s, call).state, id, Commits(Step(s, call).event, id))
  {
    hide Investigation.IsInProgress;
    hide CreateChat, SoftDeleteChat, SoftDeleteOrganization, DeleteChats, StoreMessages, PersistTurn, FinalizeMessage,
      AppendMessage, Upsert, Seed, SettleInconclusive, SettleAndClose, SettleStateAndClose;
  }

  lemma AbandonStepRevises(s: State, call: Call, id: Str)
    requires call.op.Abandon?
    ensures RevisedBy(s, Step(s, call).state, id, Commits(Step(s, call).event, id))
  {
    hide Investigation.SqlSettled, Investigation.IsInProgress;
    var t := SettleInconclusive(s, call.op.id, call.op.note, call.op.otherText, call.now);
    assert Step(s, call) == Outcome(t.state, AbandonEvent(t.result));
  }

  lemma StepRevises(s: State, call: Call, id: Str)
    requires !call.op.HardDelete?
    ensures RevisedBy(s, Step(s, call).state, id, Commits(Step(s, call).event, id))
  {
    hide Step, Commits;
    match call.op {
      case Turn(_, _, _, _, _) => TurnRevises(s, call.op, call.now, id);
      case SweepSettle(_, _, _, _) => SweepSettleRevises(s, call.op, call.now, id);
      case SettleState(_, _, _, _, _, _, _) => SettleStateRevises(s, call.op, call.now, id);
      case UpsertInquiry(_, _, _, _, _, _) => UpsertStepRevises(s, call, id);
      case SeedInquiry(_, _, _, _, _) => SeedStepRevises(s, call, id);
      case RecordAttempt(_) => AttemptStepRevises(s, call, id);
      case Abandon(_, _, _) => AbandonStepRevises(s, call, id);
      case _ => ChatStepRevises(s, call, id);
    }
  }

  /** All the commits of `id` that the calls of a run report. */
  function TotalCommits(s: State, calls: seq<Call>, id: Str): nat {
    if calls == [] then 0
    else
      var n := |calls| - 1;
      TotalCommits(s, calls[..n], id) + Commits(EventAt(s, calls, n), id)
  }

  /** No hard delete of the run hits the row: whenever it is there, its chat is spared. */
  predicate RunSparesRow(s: State, calls: seq<Call>, id: Str) {
    calls == []
    || (var n := |calls| - 1;
        && RunSparesRow(s, calls[..n], id)
        && var before := RunState(s, calls[..n]);
           id in before.investigations ==> Spares(calls[n], before.investigations[id].chatId))
  }

  lemma SparedStepRevises(s: State, call: Call, id: Str)
    requires id in s.investigations ==> Spares(call, s.investigations[id].chatId)
    ensures RevisedBy(s, Step(s, call).state, id, Commits(Step(s, call).event, id))
  {
    hide Commits;
    if call.op.HardDelete? { HardDeleteRevisesNothing(s, call, id); } else { StepRevises(s, call, id); }
  }

  lemma HardDeleteRevisesNothing(s: State, call: Call, id: Str)
    requires call.op.HardDelete? && (id in s.investigations ==> Spares(call, s.investigations[id].chatId))
    ensures RevisedBy(s, Step(s, call).state, id, Commits(Step(s, call).event, id))
  {
  }

  /**
    While the row is spared, its revision is the count of successful commits reported for it,
    and its chat, project and environment never change, whatever else is deleted.
   */
  lemma {:induction false} RevisionCountsCommits(s: State, calls: seq<Call>, id: Str)
    requires RunSparesRow(s, calls, id)
    ensures RevisedBy(s, RunState(s, calls), id, TotalCommits(s, calls, id))
  {
    hide Step, Commits, Spares;
    if calls != [] {
      var n := |calls| - 1;
      RevisionCountsCommits(s, calls[..n], id);
      SparedStepRevises(RunState(s, calls[..n]), calls[n], id);
      assert calls[..n] == calls[..|calls| - 1];
    }
  }

  /** A row that is there is spared by every run that spares its chat. */
  lemma {:induction false} SparedChatSparesItsRows(s: State, calls: seq<Call>, id: Str)
    requires id in s.investigations && AllSpare(calls, s.investigations[id].chatId)
    ensures RunSparesRow(s, calls, id)
  {
    hide Step, Spares;
    if calls != [] {
      var n := |calls| - 1;
      SparedChatSparesItsRows(s, calls[..n], id);
      RevisionCountsCommits(s, calls[..n], id);
    }
  }

  /** From an empty store, the revision is the whole count. */
  lemma RevisionIsItsCommitCount(calls: seq<Call>, id: Str)
    requires RunSparesRow(EMPTY, calls, id)
    ensures RevisionOf(RunState(EMPTY, calls), id) == TotalCommits(EMPTY, calls, id)
  {
    RevisionCountsCommits(EMPTY, calls, id);
  }
}
