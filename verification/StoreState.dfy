/**
  The tables of the dashboard agent's store and what each query does to them, as functions.
  A transaction either commits a new state or is rolled back with an error.
 */
module StoreState {
  import opened Text
  import opened Json
  import opened WellFormed
  import Investigation

  type Time = int

  datatype Chat = Chat(
    organizationId: Str,
    userId: Str,
    next: nat,
    lastMessageAt: Option<Time>,
    updatedAt: Time,
    deletedAt: Option<Time>)

  datatype MessageKey = MessageKey(chatId: Str, messageId: Str)

  datatype Message = Message(position: nat, role: Str, body: Value)

  datatype Session = Session(publicAccessToken: Str, lastEventId: Option<Str>, runId: Option<Str>)

  datatype Inquiry = Inquiry(
    chatId: Str,
    projectRef: Str,
    environmentRef: Str,
    revision: nat,
    state: Value,
    sweepAttempts: nat,
    lastSweepAttemptAt: Option<Time>,
    updatedAt: Time)

  datatype EvalKey = EvalKey(chatId: Str, turn: nat)

  datatype SubmissionKey = SubmissionKey(chatId: Str, clientRequestId: Str)

  datatype WatchStatus = Active | Fired | Expired | Cancelled

  /** `Owed` is the source's `pending`. */
  datatype DeliveryStatus = NotRequired | Owed | Delivering | Delivered

  /** What deleting a chat and retention look at in a watch. */
  datatype Watch = Watch(
    chatId: Str,
    organizationId: Str,
    status: WatchStatus,
    delivery: DeliveryStatus,
    createdAt: Time,
    lastCheckedAt: Option<Time>,
    firedAt: Option<Time>,
    deliveredAt: Option<Time>,
    cancelledAt: Option<Time>)

  /** One table a field. Evals and submissions are kept with their creation time. */
  datatype State = State(
    chats: map<Str, Chat>,
    messages: map<MessageKey, Message>,
    sessions: map<Str, Session>,
    investigations: map<Str, Inquiry>,
    evals: map<EvalKey, Time>,
    submissions: map<SubmissionKey, Time>,
    watches: map<Str, Watch>)

  datatype StoreError =
    | NoId | NoRole | DuplicateId | RoleMismatch | IdMismatch | NullMessage
    | NotRenderable | CardNotAppended | KeyTaken | Unavailable

  datatype Tx<+T> = Committed(state: State, result: T) | RolledBack(error: StoreError)

  const ID: Str := Lit("id")
  const ROLE: Str := Lit("role")
  const ASSISTANT: Str := Lit("assistant")

  // ---- Messages ----

  /** A non-empty string member. */
  function TextMember(m: Value, key: Str): (r: Option<Str>)
    ensures r.Some? ==> r.value != []
  {
    if !m.Object? then None
    else
      match Get(m.fields, key)
      case Some(String(s)) => if s == [] then None else Some(s)
      case _ => None
  }

  /** `messageIdOf`, None where it throws. */
  function IdOf(m: Value): Option<Str> {
    TextMember(m, ID)
  }

  /** `messageRoleOf`, None where it throws. */
  function RoleOf(m: Value): Option<Str> {
    TextMember(m, ROLE)
  }

  predicate Live(s: State, chatId: Str) {
    chatId in s.chats && s.chats[chatId].deletedAt.None?
  }

  predicate Stored(s: State, chatId: Str, messageId: Str) {
    MessageKey(chatId, messageId) in s.messages
  }

  function Normalised(messages: seq<Value>): (r: seq<Value>)
    ensures |r| == |messages|
  {
    seq(|messages|, i requires 0 <= i < |messages| => Deep(messages[i]))
  }

  predicate HasId(messages: seq<Value>, id: Str) {
    exists m :: m in messages && IdOf(m) == Some(id)
  }

  /** The first message of a batch that is refused: it has no id, or an id the batch already holds. */
  function BatchError(messages: seq<Value>): Option<StoreError> {
    if messages == [] then None
    else
      var init, last := messages[..|messages| - 1], messages[|messages| - 1];
      if BatchError(init).Some? then BatchError(init)
      else if IdOf(last).None? then Some(NoId)
      else if HasId(init, IdOf(last).value) then Some(DuplicateId)
      else None
  }

  /** The messages a batch adds, in batch order. */
  function Missing(s: State, chatId: Str, messages: seq<Value>): (r: seq<Value>)
    ensures forall m :: m in r <==> m in messages && IdOf(m).Some? && !Stored(s, chatId, IdOf(m).value)
  {
    if messages == [] then []
    else
      var init, last := messages[..|messages| - 1], messages[|messages| - 1];
      assert messages == init + [last];
      Missing(s, chatId, init) + (if IdOf(last).Some? && !Stored(s, chatId, IdOf(last).value) then [last] else [])
  }

  /** The batch's message under `id`. */
  function MessageFor(messages: seq<Value>, id: Str): (r: Option<Value>)
    ensures r.Some? ==> r.value in messages && IdOf(r.value) == Some(id)
    ensures r.None? <==> !HasId(messages, id)
  {
    if messages == [] then None
    else if IdOf(messages[0]) == Some(id) then
      assert messages[0] in messages;
      Some(messages[0])
    else
      assert forall m :: m in messages <==> m == messages[0] || m in messages[1..];
      MessageFor(messages[1..], id)
  }

  /** The body a stored row has after a batch whose named messages may be rewritten. */
  function BodyAfter(row: Message, id: Str, messages: seq<Value>, finalizable: set<Str>): (body: Value)
  {
    match MessageFor(messages, id)
    case Some(m) => if id in finalizable && RoleOf(m) == Some(row.role) then m else row.body
    case None => row.body
  }

  function Rewritten(s: State, chatId: Str, messages: seq<Value>, finalizable: set<Str>): map<MessageKey, Message> {
    map k | k in s.messages ::
      if k.chatId == chatId then s.messages[k].(body := BodyAfter(s.messages[k], k.messageId, messages, finalizable))
      else s.messages[k]
  }

  /** Insert messages at consecutive positions. */
  function Inserted(rows: map<MessageKey, Message>, chatId: Str, messages: seq<Value>, start: nat): map<MessageKey, Message>
    requires forall m :: m in messages ==> IdOf(m).Some? && RoleOf(m).Some?
  {
    if messages == [] then rows
    else
      var n := |messages| - 1;
      assert messages[n] in messages;
      Inserted(rows, chatId, messages[..n], start)
        [MessageKey(chatId, IdOf(messages[n]).value) := Message(start + n, RoleOf(messages[n]).value, messages[n])]
  }

  function Reserved(chat: Chat, count: nat, now: Time): Chat {
    chat.(next := chat.next + count, lastMessageAt := Some(now), updatedAt := now)
  }

  /** A message that may be rewritten must say its role. */
  predicate RewritesHaveRoles(s: State, chatId: Str, messages: seq<Value>, finalizable: set<Str>) {
    forall m :: m in messages && IdOf(m).Some? && Stored(s, chatId, IdOf(m).value) && IdOf(m).value in finalizable
      ==> RoleOf(m).Some?
  }

  predicate AllHaveRoles(messages: seq<Value>) {
    forall m :: m in messages ==> RoleOf(m).Some?
  }

  /** `storeChatMessages`. */
  function StoreMessages(s: State, chatId: Str, messages: seq<Value>, finalizable: set<Str>, now: Time): Tx<()> {
    var ms := Normalised(messages);
    if BatchError(ms).Some? then RolledBack(BatchError(ms).value)
    else if !Live(s, chatId) then Committed(s, ())
    else if !RewritesHaveRoles(s, chatId, ms, finalizable) then RolledBack(NoRole)
    else
      var added := Missing(s, chatId, ms);
      var rows := Rewritten(s, chatId, ms, finalizable);
      if added == [] then Committed(s.(messages := rows), ())
      else if !AllHaveRoles(added) then RolledBack(NoRole)
      else
        Committed(s.(
          messages := Inserted(rows, chatId, added, s.chats[chatId].next),
          chats := s.chats[chatId := Reserved(s.chats[chatId], |added|, now)]), ())
  }

  /** `finalizeChatMessage`; it never looks at the chat row. */
  function FinalizeMessage(s: State, chatId: Str, messageId: Str, expectedRole: Str, message: Value): Tx<bool> {
    if RoleOf(message).None? then RolledBack(NoRole)
    else if RoleOf(message).value != expectedRole then RolledBack(RoleMismatch)
    else if IdOf(message).None? then RolledBack(NoId)
    else if IdOf(message).value != messageId then RolledBack(IdMismatch)
    else
      var k := MessageKey(chatId, messageId);
      if k in s.messages && s.messages[k].role == expectedRole then
        Committed(s.(messages := s.messages[k := s.messages[k].(body := message)]), true)
      else Committed(s, false)
  }

  /** Who an append is for: any chat by id, or one owner's; an empty organization is not checked. */
  datatype Scope = AnyOwner | Owner(userId: Str, organizationId: Str)

  predicate InScope(chat: Chat, scope: Scope) {
    scope.Owner? ==>
      && chat.userId == scope.userId
      && (scope.organizationId != [] ==> chat.organizationId == scope.organizationId)
  }

  /** `appendOneMessage`, as one statement. */
  function AppendMessage(s: State, chatId: Str, message: Value, scope: Scope, now: Time): Tx<bool> {
    var m := Deep(message);
    if IdOf(m).None? then RolledBack(NoId)
    else if RoleOf(m).None? then RolledBack(NoRole)
    else if Live(s, chatId) && InScope(s.chats[chatId], scope) && !Stored(s, chatId, IdOf(m).value) then
      var chat := s.chats[chatId];
      Committed(s.(
        messages := s.messages[MessageKey(chatId, IdOf(m).value) := Message(chat.next, RoleOf(m).value, m)],
        chats := s.chats[chatId := Reserved(chat, 1, now)]), true)
    else Committed(s, false)
  }

  // ---- Chats ----

  function CreateChat(s: State, chatId: Str, organizationId: Str, userId: Str, now: Time): State {
    if chatId in s.chats then s
    else s.(chats := s.chats[chatId := Chat(organizationId, userId, 1, None, now, None)])
  }

  /** Nothing will happen to the watch any more, and no wake is owed for it. */
  predicate IsFinished(w: Watch) {
    !w.status.Active? && (w.delivery.NotRequired? || w.delivery.Delivered?)
  }

  /** `cancelActiveWatchesForChat`. */
  function CancelledForChat(watches: map<Str, Watch>, chatId: Str, now: Time): map<Str, Watch> {
    map w | w in watches ::
      if watches[w].chatId == chatId && watches[w].status.Active?
      then watches[w].(status := Cancelled, delivery := NotRequired, cancelledAt := Some(now)) else watches[w]
  }

  /** A wake that is still owed, or being delivered, no longer is. */
  function DeliverySettled(w: Watch): Watch {
    if (w.status.Fired? || w.status.Expired?) && (w.delivery.Owed? || w.delivery.Delivering?) then w.(delivery := NotRequired)
    else w
  }

  /** `settlePendingWatchDeliveriesForChat`. */
  function SettledForChat(watches: map<Str, Watch>, chatId: Str): map<Str, Watch> {
    map w | w in watches :: if watches[w].chatId == chatId then DeliverySettled(watches[w]) else watches[w]
  }

  /** `settlePendingWatchDeliveriesForOrganization`. */
  function SettledForOrganization(watches: map<Str, Watch>, organizationId: Str): map<Str, Watch> {
    map w | w in watches :: if watches[w].organizationId == organizationId then DeliverySettled(watches[w]) else watches[w]
  }

  function SoftDeleteChat(s: State, chatId: Str, userId: Str, organizationId: Str, now: Time): State {
    if Live(s, chatId) && s.chats[chatId].userId == userId && s.chats[chatId].organizationId == organizationId then
      s.(chats := s.chats[chatId := s.chats[chatId].(deletedAt := Some(now), updatedAt := now)],
        watches := SettledForChat(CancelledForChat(s.watches, chatId, now), chatId))
    else s
  }

  /** An organization's watches are not cancelled with its chats; only the wakes they owe are settled. */
  function SoftDeleteOrganization(s: State, organizationId: Str, now: Time): State {
    s.(chats := map c | c in s.chats ::
        if s.chats[c].organizationId == organizationId && s.chats[c].deletedAt.None?
        then s.chats[c].(deletedAt := Some(now), updatedAt := now) else s.chats[c],
      watches := SettledForOrganization(s.watches, organizationId))
  }

  function MessagesWithout(rows: map<MessageKey, Message>, ids: set<Str>): map<MessageKey, Message> {
    map k | k in rows && k.chatId !in ids :: rows[k]
  }

  function InquiriesWithout(rows: map<Str, Inquiry>, ids: set<Str>): map<Str, Inquiry> {
    map i | i in rows && rows[i].chatId !in ids :: rows[i]
  }

  function EvalsWithout(rows: map<EvalKey, Time>, ids: set<Str>): map<EvalKey, Time> {
    map k | k in rows && k.chatId !in ids :: rows[k]
  }

  function SubmissionsWithout(rows: map<SubmissionKey, Time>, ids: set<Str>): map<SubmissionKey, Time> {
    map k | k in rows && k.chatId !in ids :: rows[k]
  }

  function WatchesWithout(rows: map<Str, Watch>, ids: set<Str>): map<Str, Watch> {
    map w | w in rows && rows[w].chatId !in ids :: rows[w]
  }

  /** `deleteChatsByIds`: every table that is keyed by chat, then the chats. */
  function DeleteChats(s: State, ids: set<Str>): State {
    State(
      s.chats - ids,
      MessagesWithout(s.messages, ids),
      s.sessions - ids,
      InquiriesWithout(s.investigations, ids),
      EvalsWithout(s.evals, ids),
      SubmissionsWithout(s.submissions, ids),
      WatchesWithout(s.watches, ids))
  }

  // ---- Investigations ----

  datatype Refusal = NotFound | ContextMismatch | ChatMissing

  datatype UpsertResult = Upserted(id: Str, revision: nat, created: bool) | Refused(refusal: Refusal)

  predicate InContext(row: Inquiry, chatId: Str, projectRef: Str, environmentRef: Str) {
    row.chatId == chatId && row.projectRef == projectRef && row.environmentRef == environmentRef
  }

  function Opened(chatId: Str, projectRef: Str, environmentRef: Str, state: Value, now: Time): Inquiry {
    Inquiry(chatId, projectRef, environmentRef, 0, Deep(state), 0, None, now)
  }

  /** `upsertInvestigationRevision`; without an id it opens a row under the generated `freshId`. */
  function Upsert(s: State, id: Str, chatId: Str, projectRef: Str, environmentRef: Str, state: Value, freshId: Str, now: Time)
    : Tx<UpsertResult>
  {
    if id == [] then
      if freshId in s.investigations then RolledBack(KeyTaken)
      else
        Committed(s.(investigations := s.investigations[freshId := Opened(chatId, projectRef, environmentRef, state, now)]),
          Upserted(freshId, 0, true))
    else if id !in s.investigations then Committed(s, Refused(NotFound))
    else
      var row := s.investigations[id];
      if InContext(row, chatId, projectRef, environmentRef) then
        Committed(s.(investigations := s.investigations[id :=
          row.(state := Deep(state), revision := row.revision + 1, updatedAt := now)]),
          Upserted(id, row.revision + 1, false))
      else Committed(s, Refused(ContextMismatch))
  }

  datatype SeedResult = Seeded(created: bool) | SeedRefused

  function Seed(s: State, id: Str, chatId: Str, projectRef: Str, environmentRef: Str, state: Value, now: Time): Tx<SeedResult> {
    if id !in s.investigations then
      Committed(s.(investigations := s.investigations[id := Opened(chatId, projectRef, environmentRef, state, now)]), Seeded(true))
    else if InContext(s.investigations[id], chatId, projectRef, environmentRef) then Committed(s, Seeded(false))
    else Committed(s, SeedRefused)
  }

  /** `recordInvestigationSweepAttempt`; the row keeps its `updatedAt`. */
  function RecordSweepAttempt(s: State, id: Str, now: Time): Tx<Option<nat>> {
    if id in s.investigations && Investigation.IsInProgress(s.investigations[id].state) then
      var row := s.investigations[id];
      Committed(s.(investigations := s.investigations[id :=
        row.(sweepAttempts := row.sweepAttempts + 1, lastSweepAttemptAt := Some(now))]), Some(row.sweepAttempts + 1))
    else Committed(s, None)
  }

  datatype Settled = Settled(id: Str, revision: nat, state: Value)

  /** `settleInvestigationAsInconclusive`: only a row that is still in progress. */
  function SettleInconclusive(s: State, id: Str, note: Str, otherText: Str, now: Time): Tx<Option<Settled>> {
    if id in s.investigations && Investigation.IsInProgress(s.investigations[id].state) then
      var row := s.investigations[id];
      var state := Object(Investigation.SqlSettled(row.state.fields, note, otherText));
      Committed(s.(investigations := s.investigations[id :=
        row.(state := state, revision := row.revision + 1, updatedAt := now)]),
        Some(Settled(id, row.revision + 1, state)))
    else Committed(s, None)
  }

  datatype SettledCard = SettledCard(settled: Settled, closed: bool)

  /** `settleInvestigationAndCloseCard`. */
  function SettleAndClose(s: State, id: Str, chatId: Str, note: Str, otherText: Str, now: Time): Tx<Option<SettledCard>> {
    match SettleInconclusive(s, id, note, otherText, now)
    case RolledBack(e) => RolledBack(e)
    case Committed(_, None) => Committed(s, None)
    case Committed(s', Some(settled)) =>
      match Investigation.SettlementMessage(settled.id, settled.revision, settled.state, None)
      case None => RolledBack(NotRenderable)
      case Some(card) =>
        match AppendMessage(s', chatId, card, AnyOwner, now)
        case RolledBack(e) => RolledBack(e)
        case Committed(s'', closed) => Committed(s'', Some(SettledCard(settled, closed)))
  }

  datatype CloseResult = Closed(id: Str, revision: nat, card: Value, closed: bool) | CloseRefused(refusal: Refusal)

  /** `settleInvestigationStateAndCloseCard`. */
  function SettleStateAndClose(s: State, id: Str, chatId: Str, projectRef: Str, environmentRef: Str,
                               state: Value, messageId: Str, freshId: Str, now: Time): Tx<CloseResult>
  {
    if id !in s.investigations then Committed(s, CloseRefused(NotFound))
    else if !InContext(s.investigations[id], chatId, projectRef, environmentRef) then Committed(s, CloseRefused(ContextMismatch))
    else if !Live(s, chatId) then Committed(s, CloseRefused(ChatMissing))
    else if Stored(s, chatId, messageId) then
      Committed(s, Closed(id, s.investigations[id].revision, s.messages[MessageKey(chatId, messageId)].body, false))
    else
      match Upsert(s, id, chatId, projectRef, environmentRef, state, freshId, now)
      case RolledBack(e) => RolledBack(e)
      case Committed(_, Refused(r)) => Committed(s, CloseRefused(r))
      case Committed(s', Upserted(rid, revision, _)) =>
        match Investigation.SettlementMessage(rid, revision, state, Some(messageId))
        case None => RolledBack(NotRenderable)
        case Some(card) =>
          match AppendMessage(s', chatId, card, AnyOwner, now)
          case RolledBack(e) => RolledBack(e)
          case Committed(s'', closed) =>
            if closed then Committed(s'', Closed(rid, revision, card, true)) else RolledBack(CardNotAppended)
  }

  // ---- A whole turn ----

  /** An investigation to close with the turn; `freshId` is what the database would generate for it. */
  datatype Pending = Pending(id: Str, projectRef: Str, environmentRef: Str, state: Value, freshId: Str)

  datatype TurnSettlements = TurnSettlements(settled: seq<Settled>, cards: seq<Value>)

  /** The settlements of a turn, in order, with the card each of them owes. */
  function SettlePending(s: State, chatId: Str, pending: seq<Pending>, now: Time): Tx<TurnSettlements> {
    if pending == [] then Committed(s, TurnSettlements([], []))
    else
      var init, last := pending[..|pending| - 1], pending[|pending| - 1];
      match SettlePending(s, chatId, init, now)
      case RolledBack(e) => RolledBack(e)
      case Committed(s', before) => SettleOne(s', chatId, last, before, now)
  }

  function SettleOne(s: State, chatId: Str, p: Pending, before: TurnSettlements, now: Time): Tx<TurnSettlements> {
    match Upsert(s, p.id, chatId, p.projectRef, p.environmentRef, p.state, p.freshId, now)
    case RolledBack(e) => RolledBack(e)
    case Committed(_, Refused(_)) => Committed(s, before)
    case Committed(s', Upserted(id, revision, _)) =>
      match Investigation.SettlementMessage(id, revision, p.state, None)
      case None => RolledBack(NotRenderable)
      case Some(card) =>
        Committed(s', TurnSettlements(before.settled + [Settled(id, revision, p.state)], before.cards + [card]))
  }

  /** `message.id` where it is a string, empty or not. */
  function RawId(m: Value): Option<Str> {
    if !m.Object? then None
    else
      match Get(m.fields, ID)
      case Some(String(s)) => Some(s)
      case _ => None
  }

  function RawIds(messages: seq<Value>): set<Str> {
    set m | m in messages && RawId(m).Some? :: RawId(m).value
  }

  /** The cards the turn's own messages do not already carry. */
  function NewCards(cards: seq<Value>, existing: set<Str>): seq<Value> {
    if cards == [] then []
    else
      var init, last := cards[..|cards| - 1], cards[|cards| - 1];
      NewCards(init, existing) + (if RawId(last).Some? && RawId(last).value in existing then [] else [last])
  }

  const SETTLEMENT_ID_PREFIX: Str := Investigation.SETTLEMENT_PREFIX + [Investigation.COLON]

  /** A settlement card is never the turn's to rewrite. */
  function Finalizable(ids: set<Str>): set<Str> {
    set id | id in ids && !(SETTLEMENT_ID_PREFIX <= id)
  }

  /** `persistTurn`. */
  function PersistTurn(s: State, chatId: Str, messages: seq<Value>, session: Session, pending: seq<Pending>,
                       finalizeIds: set<Str>, now: Time): Tx<seq<Settled>>
  {
    match SettlePending(s, chatId, pending, now)
    case RolledBack(e) => RolledBack(e)
    case Committed(s', settlements) =>
      if Null in messages then RolledBack(NullMessage)
      else
        var all := messages + NewCards(settlements.cards, RawIds(messages));
        match StoreMessages(s', chatId, all, Finalizable(finalizeIds), now)
        case RolledBack(e) => RolledBack(e)
        case Committed(s'', _) => Committed(s''.(sessions := s''.sessions[chatId := session]), settlements.settled)
  }
}
