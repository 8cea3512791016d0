/**
  The position allocator with its steps pulled apart: any number of writers check, reserve and
  insert, in any interleaving. The ledger says for every position handed out who has it.
 */
module PositionAllocator {
  import opened Text
  import opened StoreState

  datatype ChatRow = ChatRow(next: nat, live: bool)

  datatype Slot = Slot(chatId: Str, position: nat)

  datatype Owner = Row(messageId: Str) | Held(writer: nat) | Lost(batch: bool)

  /** A writer between its steps; `batch` writers lock the chat before they check. */
  datatype Writer =
    | Checked(chatId: Str, missing: seq<Str>, batch: bool)
    | Holding(chatId: Str, pending: seq<Str>, start: nat, batch: bool)
    | Finished

  datatype Table = Table(
    chats: map<Str, ChatRow>,
    rows: map<MessageKey, nat>,
    writers: map<nat, Writer>,
    ledger: map<Slot, Owner>)

  datatype Move =
    | Check(w: nat, chatId: Str, ids: seq<Str>, batch: bool)
    | Reserve(w: nat)
    | Insert(w: nat)
    | Create(chatId: Str)
    | SoftDelete(chatId: Str)

  const NOTHING: Table := Table(map[], map[], map[], map[])

  predicate Busy(s: Table, w: nat) {
    w in s.writers && !s.writers[w].Finished?
  }

  predicate IsLive(s: Table, chatId: Str) {
    chatId in s.chats && s.chats[chatId].live
  }

  predicate Distinct(ids: seq<Str>) {
    forall i, j :: 0 <= i < j < |ids| ==> ids[i] != ids[j]
  }

  /** The ids the chat does not store yet, in order. */
  function Unstored(rows: map<MessageKey, nat>, chatId: Str, ids: seq<Str>): seq<Str> {
    if ids == [] then []
    else
      var n := |ids| - 1;
      Unstored(rows, chatId, ids[..n]) + (if MessageKey(chatId, ids[n]) in rows then [] else [ids[n]])
  }

  lemma {:induction false} UnstoredMembers(rows: map<MessageKey, nat>, chatId: Str, ids: seq<Str>)
    ensures forall id :: id in Unstored(rows, chatId, ids) <==> id in ids && MessageKey(chatId, id) !in rows
  {
    if ids != [] {
      var n := |ids| - 1;
      assert ids == ids[..n] + [ids[n]];
      UnstoredMembers(rows, chatId, ids[..n]);
    }
  }

  /** See which ids are missing. An append brings one id; a batch none twice, and only to a live chat. */
  function AfterCheck(s: Table, w: nat, chatId: Str, ids: seq<Str>, batch: bool): Table {
    if Busy(s, w) || !Distinct(ids) || (!batch && |ids| != 1) then s
    else
      var missing := Unstored(s.rows, chatId, ids);
      s.(writers := s.writers[w :=
        if missing == [] || (batch && !IsLive(s, chatId)) then Finished else Checked(chatId, missing, batch)])
  }

  function Reserved(chatId: Str, start: nat, count: nat, w: nat): map<Slot, Owner> {
    if count == 0 then map[] else Reserved(chatId, start, count - 1, w)[Slot(chatId, start + count - 1) := Held(w)]
  }

  /** The reservation is exactly those positions, all of them the writer's. */
  lemma {:induction false} ReservedSlot(chatId: Str, start: nat, count: nat, w: nat, slot: Slot)
    ensures slot in Reserved(chatId, start, count, w) <==> slot.chatId == chatId && start <= slot.position < start + count
    ensures slot in Reserved(chatId, start, count, w) ==> Reserved(chatId, start, count, w)[slot] == Held(w)
    decreases count
  {
    if count > 0 { ReservedSlot(chatId, start, count - 1, w, slot); }
  }

  /** Take as many positions as ids are missing. */
  function AfterReserve(s: Table, w: nat): Table {
    if !(w in s.writers && s.writers[w].Checked?) then s
    else
      var Checked(c, missing, batch) := s.writers[w];
      if !IsLive(s, c) then s.(writers := s.writers[w := Finished])
      else
        var next := s.chats[c].next;
        Table(
          s.chats[c := s.chats[c].(next := next + |missing|)],
          s.rows,
          s.writers[w := Holding(c, missing, next, batch)],
          s.ledger + Reserved(c, next, |missing|, w))
  }

  /** Insert the next message; an id that got stored meanwhile is skipped, and its position is lost. */
  function AfterInsert(s: Table, w: nat): Table {
    if !(w in s.writers && s.writers[w].Holding?) || s.writers[w].pending == [] then s
    else
      var Holding(c, pending, start, batch) := s.writers[w];
      var k := MessageKey(c, pending[0]);
      Table(
        s.chats,
        if k in s.rows then s.rows else s.rows[k := start],
        s.writers[w := if |pending| == 1 then Finished else Holding(c, pending[1..], start + 1, batch)],
        s.ledger[Slot(c, start) := if k in s.rows then Lost(batch) else Row(pending[0])])
  }

  function After(s: Table, m: Move): Table {
    match m
    case Check(w, c, ids, batch) => AfterCheck(s, w, c, ids, batch)
    case Reserve(w) => AfterReserve(s, w)
    case Insert(w) => AfterInsert(s, w)
    case Create(c) => if c in s.chats then s else s.(chats := s.chats[c := ChatRow(1, true)])
    case SoftDelete(c) => if c in s.chats then s.(chats := s.chats[c := s.chats[c].(live := false)]) else s
  }

  function Run(s: Table, moves: seq<Move>): Table {
    if moves == [] then s else After(Run(s, moves[..|moves| - 1]), moves[|moves| - 1])
  }

  // ---- Every position is accounted for ----

  predicate Holds(s: Table, w: nat, slot: Slot) {
    && w in s.writers && s.writers[w].Holding?
    && s.writers[w].chatId == slot.chatId
    && s.writers[w].start <= slot.position < s.writers[w].start + |s.writers[w].pending|
  }

  predicate HandedOut(s: Table, slot: Slot) {
    slot.chatId in s.chats && 1 <= slot.position < s.chats[slot.chatId].next
  }

  /** The ledger lists exactly the positions handed out, and agrees with the rows and the writers. */
  ghost predicate Balanced(s: Table) {
    && (forall c :: c in s.chats ==> s.chats[c].next >= 1)
    && (forall slot :: slot in s.ledger <==> HandedOut(s, slot))
    && (forall k :: k in s.rows ==> Slot(k.chatId, s.rows[k]) in s.ledger && s.ledger[Slot(k.chatId, s.rows[k])] == Row(k.messageId))
    && (forall slot :: slot in s.ledger && s.ledger[slot].Row? ==>
          var k := MessageKey(slot.chatId, s.ledger[slot].messageId); k in s.rows && s.rows[k] == slot.position)
    && (forall slot, w :: Holds(s, w, slot) <==> slot in s.ledger && s.ledger[slot] == Held(w))
  }

  lemma CheckKeepsBalance(s: Table, w: nat, c: Str, ids: seq<Str>, batch: bool)
    requires Balanced(s)
    ensures Balanced(AfterCheck(s, w, c, ids, batch))
  {
    hide Distinct;
    var s' := AfterCheck(s, w, c, ids, batch);
    forall slot, v ensures Holds(s', v, slot) <==> Holds(s, v, slot) {}
    forall slot ensures HandedOut(s', slot) <==> HandedOut(s, slot) {}
  }

  lemma ReserveKeepsBalance(s: Table, w: nat)
    requires Balanced(s)
    ensures Balanced(AfterReserve(s, w))
  {
    hide Reserved, Balanced;
    var s' := AfterReserve(s, w);
    if w in s.writers && s.writers[w].Checked? && IsLive(s, s.writers[w].chatId) {
      ReservationKeepsBalance(s, w);
    } else {
      IdleReserveKeepsBalance(s, w);
    }
  }

  lemma IdleReserveKeepsBalance(s: Table, w: nat)
    requires Balanced(s) && !(w in s.writers && s.writers[w].Checked? && IsLive(s, s.writers[w].chatId))
    ensures Balanced(AfterReserve(s, w))
  {
    var s' := AfterReserve(s, w);
    forall slot, v ensures Holds(s', v, slot) <==> Holds(s, v, slot) {}
    forall slot ensures HandedOut(s', slot) <==> HandedOut(s, slot) {}
  }

  lemma ReservationKeepsBalance(s: Table, w: nat)
    requires Balanced(s) && w in s.writers && s.writers[w].Checked? && IsLive(s, s.writers[w].chatId)
    ensures Balanced(AfterReserve(s, w))
  {
    hide Reserved;
    var s' := AfterReserve(s, w);
    var c, next, n := s.writers[w].chatId, s.chats[s.writers[w].chatId].next, |s.writers[w].missing|;
    forall slot ensures slot in s'.ledger <==> HandedOut(s', slot) {
      ReservedSlot(c, next, n, w, slot);
      assert slot in s.ledger <==> HandedOut(s, slot);
    }
    forall slot, v ensures Holds(s', v, slot) <==> slot in s'.ledger && s'.ledger[slot] == Held(v) {
      ReservedSlot(c, next, n, w, slot);
      assert Holds(s, v, slot) <==> slot in s.ledger && s.ledger[slot] == Held(v);
      assert slot in s.ledger <==> HandedOut(s, slot);
    }
    forall k | k in s'.rows ensures Slot(k.chatId, s'.rows[k]) in s'.ledger && s'.ledger[Slot(k.chatId, s'.rows[k])] == Row(k.messageId) {
      ReservedSlot(c, next, n, w, Slot(k.chatId, s'.rows[k]));
      assert HandedOut(s, Slot(k.chatId, s.rows[k]));
    }
    forall slot | slot in s'.ledger && s'.ledger[slot].Row?
      ensures var k := MessageKey(slot.chatId, s'.ledger[slot].messageId); k in s'.rows && s'.rows[k] == slot.position
    {
      ReservedSlot(c, next, n, w, slot);
    }
  }

  lemma InsertKeepsBalance(s: Table, w: nat)
    requires Balanced(s)
    ensures Balanced(AfterInsert(s, w))
  {
    var s' := AfterInsert(s, w);
    if w in s.writers && s.writers[w].Holding? && s.writers[w].pending != [] {
      var mine := Slot(s.writers[w].chatId, s.writers[w].start);
      assert Holds(s, w, mine);
      forall slot ensures slot in s'.ledger <==> HandedOut(s', slot) {
        assert HandedOut(s, slot) <==> HandedOut(s', slot);
      }
      forall slot, v ensures Holds(s', v, slot) <==> slot in s'.ledger && s'.ledger[slot] == Held(v) {
        assert Holds(s, v, slot) <==> slot in s.ledger && s.ledger[slot] == Held(v);
        assert slot == Slot(slot.chatId, slot.position);
      }
    }
  }

  lemma ChatMoveKeepsBalance(s: Table, m: Move)
    requires Balanced(s) && (m.Create? || m.SoftDelete?)
    ensures Balanced(After(s, m))
  {
    var s' := After(s, m);
    forall slot, v ensures Holds(s', v, slot) <==> Holds(s, v, slot) {}
    forall slot ensures HandedOut(s', slot) <==> HandedOut(s, slot) {}
  }

  lemma MoveKeepsBalance(s: Table, m: Move)
    requires Balanced(s)
    ensures Balanced(After(s, m))
  {
    hide Balanced;
    match m {
      case Check(w, c, ids, batch) => CheckKeepsBalance(s, w, c, ids, batch);
      case Reserve(w) => ReserveKeepsBalance(s, w);
      case Insert(w) => InsertKeepsBalance(s, w);
      case Create(_) => ChatMoveKeepsBalance(s, m);
      case SoftDelete(_) => ChatMoveKeepsBalance(s, m);
    }
  }

  /** Whatever the interleaving, every position handed out is one row's, one writer's, or lost. */
  lemma {:induction false} EveryInterleavingBalances(moves: seq<Move>)
    ensures Balanced(Run(NOTHING, moves))
  {
    hide After;
    if moves != [] {
      EveryInterleavingBalances(moves[..|moves| - 1]);
      MoveKeepsBalance(Run(NOTHING, moves[..|moves| - 1]), moves[|moves| - 1]);
    }
  }

  // ---- What that means ----

  /** No two messages share a position, none is at or past the counter, and none sits on a position another writer holds. */
  lemma PositionsNeverClash(moves: seq<Move>, k: MessageKey, k': MessageKey, w: nat)
    requires var s := Run(NOTHING, moves); k in s.rows && k' in s.rows && k.chatId == k'.chatId
    ensures var s := Run(NOTHING, moves);
      && (k != k' ==> s.rows[k] != s.rows[k'])
      && k.chatId in s.chats && 1 <= s.rows[k] < s.chats[k.chatId].next
      && !Holds(s, w, Slot(k.chatId, s.rows[k]))
  {
    hide Run;
    EveryInterleavingBalances(moves);
    var s := Run(NOTHING, moves);
    assert s.ledger[Slot(k.chatId, s.rows[k])] == Row(k.messageId);
    assert HandedOut(s, Slot(k.chatId, s.rows[k]));
  }

  /** Two writers never hold the same position. */
  lemma ReservationsAreDisjoint(moves: seq<Move>, w: nat, w': nat, slot: Slot)
    requires var s := Run(NOTHING, moves); Holds(s, w, slot) && Holds(s, w', slot)
    ensures w == w'
  {
    hide Run;
    EveryInterleavingBalances(moves);
  }

  /** The next insert of any writer finds its position free: the unique constraint on positions cannot fire. */
  lemma UniqueConstraintNeverFires(moves: seq<Move>, w: nat)
    requires var s := Run(NOTHING, moves); w in s.writers && s.writers[w].Holding? && s.writers[w].pending != []
    ensures var s := Run(NOTHING, moves);
      forall k :: k in s.rows && k.chatId == s.writers[w].chatId ==> s.rows[k] != s.writers[w].start
  {
    hide Run;
    EveryInterleavingBalances(moves);
    var s := Run(NOTHING, moves);
    assert Holds(s, w, Slot(s.writers[w].chatId, s.writers[w].start));
  }

  predicate HasRowAt(s: Table, slot: Slot) {
    exists k :: k in s.rows && k.chatId == slot.chatId && s.rows[k] == slot.position
  }

  /** A gap is a position some writer still holds or one that an id conflict lost, and nothing else. */
  lemma GapsAreHeldOrLost(moves: seq<Move>, slot: Slot)
    requires HandedOut(Run(NOTHING, moves), slot)
    ensures var s := Run(NOTHING, moves);
      !HasRowAt(s, slot) <==> (exists w :: Holds(s, w, slot)) || (slot in s.ledger && s.ledger[slot].Lost?)
  {
    hide Run;
    EveryInterleavingBalances(moves);
    var s := Run(NOTHING, moves);
    if s.ledger[slot].Row? {
      assert MessageKey(slot.chatId, s.ledger[slot].messageId) in s.rows;
    } else if s.ledger[slot].Held? {
      assert Holds(s, s.ledger[slot].writer, slot);
    }
    if HasRowAt(s, slot) {
      var k :| k in s.rows && k.chatId == slot.chatId && s.rows[k] == slot.position;
      assert s.ledger[Slot(k.chatId, s.rows[k])] == Row(k.messageId);
      assert slot == Slot(k.chatId, s.rows[k]);
    }
  }

  const CHAT: Str := [0x63]
  const MESSAGE: Str := [0x6D]

  /** Two appends of one message, each checking before the other inserts. */
  function Race(): seq<Move> {
    [Create(CHAT), Check(0, CHAT, [MESSAGE], false), Check(1, CHAT, [MESSAGE], false),
     Reserve(0), Reserve(1), Insert(0), Insert(1)]
  }

  lemma RaceStep(moves: seq<Move>, m: Move)
    ensures Run(NOTHING, moves + [m]) == After(Run(NOTHING, moves), m)
  {
    assert (moves + [m])[..|moves|] == moves;
  }

  /** The race while its writers are at their steps. */
  function Racing(next: nat, rows: map<MessageKey, nat>, first: Writer, second: Writer, ledger: map<Slot, Owner>): Table {
    Table(map[CHAT := ChatRow(next, true)], rows, map[0 := first, 1 := second], ledger)
  }

  lemma RaceReaches(s: Table)
    requires s == Racing(1, map[], Checked(CHAT, [MESSAGE], false), Checked(CHAT, [MESSAGE], false), map[])
    ensures After(After(s, Reserve(0)), Reserve(1)) ==
      Racing(3, map[], Holding(CHAT, [MESSAGE], 1, false), Holding(CHAT, [MESSAGE], 2, false),
             map[Slot(CHAT, 1) := Held(0), Slot(CHAT, 2) := Held(1)])
  {
    var one := After(s, Reserve(0));
    assert one == Racing(2, map[], Holding(CHAT, [MESSAGE], 1, false), s.writers[1], map[Slot(CHAT, 1) := Held(0)]);
  }

  lemma RaceBegins()
    ensures Run(NOTHING, Race()[..3]) == Racing(1, map[], Checked(CHAT, [MESSAGE], false), Checked(CHAT, [MESSAGE], false), map[])
  {
    assert Race()[..3] == [] + [Create(CHAT)] + [Check(0, CHAT, [MESSAGE], false)] + [Check(1, CHAT, [MESSAGE], false)];
    RaceStep([], Create(CHAT));
    RaceStep([] + [Create(CHAT)], Check(0, CHAT, [MESSAGE], false));
    RaceStep([] + [Create(CHAT)] + [Check(0, CHAT, [MESSAGE], false)], Check(1, CHAT, [MESSAGE], false));
    assert Unstored(map[], CHAT, [MESSAGE]) == [MESSAGE];
  }

  lemma RaceEnds(s: Table)
    requires s == Racing(3, map[], Holding(CHAT, [MESSAGE], 1, false), Holding(CHAT, [MESSAGE], 2, false),
                         map[Slot(CHAT, 1) := Held(0), Slot(CHAT, 2) := Held(1)])
    ensures After(After(s, Insert(0)), Insert(1)) ==
      Racing(3, map[MessageKey(CHAT, MESSAGE) := 1], Finished, Finished, map[Slot(CHAT, 1) := Row(MESSAGE), Slot(CHAT, 2) := Lost(false)])
  {
    assert After(s, Insert(0)) ==
      Racing(3, map[MessageKey(CHAT, MESSAGE) := 1], Finished, Holding(CHAT, [MESSAGE], 2, false),
             map[Slot(CHAT, 1) := Row(MESSAGE), Slot(CHAT, 2) := Held(1)]);
  }

  lemma RaceMoves()
    ensures |Race()| == 7
    ensures Race() == Race()[..3] + [Reserve(0)] + [Reserve(1)] + [Insert(0)] + [Insert(1)]
  {
  }

  /** The lost race stores the message once and leaves a gap behind it. */
  lemma ALostRaceLeavesAGap()
    ensures Run(NOTHING, Race()) ==
      Racing(3, map[MessageKey(CHAT, MESSAGE) := 1], Finished, Finished, map[Slot(CHAT, 1) := Row(MESSAGE), Slot(CHAT, 2) := Lost(false)])
  {
    hide Run, After, Race;
    RaceMoves();
    RaceBegins();
    var begun := Race()[..3];
    RaceReaches(Run(NOTHING, begun));
    RaceStep(begun, Reserve(0));
    RaceStep(begun + [Reserve(0)], Reserve(1));
    RaceStep(begun + [Reserve(0)] + [Reserve(1)], Insert(0));
    RaceStep(begun + [Reserve(0)] + [Reserve(1)] + [Insert(0)], Insert(1));
    RaceEnds(Run(NOTHING, begun + [Reserve(0)] + [Reserve(1)]));
  }

  // ---- With the chat row locked ----

  /** The writer has the chat row locked: a batch from its check on, an append from its reservation on. */
  predicate Locks(s: Table, w: nat, c: Str) {
    && w in s.writers && !s.writers[w].Finished? && s.writers[w].chatId == c
    && (s.writers[w].Holding? || s.writers[w].batch)
  }

  ghost predicate LockIsFree(s: Table, c: Str, w: nat) {
    forall v :: v != w ==> !Locks(s, v, c)
  }

  /** The lock is taken before a batch checks and before an append reserves. */
  ghost predicate Admitted(s: Table, m: Move) {
    match m
    case Check(w, c, _, batch) => batch ==> LockIsFree(s, c, w)
    case Reserve(w) => w in s.writers && s.writers[w].Checked? ==> LockIsFree(s, s.writers[w].chatId, w)
    case _ => true
  }

  ghost predicate AllAdmitted(moves: seq<Move>) {
    moves == [] || (AllAdmitted(moves[..|moves| - 1]) && Admitted(Run(NOTHING, moves[..|moves| - 1]), moves[|moves| - 1]))
  }

  function Ids(w: Writer): seq<Str> {
    match w
    case Checked(_, missing, _) => missing
    case Holding(_, pending, _, _) => pending
    case Finished => []
  }

  /** What a batch has yet to insert is not stored. */
  predicate Fresh(s: Table, w: nat) {
    w in s.writers && !s.writers[w].Finished? && s.writers[w].batch ==>
      && Distinct(Ids(s.writers[w]))
      && forall id :: id in Ids(s.writers[w]) ==> MessageKey(s.writers[w].chatId, id) !in s.rows
  }

  ghost predicate LocksHold(s: Table) {
    && (forall w, v, c :: Locks(s, w, c) && Locks(s, v, c) ==> w == v)
    && (forall w :: w in s.writers ==> Fresh(s, w))
    && (forall slot :: slot in s.ledger && s.ledger[slot].Lost? ==> !s.ledger[slot].batch)
  }

  lemma {:induction false} UnstoredIsDistinct(rows: map<MessageKey, nat>, chatId: Str, ids: seq<Str>)
    requires Distinct(ids)
    ensures Distinct(Unstored(rows, chatId, ids))
  {
    if ids != [] {
      var n := |ids| - 1;
      UnstoredIsDistinct(rows, chatId, ids[..n]);
      UnstoredMembers(rows, chatId, ids[..n]);
    }
  }

  lemma CheckKeepsLocks(s: Table, w: nat, c: Str, ids: seq<Str>, batch: bool)
    requires LocksHold(s) && Admitted(s, Check(w, c, ids, batch))
    ensures LocksHold(AfterCheck(s, w, c, ids, batch))
  {
    var s' := AfterCheck(s, w, c, ids, batch);
    if Distinct(ids) { UnstoredIsDistinct(s.rows, c, ids); }
    UnstoredMembers(s.rows, c, ids);
    hide Distinct;
    forall v | v in s'.writers ensures Fresh(s', v) {
      if v != w || Busy(s, w) { assert Fresh(s, v); }
    }
    forall v, d ensures v != w ==> (Locks(s', v, d) <==> Locks(s, v, d)) {}
  }

  lemma OnlyMoreHeld(s: Table, w: nat)
    requires w in s.writers && s.writers[w].Checked? && IsLive(s, s.writers[w].chatId)
    ensures forall slot :: slot in AfterReserve(s, w).ledger && AfterReserve(s, w).ledger[slot].Lost? ==>
      slot in s.ledger && s.ledger[slot] == AfterReserve(s, w).ledger[slot]
  {
    hide Reserved;
    var r := AfterReserve(s, w).ledger;
    var c, next, n := s.writers[w].chatId, s.chats[s.writers[w].chatId].next, |s.writers[w].missing|;
    forall slot | slot in r && r[slot].Lost? ensures slot in s.ledger && s.ledger[slot] == r[slot] {
      ReservedSlot(c, next, n, w, slot);
    }
  }

  lemma ReserveKeepsLocks(s: Table, w: nat)
    requires LocksHold(s) && Admitted(s, Reserve(w))
    ensures LocksHold(AfterReserve(s, w))
  {
    hide Distinct, Reserved, Balanced;
    var s' := AfterReserve(s, w);
    forall v | v in s'.writers ensures Fresh(s', v) {
      assert Fresh(s, v);
    }
    forall v, d ensures v != w ==> (Locks(s', v, d) <==> Locks(s, v, d)) {}
    if w in s.writers && s.writers[w].Checked? && IsLive(s, s.writers[w].chatId) {
      OnlyMoreHeld(s, w);
    }
  }

  lemma InsertKeepsLocks(s: Table, w: nat)
    requires LocksHold(s)
    ensures LocksHold(AfterInsert(s, w))
  {
    var s' := AfterInsert(s, w);
    if w in s.writers && s.writers[w].Holding? && s.writers[w].pending != [] {
      var Holding(c, pending, start, batch) := s.writers[w];
      assert Locks(s, w, c) && Fresh(s, w);
      forall v | v in s'.writers ensures Fresh(s', v) {
        assert Fresh(s, v);
        if v != w && s.writers[v] != Finished && s.writers[v].batch {
          assert Locks(s, v, s.writers[v].chatId);
        } else if v == w && batch && |pending| > 1 {
          StillFresh(s, w);
        }
      }
      forall v, d ensures Locks(s', v, d) ==> Locks(s, v, d) {}
    }
  }

  /** Inserting one id of a batch leaves its other ids unstored. */
  lemma StillFresh(s: Table, w: nat)
    requires w in s.writers && s.writers[w].Holding? && |s.writers[w].pending| > 1 && s.writers[w].batch && Fresh(s, w)
    ensures Fresh(AfterInsert(s, w), w)
  {
    var pending := s.writers[w].pending;
    forall id | id in pending[1..] ensures id != pending[0] && id in pending {
      var i :| 0 <= i < |pending| - 1 && pending[1..][i] == id;
      assert pending[i + 1] == id;
    }
  }

  lemma ChatMoveKeepsLocks(s: Table, m: Move)
    requires LocksHold(s) && (m.Create? || m.SoftDelete?)
    ensures LocksHold(After(s, m))
  {
    hide Distinct;
    var s' := After(s, m);
    forall v | v in s'.writers ensures Fresh(s', v) { assert Fresh(s, v); }
    forall v, d ensures Locks(s', v, d) <==> Locks(s, v, d) {}
  }

  /** With the lock kept, no batch ever loses a position. */
  lemma {:induction false} LockedRunsLoseOnlyAppends(moves: seq<Move>)
    requires AllAdmitted(moves)
    ensures LocksHold(Run(NOTHING, moves))
  {
    hide After, LocksHold, Admitted;
    if moves == [] {
      NothingIsLocked();
    } else {
      var init, m := moves[..|moves| - 1], moves[|moves| - 1];
      LockedRunsLoseOnlyAppends(init);
      LockedMove(Run(NOTHING, init), m);
    }
  }

  lemma NothingIsLocked()
    ensures LocksHold(NOTHING)
  {
  }

  lemma LockedMove(s: Table, m: Move)
    requires LocksHold(s) && Admitted(s, m)
    ensures LocksHold(After(s, m))
  {
    hide LocksHold, Admitted;
    match m {
      case Check(w, c, ids, batch) => CheckKeepsLocks(s, w, c, ids, batch);
      case Reserve(w) => ReserveKeepsLocks(s, w);
      case Insert(w) => InsertKeepsLocks(s, w);
      case Create(_) => ChatMoveKeepsLocks(s, m);
      case SoftDelete(_) => ChatMoveKeepsLocks(s, m);
    }
  }

  predicate OnlyBatches(moves: seq<Move>) {
    forall m :: m in moves && m.Check? ==> m.batch
  }

  /** Nothing but batches writes, so nothing but a batch could have lost a position. */
  predicate WritersAreBatches(s: Table) {
    && (forall w :: w in s.writers && !s.writers[w].Finished? ==> s.writers[w].batch)
    && (forall slot :: slot in s.ledger && s.ledger[slot].Lost? ==> s.ledger[slot].batch)
  }

  lemma MoveWritesAsBatch(s: Table, m: Move)
    requires WritersAreBatches(s) && (m.Check? ==> m.batch)
    ensures WritersAreBatches(After(s, m))
  {
    hide Distinct, Reserved;
    if m.Reserve? && m.w in s.writers && s.writers[m.w].Checked? && IsLive(s, s.writers[m.w].chatId) {
      OnlyMoreHeld(s, m.w);
    }
  }

  lemma {:induction false} BatchesWriteAsBatches(moves: seq<Move>)
    requires OnlyBatches(moves)
    ensures WritersAreBatches(Run(NOTHING, moves))
  {
    hide After;
    if moves != [] {
      var init, m := moves[..|moves| - 1], moves[|moves| - 1];
      assert m in moves;
      BatchesWriteAsBatches(init);
      MoveWritesAsBatch(Run(NOTHING, init), m);
    }
  }

  /** Batches that keep the lock leave no gap: once all of them are done, the positions are exactly 1, 2, ..., next - 1. */
  lemma LockedBatchesAreGapFree(moves: seq<Move>, slot: Slot)
    requires AllAdmitted(moves) && OnlyBatches(moves)
    requires forall w :: !Busy(Run(NOTHING, moves), w)
    ensures HandedOut(Run(NOTHING, moves), slot) <==> HasRowAt(Run(NOTHING, moves), slot)
  {
    hide Run, AllAdmitted;
    var s := Run(NOTHING, moves);
    EveryInterleavingBalances(moves);
    LockedRunsLoseOnlyAppends(moves);
    BatchesWriteAsBatches(moves);
    if HandedOut(s, slot) {
      GapsAreHeldOrLost(moves, slot);
      assert forall w :: Holds(s, w, slot) ==> Busy(s, w);
    }
    if HasRowAt(s, slot) {
      var k :| k in s.rows && k.chatId == slot.chatId && s.rows[k] == slot.position;
      assert slot == Slot(k.chatId, s.rows[k]) && slot in s.ledger;
      assert HandedOut(s, slot);
    }
  }
}
