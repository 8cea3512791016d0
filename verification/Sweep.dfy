/** The stale sweep: settle every listed row with its card, count the rows it fails on, give up on poison rows. */
module Sweep {
  import opened Text
  import opened Json
  import opened WellFormed
  import opened StoreState
  import opened StoreInvariant
  import opened StoreRuns
  import opened StoreSettlement
  import opened SweepOrder
  import opened TranscriptStore
  import DeletedChat
  import Investigation

  const STALE: int := 30 * 60 * 1000
  const MAX_SWEEP_ATTEMPTS: nat := 5

  /** Whether the database answers each of a row's statements, and how it prints a headline that is no string. */
  datatype Circumstance = Circumstance(settleUp: bool, recordUp: bool, abandonUp: bool, otherText: Str)

  datatype Verdict = AlreadySettled | CardSettled(closed: bool) | Abandoned | RowFailed

  datatype Handled = Handled(state: State, verdict: Verdict)

  function Attempt<T>(up: bool, t: Tx<T>): Tx<T> {
    if up then t else RolledBack(Unavailable)
  }

  /** After a failed settle: record the attempt, and past the cap close the row without its card. */
  function HandleFailure(s: State, id: Str, c: Circumstance, now: Time): Handled {
    match Attempt<Option<nat>>(c.recordUp, RecordSweepAttempt(s, id, now))
    case RolledBack(_) => Handled(s, RowFailed)
    case Committed(s', attempts) =>
      if attempts.Some? && attempts.value >= MAX_SWEEP_ATTEMPTS then
        match Attempt<Option<Settled>>(c.abandonUp, SettleInconclusive(s', id, Investigation.UNSETTLED_NOTE, c.otherText, now))
        case Committed(s'', _) => Handled(s'', Abandoned)
        case RolledBack(_) => Handled(s', RowFailed)
      else Handled(s', RowFailed)
  }

  /** What the sweep does with one listed row. */
  function HandleRow(s: State, id: Str, chatId: Str, c: Circumstance, now: Time): Handled {
    match Attempt<Option<SettledCard>>(c.settleUp, SettleAndClose(s, id, chatId, Investigation.UNSETTLED_NOTE, c.otherText, now))
    case Committed(s', None) => Handled(s', AlreadySettled)
    case Committed(s', Some(card)) => Handled(s', CardSettled(card.closed))
    case RolledBack(_) => HandleFailure(s, id, c, now)
  }

  datatype Listed = Listed(id: Str, chatId: Str)

  /** The listed rows handled one after the other; `at` says how the database behaves for the i-th. */
  function HandleAll(s: State, rows: seq<Listed>, at: nat -> Circumstance, now: Time): (r: (State, seq<Verdict>))
    ensures |r.1| == |rows|
  {
    if rows == [] then (s, [])
    else
      var n := |rows| - 1;
      var before := HandleAll(s, rows[..n], at, now);
      var h := HandleRow(before.0, rows[n].id, rows[n].chatId, at(n), now);
      (h.state, before.1 + [h.verdict])
  }

  function Count(verdicts: seq<Verdict>, v: Verdict): nat {
    if verdicts == [] then 0
    else
      var n := |verdicts| - 1;
      Count(verdicts[..n], v) + (if verdicts[n] == v then 1 else 0)
  }

  lemma CountOneMore(verdicts: seq<Verdict>, last: Verdict, v: Verdict)
    ensures Count(verdicts + [last], v) == Count(verdicts, v) + (if last == v then 1 else 0)
  {
    assert (verdicts + [last])[..|verdicts|] == verdicts;
  }

  datatype SweepResult = SweepResult(stale: nat, settled: nat, closed: nat, alreadySettled: nat, abandoned: nat, failed: nat)

  function Tally(verdicts: seq<Verdict>): SweepResult {
    SweepResult(
      |verdicts|,
      Count(verdicts, CardSettled(true)) + Count(verdicts, CardSettled(false)),
      Count(verdicts, CardSettled(true)),
      Count(verdicts, AlreadySettled),
      Count(verdicts, Abandoned),
      Count(verdicts, RowFailed))
  }

  /** Every stale row is counted once, and only a settled row is counted as closed. */
  lemma {:induction false} EveryRowIsCountedOnce(verdicts: seq<Verdict>)
    ensures var r := Tally(verdicts);
      r.stale == r.settled + r.alreadySettled + r.abandoned + r.failed && r.closed <= r.settled
  {
    if verdicts != [] {
      EveryRowIsCountedOnce(verdicts[..|verdicts| - 1]);
    }
  }

  // ---- The sweep on the store ----

  datatype SweepReply = SweepDone(result: SweepResult) | SweepFailed(failed: nat)

  /** `listStaleOpenInvestigations`: the ids in sweep order, first come first listed. */
  method ListStaleOpenInvestigations(db: Store, olderThan: Time, limit: nat) returns (ids: seq<Str>)
    ensures IsListing(db.View(), olderThan, limit, ids)
  {
    hide NoLater, Precedes, InOrder, Stale;
    var s := db.View();
    var left := Candidates(s, olderThan);
    ids := [];
    assert InOrder(s, ids, left) by { NothingListed(s, left); }
    while |ids| < limit && left != {}
      invariant InOrder(s, ids, left)
      invariant Elements(ids) !! left && Elements(ids) + left == Candidates(s, olderThan)
      invariant |ids| + |left| == |Candidates(s, olderThan)| && |ids| <= limit
      decreases left
    {
      ghost var some := FirstExists(s, left);
      var id :| id in left && PrecedesAll(s, id, left);
      ListOneMore(s, ids, left, id);
      ids, left := ids + [id], left - {id};
    }
    assert Candidates(s, olderThan) - Elements(ids) == left;
  }

  lemma NothingListed(s: State, left: set<Str>)
    ensures InOrder(s, [], left)
  {
  }

  function Rows(s: State, ids: seq<Str>): (r: seq<Listed>)
    ensures |r| == |ids|
  {
    seq(|ids|, i requires 0 <= i < |ids| =>
      Listed(ids[i], if ids[i] in s.investigations then s.investigations[ids[i]].chatId else []))
  }

  /** One row of the sweep. */
  method SweepRow(db: Store, row: Listed, c: Circumstance, now: Time) returns (verdict: Verdict)
    requires Valid(db.View())
    modifies db
    ensures Handled(db.View(), verdict) == HandleRow(old(db.View()), row.id, row.chatId, c, now)
    ensures Valid(db.View())
  {
    hide Valid, SettleAndClose, SettleInconclusive, RecordSweepAttempt;
    var settled: Reply<Option<SettledCard>> := Err(Unavailable);
    if c.settleUp {
      settled := db.SettleInvestigationAndCloseCard(row.id, row.chatId, Investigation.UNSETTLED_NOTE, c.otherText, now);
    }
    if settled.Ok? {
      return if settled.value.None? then AlreadySettled else CardSettled(settled.value.value.closed);
    }
    ghost var s := db.View();
    var attempts: Option<nat> := None;
    if c.recordUp {
      var recorded := db.RecordInvestigationSweepAttempt(row.id, now);
      RecordKeepsValid(s, row.id, now);
      attempts := recorded.value;
    }
    if attempts.Some? && attempts.value >= MAX_SWEEP_ATTEMPTS && c.abandonUp {
      ghost var s' := db.View();
      var abandoned := db.SettleInvestigationAsInconclusive(row.id, Investigation.UNSETTLED_NOTE, c.otherText, now);
      SettleInconclusiveNeverFails(s', row.id, Investigation.UNSETTLED_NOTE, c.otherText, now);
      SettleInconclusiveKeepsTranscripts(s', row.id, Investigation.UNSETTLED_NOTE, c.otherText, now);
      SameTranscriptsKeepValid(s', db.View());
      return Abandoned;
    }
    verdict := RowFailed;
  }

  lemma RecordKeepsValid(s: State, id: Str, now: Time)
    requires Valid(s)
    ensures RecordSweepAttempt(s, id, now).Committed? && Valid(RecordSweepAttempt(s, id, now).state)
  {
    hide Valid, RecordSweepAttempt;
    RecordKeepsTranscripts(s, id, now);
    SameTranscriptsKeepValid(s, RecordSweepAttempt(s, id, now).state);
  }

  /** `sweepDashboardAgentInvestigations`: one listing, every row on its own, and a failure at the end if any row failed. */
  method SweepDashboardAgentInvestigations(db: Store, limit: nat, at: nat -> Circumstance, now: Time)
    returns (r: SweepReply, ghost ids: seq<Str>)
    requires Valid(db.View())
    modifies db
    ensures IsListing(old(db.View()), now - STALE, limit, ids)
    ensures var swept := HandleAll(old(db.View()), Rows(old(db.View()), ids), at, now);
      && db.View() == swept.0
      && r == if Tally(swept.1).failed > 0 then SweepFailed(Tally(swept.1).failed) else SweepDone(Tally(swept.1))
    ensures Valid(db.View())
  {
    hide Valid, IsListing, HandleRow;
    var stale := ListStaleOpenInvestigations(db, now - STALE, limit);
    ids := stale;
    var s := db.View();
    var rows := Rows(s, stale);
    var result := SweepResult(|rows|, 0, 0, 0, 0, 0);
    ghost var verdicts: seq<Verdict> := [];
    for i := 0 to |rows|
      invariant Valid(db.View())
      invariant HandleAll(s, rows[..i], at, now) == (db.View(), verdicts)
      invariant result == Tally(verdicts).(stale := |rows|)
    {
      assert rows[..i + 1][..i] == rows[..i];
      var verdict := SweepRow(db, rows[i], at(i), now);
      TallyOneMore(verdicts, verdict);
      verdicts := verdicts + [verdict];
      match verdict {
        case AlreadySettled => result := result.(alreadySettled := result.alreadySettled + 1);
        case CardSettled(closed) =>
          result := result.(settled := result.settled + 1);
          if closed { result := result.(closed := result.closed + 1); }
        case Abandoned => result := result.(abandoned := result.abandoned + 1);
        case RowFailed => result := result.(failed := result.failed + 1);
      }
    }
    assert rows[..|rows|] == rows;
    r := if result.failed > 0 then SweepFailed(result.failed) else SweepDone(result);
  }

  lemma TallyOneMore(verdicts: seq<Verdict>, last: Verdict)
    ensures var t, u := Tally(verdicts), Tally(verdicts + [last]);
      && u.stale == t.stale + 1
      && u.settled == t.settled + (if last.CardSettled? then 1 else 0)
      && u.closed == t.closed + (if last == CardSettled(true) then 1 else 0)
      && u.alreadySettled == t.alreadySettled + (if last == AlreadySettled then 1 else 0)
      && u.abandoned == t.abandoned + (if last == Abandoned then 1 else 0)
      && u.failed == t.failed + (if last == RowFailed then 1 else 0)
  {
    CountOneMore(verdicts, last, CardSettled(true));
    CountOneMore(verdicts, last, CardSettled(false));
    CountOneMore(verdicts, last, AlreadySettled);
    CountOneMore(verdicts, last, Abandoned);
    CountOneMore(verdicts, last, RowFailed);
  }

  // ---- What becomes of a listed row ----

  /** With the database up, a listed row leaves the queue with its card exactly when it can be rendered. */
  lemma ListedRowOutcome(s: State, id: Str, otherText: Str, now: Time)
    requires Open(s, id) && Live(s, s.investigations[id].chatId)
    ensures var row := s.investigations[id];
      var h := HandleRow(s, id, row.chatId, Circumstance(true, true, true, otherText), now);
      && id in h.state.investigations
      && if Investigation.ValidRest(row.state.fields) then
           && h.verdict.CardSettled? && !Open(h.state, id)
           && Stored(h.state, row.chatId, ClosingId(id, h.state.investigations[id].revision))
         else if row.sweepAttempts + 1 < 5 then
           && h.verdict == RowFailed && Open(h.state, id)
           && h.state == s.(investigations := s.investigations[id :=
                row.(sweepAttempts := row.sweepAttempts + 1, lastSweepAttemptAt := Some(now))])
         else
           h.verdict == Abandoned && !Open(h.state, id) && h.state.messages == s.messages
  {
    hide SettleAndClose, Investigation.ValidRest, Investigation.IsInProgress, ClosingId, Investigation.SqlSettled;
    var row := s.investigations[id];
    InProgressIsAnObject(row.state);
    SweepSettleCommitsExactly(s, id, row.chatId, Investigation.UNSETTLED_NOTE, otherText, now);
    SweepSettleClosesExactly(s, id, row.chatId, Investigation.UNSETTLED_NOTE, otherText, now);
    DeletedChat.StillOpenRowsAreSettled(s, id, row.chatId, Investigation.UNSETTLED_NOTE, otherText, now);
    if !Investigation.ValidRest(row.state.fields) {
      SettledIsNotInProgress(row.state, Investigation.UNSETTLED_NOTE, otherText);
    }
  }

  lemma InProgressIsAnObject(state: Value)
    requires Investigation.IsInProgress(state)
    ensures state.Object?
  {
  }
}
