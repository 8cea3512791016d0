/** Investigation state: its schema, its settled form and the card that closes it. */
module Investigation {
  import opened Text
  import opened Json
  import TriggerUri

  const OUTCOME: Str := Lit("outcome")
  const SEVERITY: Str := Lit("severity")
  const CONFIDENCE: Str := Lit("confidence")
  const RUN_ID: Str := Lit("runId")
  const TITLE: Str := Lit("title")
  const HEADLINE: Str := Lit("headline")
  const REMEDIATION: Str := Lit("remediation")
  const CHECK_NEXT: Str := Lit("checkNext")
  const PROGRESS: Str := Lit("progress")
  const HYPOTHESES: Str := Lit("hypotheses")
  const EVIDENCE: Str := Lit("evidence")
  const CAVEAT: Str := Lit("caveat")
  const STARTED_AT: Str := Lit("startedAt")
  const UPDATED_AT: Str := Lit("updatedAt")
  const ID: Str := Lit("id")
  const KIND: Str := Lit("kind")
  const URI: Str := Lit("uri")
  const LABEL: Str := Lit("label")
  const EXCERPT: Str := Lit("excerpt")
  const STATEMENT: Str := Lit("statement")
  const VERDICT: Str := Lit("verdict")
  const FINDING: Str := Lit("finding")
  const MESSAGE: Str := Lit("message")

  const IN_PROGRESS: Str := Lit("in_progress")
  const CONCLUDED: Str := Lit("concluded")
  const INCONCLUSIVE: Str := Lit("inconclusive")
  const LOW: Str := Lit("low")
  const VALIDATED: Str := Lit("validated")

  const SPACE: Unit := 0x20
  const COLON: Unit := 0x3A

  const UNSETTLED_NOTE: Str :=
    Lit("The") + Lit(" investigation didn't conclude within this turn, so the cause isn't established. What's below is what was ")
    + Lit("checked.")

  const SETTLEMENT_PREFIX: Str := Lit("investigation-settlement")

  // ---- The schema ----

  /** A required member that is one of the listed strings. */
  predicate OneOf(fields: seq<Field>, key: Str, allowed: set<Str>) {
    var v := Get(fields, key);
    v.Some? && v.value.String? && v.value.s in allowed
  }

  predicate RequiredString(fields: seq<Field>, key: Str) {
    Get(fields, key).Some? && Get(fields, key).value.String?
  }

  predicate OptionalString(fields: seq<Field>, key: Str) {
    Get(fields, key).None? || Get(fields, key).value.String?
  }

  /** An absent list counts as empty; a present one must be an array. */
  predicate OptionalArray(fields: seq<Field>, key: Str) {
    Get(fields, key).None? || Get(fields, key).value.Array?
  }

  function Items(fields: seq<Field>, key: Str): seq<Value> {
    match Get(fields, key)
    case Some(Array(items)) => items
    case _ => []
  }

  function KindName(r: TriggerUri.Resource): Str {
    match r
    case Runs => TriggerUri.RUNS
    case Run(_) => TriggerUri.RUN
    case Span(_, _) => TriggerUri.SPAN
    case ErrorGroup(_) => TriggerUri.ERROR
    case Queue(_) => TriggerUri.QUEUE
    case Deployment(_) => TriggerUri.DEPLOYMENT
    case Report(_) => TriggerUri.REPORT
    case Source(_, _, _) => TriggerUri.SOURCE
    case Investigation(_) => TriggerUri.INVESTIGATION
  }

  /** `evidenceSchema`: a `trigger://` URI whose kind is the stated one. */
  predicate ValidEvidence(v: Value) {
    && v.Object?
    && RequiredString(v.fields, KIND) && RequiredString(v.fields, URI)
    && RequiredString(v.fields, LABEL) && OptionalString(v.fields, EXCERPT)
    && var parsed := TriggerUri.Parse(Get(v.fields, URI).value.s);
       parsed.Ok? && KindName(parsed.value.resource) == Get(v.fields, KIND).value.s
  }

  predicate AllEvidence(items: seq<Value>) {
    forall e :: e in items ==> ValidEvidence(e)
  }

  /** A validated hypothesis must say what settled it. */
  predicate ValidHypothesis(v: Value) {
    && v.Object?
    && RequiredString(v.fields, ID) && RequiredString(v.fields, STATEMENT)
    && OneOf(v.fields, VERDICT, {Lit("testing"), VALIDATED, Lit("invalidated")})
    && OptionalString(v.fields, FINDING)
    && OptionalArray(v.fields, EVIDENCE) && AllEvidence(Items(v.fields, EVIDENCE))
    && (Get(v.fields, VERDICT).value.s == VALIDATED ==>
          Get(v.fields, FINDING).Some? && Trim(Get(v.fields, FINDING).value.s) != [])
  }

  predicate ValidCaveat(v: Value) {
    && v.Object?
    && OneOf(v.fields, KIND, {Lit("dirty_commit")})
    && RequiredString(v.fields, MESSAGE)
  }

  /** The members whose validity does not depend on how the investigation stands. */
  predicate ValidRest(fields: seq<Field>) {
    && OneOf(fields, SEVERITY, {Lit("info"), Lit("warn"), Lit("crit")})
    && OptionalString(fields, RUN_ID)
    && RequiredString(fields, TITLE)
    && OptionalArray(fields, CHECK_NEXT) && (forall x :: x in Items(fields, CHECK_NEXT) ==> x.String?)
    && OptionalArray(fields, HYPOTHESES) && (forall h :: h in Items(fields, HYPOTHESES) ==> ValidHypothesis(h))
    && OptionalArray(fields, EVIDENCE) && AllEvidence(Items(fields, EVIDENCE))
    && (Get(fields, CAVEAT).Some? ==> ValidCaveat(Get(fields, CAVEAT).value))
    && OptionalString(fields, STARTED_AT) && OptionalString(fields, UPDATED_AT)
  }

  /** `investigationStateSchema`: a fix only when concluded, things to check only when inconclusive. */
  predicate ValidState(fields: seq<Field>) {
    && OneOf(fields, OUTCOME, {IN_PROGRESS, CONCLUDED, INCONCLUSIVE})
    && OneOf(fields, CONFIDENCE, {Lit("high"), Lit("medium"), LOW})
    && RequiredString(fields, HEADLINE)
    && OptionalString(fields, REMEDIATION) && OptionalString(fields, PROGRESS)
    && ValidRest(fields)
    && (Get(fields, REMEDIATION).Some? ==> Get(fields, OUTCOME).value.s == CONCLUDED)
    && (Items(fields, CHECK_NEXT) != [] ==> Get(fields, OUTCOME).value.s == INCONCLUSIVE)
  }

  // ---- Parsing: unknown members are dropped, absent lists become empty ----

  /** A member an object has where `value` says so. */
  datatype Slot = Slot(key: Str, value: Option<Value>)

  /** The members of the filled slots, in order. */
  function Members(slots: seq<Slot>): seq<Field> {
    if slots == [] then []
    else
      var last := slots[|slots| - 1];
      Members(slots[..|slots| - 1]) + (if last.value.Some? then [Field(last.key, last.value.value)] else [])
  }

  function Kept(fields: seq<Field>, key: Str): Slot {
    Slot(key, Get(fields, key))
  }

  function ParsedEvidence(v: Value): Value {
    if !v.Object? then v
    else Object(Members([Kept(v.fields, KIND), Kept(v.fields, URI), Kept(v.fields, LABEL), Kept(v.fields, EXCERPT)]))
  }

  function EvidenceList(fields: seq<Field>): Value {
    var items := Items(fields, EVIDENCE);
    Array(seq(|items|, i requires 0 <= i < |items| => ParsedEvidence(items[i])))
  }

  function ParsedHypothesis(v: Value): Value {
    if !v.Object? then v
    else
      Object(Members([Kept(v.fields, ID), Kept(v.fields, STATEMENT), Kept(v.fields, VERDICT), Kept(v.fields, FINDING),
        Slot(EVIDENCE, Some(EvidenceList(v.fields)))]))
  }

  function HypothesisList(fields: seq<Field>): Value {
    var items := Items(fields, HYPOTHESES);
    Array(seq(|items|, i requires 0 <= i < |items| => ParsedHypothesis(items[i])))
  }

  function ParsedCaveat(fields: seq<Field>): Option<Value> {
    match Get(fields, CAVEAT)
    case Some(Object(caveat)) => Some(Object(Members([Kept(caveat, KIND), Kept(caveat, MESSAGE)])))
    case _ => None
  }

  function StateSlots(fields: seq<Field>): seq<Slot> {
    [Kept(fields, OUTCOME), Kept(fields, SEVERITY), Kept(fields, CONFIDENCE), Kept(fields, RUN_ID), Kept(fields, TITLE),
     Kept(fields, HEADLINE), Kept(fields, REMEDIATION), Kept(fields, CHECK_NEXT), Kept(fields, PROGRESS),
     Slot(HYPOTHESES, Some(HypothesisList(fields))), Slot(EVIDENCE, Some(EvidenceList(fields))),
     Slot(CAVEAT, ParsedCaveat(fields)), Kept(fields, STARTED_AT), Kept(fields, UPDATED_AT)]
  }

  function ParsedState(fields: seq<Field>): Value {
    Object(Members(StateSlots(fields)))
  }

  // ---- Settling ----

  predicate IsInProgress(state: Value) {
    state.Object? && Get(state.fields, OUTCOME) == Some(String(IN_PROGRESS))
  }

  function SettledFields(fields: seq<Field>, headline: Str): seq<Field> {
    Put(Put(Put(Without(Without(fields, PROGRESS), REMEDIATION),
      OUTCOME, String(INCONCLUSIVE)), CONFIDENCE, String(LOW)), HEADLINE, String(headline))
  }

  /** `forceSettledInvestigationState`. */
  function ForceSettled(fields: seq<Field>): seq<Field>
    requires RequiredString(fields, HEADLINE)
  {
    SettledFields(fields, Trim(Trim(Get(fields, HEADLINE).value.s) + [SPACE] + UNSETTLED_NOTE))
  }

  function TrimSpacesStart(s: Str): (r: Str)
    ensures |r| <= |s|
    ensures r != [] ==> r[0] != SPACE
  {
    if s != [] && s[0] == SPACE then TrimSpacesStart(s[1..]) else s
  }

  function TrimSpacesEnd(s: Str): (r: Str)
    ensures |r| <= |s|
    ensures r != [] ==> r[|r| - 1] != SPACE
  {
    if s != [] && s[|s| - 1] == SPACE then TrimSpacesEnd(s[..|s| - 1]) else s
  }

  /** PostgreSQL's `btrim`, which removes plain spaces only. */
  function Btrim(s: Str): Str {
    TrimSpacesEnd(TrimSpacesStart(s))
  }

  /** `coalesce(state->>'headline', '')`; `otherText` is how the database prints a headline that is no string. */
  function HeadlineText(fields: seq<Field>, otherText: Str): Str {
    match Get(fields, HEADLINE)
    case None => []
    case Some(Null) => []
    case Some(String(s)) => s
    case Some(_) => otherText
  }

  /** The merge `settleInvestigationAsInconclusive` does in SQL. */
  function SqlSettled(fields: seq<Field>, note: Str, otherText: Str): seq<Field> {
    SettledFields(fields, Btrim(HeadlineText(fields, otherText) + [SPACE] + note))
  }

  // ---- The closing card ----

  function SettlementMessageId(id: Str, revision: nat): Str {
    SETTLEMENT_PREFIX + [COLON] + id + [COLON] + Decimal(revision)
  }

  /** `investigationSettlementMessage`: None when the state is no card. */
  function SettlementMessage(id: Str, revision: nat, state: Value, messageId: Option<Str>): (m: Option<Value>)
    ensures m.Some? <==> state.Object? && ValidState(state.fields)
  {
    if !state.Object? || !ValidState(state.fields) then None
    else
      var mid := if messageId.Some? then messageId.value else SettlementMessageId(id, revision);
      var parsed := ParsedState(state.fields);
      var kind := Field(Lit("type"), String(Lit("investigation")));
      var input := Object([kind, Field(Lit("investigation"), parsed)]);
      var output := Object([kind, Field(Lit("investigation"), parsed), Field(ID, String(id)),
        Field(Lit("revision"), Number(Decimal(revision))), Field(Lit("version"), Number(Lit("1")))]);
      Some(Object([
        Field(ID, String(mid)),
        Field(Lit("role"), String(Lit("assistant"))),
        Field(Lit("parts"), Array([Object([
          Field(Lit("type"), String(Lit("tool-render_view"))),
          Field(Lit("toolCallId"), String(mid)),
          Field(Lit("state"), String(Lit("output-available"))),
          Field(Lit("input"), Object([Field(Lit("blocks"), Array([input]))])),
          Field(Lit("output"), Object([Field(Lit("blocks"), Array([output]))]))])]))]))
  }

  // ---- Properties ----

  lemma SettledKeysDiffer()
    ensures OUTCOME != CONFIDENCE && OUTCOME != HEADLINE && CONFIDENCE != HEADLINE
    ensures PROGRESS !in {OUTCOME, CONFIDENCE, HEADLINE} && REMEDIATION !in {OUTCOME, CONFIDENCE, HEADLINE, PROGRESS}
  {
    assert PROGRESS[0] == 0x70 && HEADLINE[0] == 0x68;
    assert |OUTCOME| == 7 && |CONFIDENCE| == 10 && |HEADLINE| == 8 && |PROGRESS| == 8 && |REMEDIATION| == 11;
  }

  /** What settling leaves under each member. */
  lemma SettledMembers(fields: seq<Field>, headline: Str, key: Str)
    ensures Get(SettledFields(fields, headline), key) ==
      if key == HEADLINE then Some(String(headline))
      else if key == CONFIDENCE then Some(String(LOW))
      else if key == OUTCOME then Some(String(INCONCLUSIVE))
      else if key == PROGRESS || key == REMEDIATION then None
      else Get(fields, key)
  {
    SettledKeysDiffer();
    var a := Without(fields, PROGRESS);
    var b := Without(a, REMEDIATION);
    var c := Put(b, OUTCOME, String(INCONCLUSIVE));
    var d := Put(c, CONFIDENCE, String(LOW));
    GetAfterPut(d, HEADLINE, String(headline), key);
    GetAfterPut(c, CONFIDENCE, String(LOW), key);
    GetAfterPut(b, OUTCOME, String(INCONCLUSIVE), key);
    GetAfterWithout(a, REMEDIATION, key);
    GetAfterWithout(fields, PROGRESS, key);
  }

  predicate IsUntouched(key: Str) {
    key !in {OUTCOME, CONFIDENCE, HEADLINE, PROGRESS, REMEDIATION}
  }

  lemma RestKeysAreUntouched()
    ensures IsUntouched(SEVERITY) && IsUntouched(RUN_ID) && IsUntouched(TITLE) && IsUntouched(CHECK_NEXT)
    ensures IsUntouched(HYPOTHESES) && IsUntouched(EVIDENCE) && IsUntouched(CAVEAT)
    ensures IsUntouched(STARTED_AT) && IsUntouched(UPDATED_AT)
  {
    assert OUTCOME[0] == 0x6F && CONFIDENCE[0] == 0x63 && HEADLINE[0] == 0x68 && PROGRESS[0] == 0x70 && REMEDIATION[0] == 0x72;
    assert |OUTCOME| == 7 && |CONFIDENCE| == 10 && |HEADLINE| == 8 && |PROGRESS| == 8 && |REMEDIATION| == 11;
    assert SEVERITY[0] == 0x73 && |RUN_ID| == 5 && TITLE[0] == 0x74 && |CHECK_NEXT| == 9;
    assert HYPOTHESES[0] == 0x68 && |HYPOTHESES| == 10 && EVIDENCE[0] == 0x65 && |CAVEAT| == 6;
    assert STARTED_AT[0] == 0x73 && UPDATED_AT[0] == 0x75;
  }

  /** The untouched members alone decide `ValidRest`. */
  lemma ValidRestDependsOnItsMembers(a: seq<Field>, b: seq<Field>)
    requires Get(a, SEVERITY) == Get(b, SEVERITY) && Get(a, RUN_ID) == Get(b, RUN_ID) && Get(a, TITLE) == Get(b, TITLE)
    requires Get(a, CHECK_NEXT) == Get(b, CHECK_NEXT) && Get(a, HYPOTHESES) == Get(b, HYPOTHESES)
    requires Get(a, EVIDENCE) == Get(b, EVIDENCE) && Get(a, CAVEAT) == Get(b, CAVEAT)
    requires Get(a, STARTED_AT) == Get(b, STARTED_AT) && Get(a, UPDATED_AT) == Get(b, UPDATED_AT)
    ensures ValidRest(a) <==> ValidRest(b)
    ensures Items(a, CHECK_NEXT) == Items(b, CHECK_NEXT)
  {
    hide Lit, Get, ValidEvidence, ValidHypothesis, ValidCaveat;
  }

  lemma SettledRest(fields: seq<Field>, headline: Str)
    ensures ValidRest(SettledFields(fields, headline)) <==> ValidRest(fields)
    ensures Items(SettledFields(fields, headline), CHECK_NEXT) == Items(fields, CHECK_NEXT)
  {
    hide Lit, Get, SettledFields, ValidRest, Items;
    RestKeysAreUntouched();
    SettledMembers(fields, headline, SEVERITY);
    SettledMembers(fields, headline, RUN_ID);
    SettledMembers(fields, headline, TITLE);
    SettledMembers(fields, headline, CHECK_NEXT);
    SettledMembers(fields, headline, HYPOTHESES);
    SettledMembers(fields, headline, EVIDENCE);
    SettledMembers(fields, headline, CAVEAT);
    SettledMembers(fields, headline, STARTED_AT);
    SettledMembers(fields, headline, UPDATED_AT);
    ValidRestDependsOnItsMembers(SettledFields(fields, headline), fields);
  }

  lemma InconclusiveIsNotInProgress()
    ensures INCONCLUSIVE != IN_PROGRESS
  {
    assert |INCONCLUSIVE| == 12 && |IN_PROGRESS| == 11;
  }

  /**
    A settled state is a valid, inconclusive card exactly when the members settling does not
    touch were valid, whatever the headline: nothing else can keep the card from closing.
   */
  lemma SettledStateIsValidExactly(fields: seq<Field>, headline: Str)
    ensures ValidState(SettledFields(fields, headline)) <==> ValidRest(fields)
    ensures !IsInProgress(Object(SettledFields(fields, headline)))
  {
    hide Lit, Get, SettledFields, ValidRest, Items;
    SettledKeysDiffer();
    SettledRest(fields, headline);
    SettledMembers(fields, headline, OUTCOME);
    SettledMembers(fields, headline, CONFIDENCE);
    SettledMembers(fields, headline, HEADLINE);
    SettledMembers(fields, headline, PROGRESS);
    SettledMembers(fields, headline, REMEDIATION);
    InconclusiveIsNotInProgress();
  }

  /** Settling a valid state either way gives a valid one, so its closing card is never refused. */
  lemma SettlingAValidStateAlwaysRenders(fields: seq<Field>, note: Str, otherText: Str, id: Str, revision: nat)
    requires ValidState(fields)
    ensures SettlementMessage(id, revision, Object(ForceSettled(fields)), None).Some?
    ensures SettlementMessage(id, revision, Object(SqlSettled(fields, note, otherText)), None).Some?
  {
    SettledStateIsValidExactly(fields, Trim(Trim(Get(fields, HEADLINE).value.s) + [SPACE] + UNSETTLED_NOTE));
    SettledStateIsValidExactly(fields, Btrim(HeadlineText(fields, otherText) + [SPACE] + note));
  }

  /** A note with no space at either end, as the shared constant is. */
  predicate IsTrimmedNote(note: Str) {
    note != [] && !IsSpace(note[0]) && !IsSpace(note[|note| - 1])
  }

  lemma UnsettledNoteIsTrimmed()
    ensures IsTrimmedNote(UNSETTLED_NOTE)
  {
    var head, tail := Lit("The"), Lit("checked.");
    assert head[0] == 0x54 && tail[|tail| - 1] == 0x2E;
  }

  lemma TrimSpacesStartStep(s: Str)
    ensures TrimSpacesStart(s) == if s != [] && s[0] == SPACE then TrimSpacesStart(s[1..]) else s
  {
  }

  lemma {:induction false} TrimSpacesStartOfAppended(s: Str, tail: Str)
    requires tail != [] && tail[0] != SPACE
    ensures TrimSpacesStart(s + [SPACE] + tail)
         == if TrimSpacesStart(s) == [] then tail else TrimSpacesStart(s) + [SPACE] + tail
  {
    hide TrimSpacesStart;
    var t := s + [SPACE] + tail;
    TrimSpacesStartStep(s);
    TrimSpacesStartStep(t);
    if s == [] {
      assert t[1..] == tail;
      TrimSpacesStartStep(tail);
    } else if s[0] == SPACE {
      assert t[1..] == s[1..] + [SPACE] + tail;
      TrimSpacesStartOfAppended(s[1..], tail);
    }
  }

  /** Joining a headline and a note the way the turn does. */
  function TurnHeadline(h: Str, note: Str): Str {
    Trim(Trim(h) + [SPACE] + note)
  }

  lemma TrimHasNoEdges(h: Str)
    ensures Trim(h) != [] ==> !IsSpace(Trim(h)[0]) && !IsSpace(Trim(h)[|Trim(h)| - 1])
  {
    hide TrimStart, TrimEnd;
    TrimEndIsAPrefix(TrimStart(h));
  }

  lemma EdgesOfJoined(t: Str, note: Str)
    requires t != [] && note != []
    ensures var joined := t + [SPACE] + note;
      joined != [] && joined[0] == t[0] && joined[|joined| - 1] == note[|note| - 1]
  {
  }

  /** A space before a trimmed note is all that trimming takes away. */
  lemma TrimSpacedNote(note: Str)
    requires IsTrimmedNote(note)
    ensures Trim([] + [SPACE] + note) == note
  {
    hide TrimEnd, TrimStart;
    var spaced := [] + [SPACE] + note;
    assert spaced[0] == SPACE && spaced[1..] == note;
    TrimStartOfSpaced(spaced);
    TrimmedIsFixed(note);
  }

  lemma TrimStartOfSpaced(s: Str)
    requires s != [] && IsSpace(s[0])
    ensures TrimStart(s) == TrimStart(s[1..])
  {
  }

  lemma TurnHeadlineForm(h: Str, note: Str)
    requires IsTrimmedNote(note)
    ensures TurnHeadline(h, note) == if Trim(h) == [] then note else Trim(h) + [SPACE] + note
  {
    hide IsSpace, Trim;
    if Trim(h) == [] {
      TrimSpacedNote(note);
    } else {
      TrimHasNoEdges(h);
      EdgesOfJoined(Trim(h), note);
      TrimmedIsFixed(Trim(h) + [SPACE] + note);
    }
  }

  lemma FixedByTrimSpacesEnd(s: Str)
    requires s != [] ==> s[|s| - 1] != SPACE
    ensures TrimSpacesEnd(s) == s
  {
  }

  lemma SweepHeadlineForm(h: Str, note: Str)
    requires IsTrimmedNote(note)
    ensures Btrim(h + [SPACE] + note)
         == if TrimSpacesStart(h) == [] then note else TrimSpacesStart(h) + [SPACE] + note
  {
    hide TrimSpacesStart, TrimSpacesEnd;
    TrimSpacesStartOfAppended(h, note);
    FixedByTrimSpacesEnd(note);
    if TrimSpacesStart(h) != [] {
      EdgesOfJoined(TrimSpacesStart(h), note);
      FixedByTrimSpacesEnd(TrimSpacesStart(h) + [SPACE] + note);
    }
  }

  /** What the sweep's merge leaves as the headline: of a text or of another value's text with the note, of no value the note alone. */
  lemma SweptHeadline(fields: seq<Field>, note: Str, otherText: Str)
    requires IsTrimmedNote(note)
    ensures var before := Get(fields, HEADLINE); var after := Get(SqlSettled(fields, note, otherText), HEADLINE);
      && (before == None || before == Some(Null) ==> after == Some(String(note)))
      && (before.Some? && before.value.String? ==>
            after == Some(String(if TrimSpacesStart(before.value.s) == [] then note else TrimSpacesStart(before.value.s) + [SPACE] + note)))
      && (before.Some? && !before.value.String? && !before.value.Null? ==>
            after == Some(String(if TrimSpacesStart(otherText) == [] then note else TrimSpacesStart(otherText) + [SPACE] + note)))
  {
    hide Get, Btrim, TrimSpacesStart, SettledFields;
    var text := HeadlineText(fields, otherText);
    SettledMembers(fields, Btrim(text + [SPACE] + note), HEADLINE);
    SweepHeadlineForm(text, note);
    NothingToTrim();
  }

  lemma NothingToTrim()
    ensures TrimSpacesStart([]) == []
  {
  }

  /** Past its leading plain spaces, the headline neither starts nor ends with white space. */
  predicate HeadlineIsPlain(h: Str) {
    var rest := TrimSpacesStart(h);
    rest == [] || (!IsSpace(rest[0]) && !IsSpace(rest[|rest| - 1]))
  }

  lemma {:induction false} TrimStartIgnoresLeadingSpaces(h: Str)
    ensures TrimStart(h) == TrimStart(TrimSpacesStart(h))
  {
    if h != [] && h[0] == SPACE { TrimStartIgnoresLeadingSpaces(h[1..]); }
  }

  lemma TrimIgnoresLeadingSpaces(h: Str)
    ensures Trim(h) == Trim(TrimSpacesStart(h))
  {
    hide TrimStart, TrimEnd, TrimSpacesStart;
    TrimStartIgnoresLeadingSpaces(h);
  }

  lemma PlainHeadlineIsTrimmed(h: Str)
    ensures HeadlineIsPlain(h) <==> Trim(h) == TrimSpacesStart(h)
  {
    hide IsSpace, Trim, TrimSpacesStart;
    var rest := TrimSpacesStart(h);
    TrimIgnoresLeadingSpaces(h);
    if HeadlineIsPlain(h) {
      TrimmedIsFixed(rest);
    }
    TrimHasNoEdges(rest);
  }

  /**
    The turn's settle and the sweep's SQL settle agree on a valid state, given the same note,
    exactly when nothing but plain spaces has to be trimmed off the front of the headline.
   */
  lemma SettlePathsAgreeExactly(fields: seq<Field>, otherText: Str)
    requires RequiredString(fields, HEADLINE)
    ensures ForceSettled(fields) == SqlSettled(fields, UNSETTLED_NOTE, otherText)
       <==> HeadlineIsPlain(Get(fields, HEADLINE).value.s)
  {
    hide Get, Trim, Btrim, SettledFields, HeadlineIsPlain;
    var h := Get(fields, HEADLINE).value.s;
    var turn, sweep := TurnHeadline(h, UNSETTLED_NOTE), Btrim(h + [SPACE] + UNSETTLED_NOTE);
    UnsettledNoteIsTrimmed();
    HeadlinesAgreeExactly(h, UNSETTLED_NOTE);
    SettledMembers(fields, turn, HEADLINE);
    SettledMembers(fields, sweep, HEADLINE);
  }

  lemma HeadlinesAgreeExactly(h: Str, note: Str)
    requires IsTrimmedNote(note)
    ensures TurnHeadline(h, note) == Btrim(h + [SPACE] + note) <==> HeadlineIsPlain(h)
  {
    hide *;
    TurnHeadlineForm(h, note);
    SweepHeadlineForm(h, note);
    PlainHeadlineIsTrimmed(h);
    HeadlinesWithNote(Trim(h), TrimSpacesStart(h), note);
  }

  /** Two headlines, each left out where it is empty, read alike before a note exactly when they are the same. */
  lemma HeadlinesWithNote(a: Str, b: Str, note: Str)
    ensures (if a == [] then note else a + [SPACE] + note) == (if b == [] then note else b + [SPACE] + note) <==> a == b
  {
    SpliceEquality(a, b, [SPACE] + note);
    assert a + [SPACE] + note == a + ([SPACE] + note) && b + [SPACE] + note == b + ([SPACE] + note);
    assert |a + [SPACE] + note| == |a| + 1 + |note| && |b + [SPACE] + note| == |b| + 1 + |note|;
  }

  lemma SpliceEquality(a: Str, b: Str, tail: Str)
    ensures a + tail == b + tail <==> a == b
  {
    if a + tail == b + tail {
      assert |a| == |b|;
      assert a == (a + tail)[..|a|] && b == (b + tail)[..|b|];
    }
  }

  /** A state that says as little as the schema allows. */
  function SmallState(outcome: Str, headline: Str): seq<Field> {
    [Field(OUTCOME, String(outcome)), Field(SEVERITY, String(Lit("info"))), Field(CONFIDENCE, String(LOW)),
     Field(TITLE, String([])), Field(HEADLINE, String(headline))]
  }

  lemma SmallStateKeys()
    ensures OUTCOME !in {SEVERITY, CONFIDENCE, TITLE, HEADLINE} && SEVERITY !in {CONFIDENCE, TITLE, HEADLINE}
    ensures CONFIDENCE !in {TITLE, HEADLINE} && TITLE != HEADLINE
    ensures {OUTCOME, SEVERITY, CONFIDENCE, TITLE, HEADLINE}
         !! {RUN_ID, REMEDIATION, CHECK_NEXT, PROGRESS, HYPOTHESES, EVIDENCE, CAVEAT, STARTED_AT, UPDATED_AT}
  {
    assert OUTCOME[0] == 0x6F && SEVERITY[0] == 0x73 && CONFIDENCE[0] == 0x63 && TITLE[0] == 0x74 && HEADLINE[0] == 0x68;
    assert RUN_ID[0] == 0x72 && REMEDIATION[0] == 0x72 && PROGRESS[0] == 0x70 && EVIDENCE[0] == 0x65 && UPDATED_AT[0] == 0x75;
    assert |CONFIDENCE| == 10 && |CHECK_NEXT| == 9 && |CAVEAT| == 6 && |HEADLINE| == 8 && |HYPOTHESES| == 10;
    assert CHECK_NEXT[0] == 0x63 && HYPOTHESES[0] == 0x68 && CAVEAT[0] == 0x63;
    assert |SEVERITY| == 8 && |STARTED_AT| == 9 && STARTED_AT[0] == 0x73;
  }

  lemma SmallStateMembers(outcome: Str, headline: Str)
    ensures var f := SmallState(outcome, headline);
      && Get(f, OUTCOME) == Some(String(outcome)) && Get(f, HEADLINE) == Some(String(headline))
      && Get(f, SEVERITY) == Some(String(Lit("info"))) && Get(f, CONFIDENCE) == Some(String(LOW)) && Get(f, TITLE) == Some(String([]))
      && (forall key :: key !in {OUTCOME, SEVERITY, CONFIDENCE, TITLE, HEADLINE} ==> Get(f, key).None?)
  {
    hide Lit, Get;
    var f := SmallState(outcome, headline);
    SmallStateKeys();
    forall i | 0 <= i < 5 ensures Get(f, f[i].key) == Some(f[i].value) {
      assert f == f[..i] + [f[i]] + f[i + 1..];
      GetBehind(f[..i], f[i], f[i + 1..]);
    }
    assert f[0].key == OUTCOME && f[1].key == SEVERITY && f[2].key == CONFIDENCE && f[3].key == TITLE && f[4].key == HEADLINE;
    forall key | key !in {OUTCOME, SEVERITY, CONFIDENCE, TITLE, HEADLINE} ensures Get(f, key).None? {
      GetFindsAMember(f, key);
    }
  }

  lemma SmallStateIsValid(outcome: Str, headline: Str)
    requires outcome in {IN_PROGRESS, CONCLUDED, INCONCLUSIVE}
    ensures ValidState(SmallState(outcome, headline)) && ValidRest(SmallState(outcome, headline))
    ensures Get(SmallState(outcome, headline), HEADLINE) == Some(String(headline))
    ensures Get(SmallState(outcome, headline), OUTCOME) == Some(String(outcome))
  {
    hide Lit, Get, SmallState;
    SmallStateKeys();
    SmallStateMembers(outcome, headline);
  }

  /** The concrete case: a valid open state whose headline ends with one space is settled differently by the two. */
  lemma ATrailingSpaceSplitsTheSettlePaths(otherText: Str)
    ensures var fields := SmallState(IN_PROGRESS, [0x61, SPACE]);
      ValidState(fields) && ForceSettled(fields) != SqlSettled(fields, UNSETTLED_NOTE, otherText)
  {
    hide Lit, Get, SmallState, ForceSettled, SqlSettled, ValidState;
    var h: Str := [0x61, SPACE];
    SmallStateIsValid(IN_PROGRESS, h);
    SettlePathsAgreeExactly(SmallState(IN_PROGRESS, h), otherText);
    assert TrimSpacesStart(h) == h;
  }

  /** A headline with no white space around it is settled alike by both paths. */
  lemma SettlePathsAgreeOnTrimmedHeadlines(fields: seq<Field>, otherText: Str)
    requires RequiredString(fields, HEADLINE)
    requires var h := Get(fields, HEADLINE).value.s; h != [] ==> !IsSpace(h[0]) && !IsSpace(h[|h| - 1])
    ensures ForceSettled(fields) == SqlSettled(fields, UNSETTLED_NOTE, otherText)
  {
    SettlePathsAgreeExactly(fields, otherText);
  }

  /** Distinct revisions, and distinct investigations, close with distinct messages. */
  lemma SettlementMessageIdIsInjective(id: Str, revision: nat, id': Str, revision': nat)
    requires SettlementMessageId(id, revision) == SettlementMessageId(id', revision')
    ensures id == id' && revision == revision'
  {
    var head := SETTLEMENT_PREFIX + [COLON];
    DecimalLacks(revision, COLON);
    DecimalLacks(revision', COLON);
    LastSeparatorIsUnique(head + id, Decimal(revision), head + id', Decimal(revision'), COLON);
    DecimalIsInjective(revision, revision');
    assert id == (head + id)[|head|..] && id' == (head + id')[|head|..];
  }
}
