/** What a closing card shows: the view block the panel reads, and the state inside it. */
module SettlementCard {
  import opened Text
  import opened Json
  import opened WellFormed
  import opened StoreState
  import opened StoreSteps
  import Investigation
  import TriggerUri
  import TriggerUriAcceptance

  // ---- Reading a card ----

  /** The member of that name, where the value is an object that has it. */
  function At(v: Option<Value>, key: string): Option<Value> {
    if v.Some? && v.value.Object? then Get(v.value.fields, Lit(key)) else None
  }

  /** The item of a list of one. */
  function Only(v: Option<Value>): Option<Value> {
    if v.Some? && v.value.Array? && |v.value.items| == 1 then Some(v.value.items[0]) else None
  }

  /** The items of a list; none where there is no list. */
  function ListOf(v: Option<Value>): seq<Value> {
    if v.Some? && v.value.Array? then v.value.items else []
  }

  function Part(message: Value): Option<Value> {
    Only(At(Some(message), "parts"))
  }

  function InputBlock(message: Value): Option<Value> {
    Only(At(At(Part(message), "input"), "blocks"))
  }

  /** The block the panel builds its revision from. */
  function OutputBlock(message: Value): Option<Value> {
    Only(At(At(Part(message), "output"), "blocks"))
  }

  function TextOf(s: Str): Option<Value> {
    Some(String(s))
  }

  // ---- What a card carries ----

  /** One tool part with the message's own id, around one output block for that investigation and revision. */
  predicate IsCardFor(message: Value, messageId: Str, id: Str, revision: nat) {
    && At(Some(message), "id") == TextOf(messageId) && At(Some(message), "role") == TextOf(Lit("assistant"))
    && At(Part(message), "type") == TextOf(Lit("tool-render_view"))
    && At(Part(message), "toolCallId") == TextOf(messageId)
    && At(Part(message), "state") == TextOf(Lit("output-available"))
    && At(InputBlock(message), "type") == TextOf(Lit("investigation"))
    && At(OutputBlock(message), "type") == TextOf(Lit("investigation"))
    && At(OutputBlock(message), "id") == TextOf(id)
    && At(OutputBlock(message), "revision") == Some(Number(Decimal(revision)))
    && At(OutputBlock(message), "version") == Some(Number(Lit("1")))
    && At(InputBlock(message), "investigation") == At(OutputBlock(message), "investigation")
  }

  predicate SameMembers(a: Option<Value>, b: Option<Value>, keys: set<string>) {
    forall key :: key in keys ==> At(a, key) == At(b, key)
  }

  /** A citation with nothing but its own members. */
  predicate SameEvidence(a: seq<Value>, b: seq<Value>) {
    |a| == |b| && forall i :: 0 <= i < |a| ==> SameMembers(Some(a[i]), Some(b[i]), {"kind", "uri", "label", "excerpt"})
  }

  predicate SameHypothesis(a: Value, b: Value) {
    && SameMembers(Some(a), Some(b), {"id", "statement", "verdict", "finding"})
    && SameEvidence(ListOf(At(Some(a), "evidence")), ListOf(At(Some(b), "evidence")))
  }

  /** Every member of the schema is the state's own; the two lists and the caveat are so member by member. */
  predicate ShowsState(shown: Option<Value>, state: Option<Value>) {
    && SameMembers(shown, state, {"outcome", "severity", "confidence", "runId", "title", "headline", "remediation",
                                  "checkNext", "progress", "startedAt", "updatedAt"})
    && SameEvidence(ListOf(At(shown, "evidence")), ListOf(At(state, "evidence")))
    && |ListOf(At(shown, "hypotheses"))| == |ListOf(At(state, "hypotheses"))|
    && (forall i :: 0 <= i < |ListOf(At(shown, "hypotheses"))| ==>
          SameHypothesis(ListOf(At(shown, "hypotheses"))[i], ListOf(At(state, "hypotheses"))[i]))
    && (At(shown, "caveat").Some? <==> At(state, "caveat").Some?)
    && SameMembers(At(shown, "caveat"), At(state, "caveat"), {"kind", "message"})
  }

  // ---- Slots ----

  predicate DistinctSlots(slots: seq<Investigation.Slot>) {
    forall i, j :: 0 <= i < j < |slots| ==> slots[i].key != slots[j].key
  }

  predicate HasSlot(slots: seq<Investigation.Slot>, key: Str) {
    exists i :: 0 <= i < |slots| && slots[i].key == key
  }

  lemma {:induction false} MemberKeysAreSlots(slots: seq<Investigation.Slot>)
    ensures forall f :: f in Investigation.Members(slots) ==> HasSlot(slots, f.key)
  {
    if slots != [] {
      var n := |slots| - 1;
      MemberKeysAreSlots(slots[..n]);
      forall f | f in Investigation.Members(slots) ensures HasSlot(slots, f.key) {
        if f in Investigation.Members(slots[..n]) {
          var i :| 0 <= i < n && slots[..n][i].key == f.key;
          assert slots[i].key == f.key;
        } else {
          assert slots[n].key == f.key;
        }
      }
    }
  }

  lemma NoSlotTwice(slots: seq<Investigation.Slot>)
    requires DistinctSlots(slots) && slots != []
    ensures DistinctSlots(slots[..|slots| - 1]) && !HasSlot(slots[..|slots| - 1], slots[|slots| - 1].key)
  {
    var n := |slots| - 1;
    forall i | 0 <= i < n ensures slots[..n][i].key != slots[n].key {
      assert slots[..n][i] == slots[i];
    }
  }

  /** One more member of a new name. */
  lemma OneMoreMember(before: seq<Field>, f: Field)
    requires UniqueKeys(before) && forall g :: g in before ==> g.key != f.key
    ensures UniqueKeys(before + [f]) && Get(before + [f], f.key) == Some(f.value)
    ensures forall key :: key != f.key ==> Get(before + [f], key) == Get(before, key)
  {
    hide Get;
    var all := before + [f];
    forall i, j | 0 <= i < j < |all| ensures all[i].key != all[j].key {
      if j == |before| { assert all[i] in before; }
    }
    GetFindsAMember(before, f.key);
    forall key ensures Get(all, key) == if Get(before, key).Some? then Get(before, key) else if f.key == key then Some(f.value) else None {
      GetOfAppended(before, f, key);
    }
  }

  lemma {:induction false} MembersOfSlots(slots: seq<Investigation.Slot>)
    requires DistinctSlots(slots)
    ensures UniqueKeys(Investigation.Members(slots))
    ensures forall i :: 0 <= i < |slots| ==> Get(Investigation.Members(slots), slots[i].key) == slots[i].value
  {
    hide Get, HasSlot, UniqueKeys;
    if slots == [] {
      NoMembers();
    } else {
      var n := |slots| - 1;
      var init, last, before := slots[..n], slots[n], Investigation.Members(slots[..n]);
      NoSlotTwice(slots);
      MembersOfSlots(init);
      MemberKeysAreSlots(init);
      forall g | g in before ensures g.key != last.key { assert HasSlot(init, g.key); }
      GetFindsAMember(before, last.key);
      if last.value.Some? {
        OneMoreMember(before, Field(last.key, last.value.value));
      } else {
        assert before + [] == before;
      }
      forall i | 0 <= i < n ensures Get(Investigation.Members(slots), slots[i].key) == slots[i].value {
        assert init[i] == slots[i];
      }
    }
  }

  lemma NoMembers()
    ensures UniqueKeys(Investigation.Members([]))
  {
  }

  lemma StateKeysDiffer(fields: seq<Field>)
    ensures DistinctSlots(Investigation.StateSlots(fields))
  {
    hide Lit, Get, Investigation.HypothesisList, Investigation.EvidenceList, Investigation.ParsedCaveat;
    var slots := Investigation.StateSlots(fields);
    StateKeyTags();
    assert |slots| == 14;
  }

  lemma StateKeyTags()
    ensures |Investigation.OUTCOME| == 7 && |Investigation.CAVEAT| == 6 && |Investigation.REMEDIATION| == 11
    ensures |Investigation.SEVERITY| == |Investigation.HEADLINE| == |Investigation.PROGRESS| == |Investigation.EVIDENCE| == 8
    ensures Investigation.SEVERITY[0] == 0x73 && Investigation.HEADLINE[0] == 0x68 && Investigation.PROGRESS[0] == 0x70 && Investigation.EVIDENCE[0] == 0x65
    ensures |Investigation.CONFIDENCE| == |Investigation.HYPOTHESES| == 10
    ensures Investigation.CONFIDENCE[0] == 0x63 && Investigation.HYPOTHESES[0] == 0x68
    ensures |Investigation.RUN_ID| == |Investigation.TITLE| == 5 && Investigation.RUN_ID[0] == 0x72 && Investigation.TITLE[0] == 0x74
    ensures |Investigation.CHECK_NEXT| == |Investigation.STARTED_AT| == |Investigation.UPDATED_AT| == 9
    ensures Investigation.CHECK_NEXT[0] == 0x63 && Investigation.STARTED_AT[0] == 0x73 && Investigation.UPDATED_AT[0] == 0x75
  {
  }

  lemma ShortKeysDiffer()
    ensures |Investigation.KIND| == 4 && |Investigation.URI| == 3 && |Investigation.LABEL| == 5 && |Investigation.EXCERPT| == 7
    ensures |Investigation.MESSAGE| == 7 && |Investigation.ID| == 2 && |Investigation.STATEMENT| == 9
    ensures |Investigation.VERDICT| == |Investigation.FINDING| == 7 && |Investigation.EVIDENCE| == 8
    ensures Investigation.VERDICT[0] == 0x76 && Investigation.FINDING[0] == 0x66
  {
  }

  lemma ParsedEvidenceIsSame(v: Value)
    ensures SameMembers(Some(Investigation.ParsedEvidence(v)), Some(v), {"kind", "uri", "label", "excerpt"})
  {
    hide Lit, Get, Investigation.Members;
    if v.Object? {
      var f := v.fields;
      var slots := [Investigation.Kept(f, Investigation.KIND), Investigation.Kept(f, Investigation.URI),
                    Investigation.Kept(f, Investigation.LABEL), Investigation.Kept(f, Investigation.EXCERPT)];
      ShortKeysDiffer();
      MembersOfSlots(slots);
      assert slots[0].key == Lit("kind") && slots[1].key == Lit("uri") && slots[2].key == Lit("label") && slots[3].key == Lit("excerpt");
    }
  }

  lemma EvidenceListIsSame(fields: seq<Field>)
    ensures SameEvidence(ListOf(Some(Investigation.EvidenceList(fields))), ListOf(Get(fields, Lit("evidence"))))
  {
    hide Lit, Get, Investigation.ParsedEvidence, SameMembers;
    var items := Investigation.Items(fields, Investigation.EVIDENCE);
    assert Investigation.EVIDENCE == Lit("evidence");
    forall i | 0 <= i < |items|
      ensures SameMembers(Some(Investigation.ParsedEvidence(items[i])), Some(items[i]), {"kind", "uri", "label", "excerpt"})
    {
      ParsedEvidenceIsSame(items[i]);
    }
  }

  lemma ParsedHypothesisIsSame(v: Value)
    ensures SameHypothesis(Investigation.ParsedHypothesis(v), v)
  {
    hide Lit, Get, Investigation.Members, Investigation.EvidenceList, SameEvidence;
    if v.Object? {
      var f := v.fields;
      var slots := [Investigation.Kept(f, Investigation.ID), Investigation.Kept(f, Investigation.STATEMENT),
                    Investigation.Kept(f, Investigation.VERDICT), Investigation.Kept(f, Investigation.FINDING),
                    Investigation.Slot(Investigation.EVIDENCE, Some(Investigation.EvidenceList(f)))];
      ShortKeysDiffer();
      MembersOfSlots(slots);
      EvidenceListIsSame(f);
      assert slots[0].key == Lit("id") && slots[1].key == Lit("statement") && slots[2].key == Lit("verdict")
          && slots[3].key == Lit("finding") && slots[4].key == Lit("evidence");
    } else {
      NothingIsSameEvidence();
    }
  }

  lemma NothingIsSameEvidence()
    ensures SameEvidence([], [])
  {
  }

  lemma ParsedCaveatIsSame(fields: seq<Field>)
    requires Get(fields, Lit("caveat")).Some? ==> Get(fields, Lit("caveat")).value.Object?
    ensures Investigation.ParsedCaveat(fields).Some? <==> Get(fields, Lit("caveat")).Some?
    ensures SameMembers(Investigation.ParsedCaveat(fields), Get(fields, Lit("caveat")), {"kind", "message"})
  {
    hide Lit, Get, Investigation.Members;
    assert Investigation.CAVEAT == Lit("caveat");
    if Get(fields, Lit("caveat")).Some? {
      var f := Get(fields, Lit("caveat")).value.fields;
      var slots := [Investigation.Kept(f, Investigation.KIND), Investigation.Kept(f, Investigation.MESSAGE)];
      ShortKeysDiffer();
      MembersOfSlots(slots);
      assert slots[0].key == Lit("kind") && slots[1].key == Lit("message");
    }
  }

  lemma HypothesisListIsSame(fields: seq<Field>)
    ensures var shown, own := ListOf(Some(Investigation.HypothesisList(fields))), ListOf(Get(fields, Lit("hypotheses")));
      |shown| == |own| && forall i :: 0 <= i < |shown| ==> SameHypothesis(shown[i], own[i])
  {
    hide Lit, Get, Investigation.ParsedHypothesis, SameHypothesis;
    var items := Investigation.Items(fields, Investigation.HYPOTHESES);
    assert Investigation.HYPOTHESES == Lit("hypotheses");
    forall i | 0 <= i < |items| ensures SameHypothesis(Investigation.ParsedHypothesis(items[i]), items[i]) {
      ParsedHypothesisIsSame(items[i]);
    }
  }

  /** The slots of a parsed state by name. */
  lemma StateMember(fields: seq<Field>, i: nat)
    requires i < 14
    ensures var slot := Investigation.StateSlots(fields)[i]; Get(Investigation.Members(Investigation.StateSlots(fields)), slot.key) == slot.value
  {
    hide Investigation.StateSlots, Investigation.Members, Get;
    StateKeysDiffer(fields);
    StateHasSlots(fields);
    MembersOfSlots(Investigation.StateSlots(fields));
  }

  lemma StateHasSlots(fields: seq<Field>)
    ensures |Investigation.StateSlots(fields)| == 14
  {
    hide Lit, Get, Investigation.HypothesisList, Investigation.EvidenceList, Investigation.ParsedCaveat;
  }

  lemma StateMembersByName(fields: seq<Field>)
    ensures var m := Investigation.Members(Investigation.StateSlots(fields));
      && Get(m, Lit("outcome")) == Get(fields, Lit("outcome"))
      && Get(m, Lit("severity")) == Get(fields, Lit("severity"))
      && Get(m, Lit("confidence")) == Get(fields, Lit("confidence"))
      && Get(m, Lit("runId")) == Get(fields, Lit("runId"))
      && Get(m, Lit("title")) == Get(fields, Lit("title"))
      && Get(m, Lit("headline")) == Get(fields, Lit("headline"))
      && Get(m, Lit("remediation")) == Get(fields, Lit("remediation"))
      && Get(m, Lit("checkNext")) == Get(fields, Lit("checkNext"))
      && Get(m, Lit("progress")) == Get(fields, Lit("progress"))
      && Get(m, Lit("hypotheses")) == Some(Investigation.HypothesisList(fields))
      && Get(m, Lit("evidence")) == Some(Investigation.EvidenceList(fields))
      && Get(m, Lit("caveat")) == Investigation.ParsedCaveat(fields)
      && Get(m, Lit("startedAt")) == Get(fields, Lit("startedAt"))
      && Get(m, Lit("updatedAt")) == Get(fields, Lit("updatedAt"))
  {
    hide Lit, Get, Investigation.Members, Investigation.HypothesisList, Investigation.EvidenceList, Investigation.ParsedCaveat;
    StateMember(fields, 0);
    StateMember(fields, 1);
    StateMember(fields, 2);
    StateMember(fields, 3);
    StateMember(fields, 4);
    StateMember(fields, 5);
    StateMember(fields, 6);
    StateMember(fields, 7);
    StateMember(fields, 8);
    StateMember(fields, 9);
    StateMember(fields, 10);
    StateMember(fields, 11);
    StateMember(fields, 12);
    StateMember(fields, 13);
  }

  lemma ScalarsAreSame(fields: seq<Field>)
    ensures SameMembers(Some(Investigation.ParsedState(fields)), Some(Object(fields)),
      {"outcome", "severity", "confidence", "runId", "title", "headline", "remediation", "checkNext", "progress", "startedAt", "updatedAt"})
  {
    hide Lit, Get, Investigation.Members, Investigation.StateSlots, Investigation.HypothesisList, Investigation.EvidenceList,
      Investigation.ParsedCaveat;
    StateMembersByName(fields);
  }

  /** Parsing drops what the schema does not name, and nothing else. */
  lemma ParsedStateShowsItsState(fields: seq<Field>)
    requires Get(fields, Lit("caveat")).Some? ==> Get(fields, Lit("caveat")).value.Object?
    ensures ShowsState(Some(Investigation.ParsedState(fields)), Some(Object(fields)))
  {
    hide Lit, Get, Investigation.Members, Investigation.StateSlots, Investigation.HypothesisList, Investigation.EvidenceList,
      Investigation.ParsedCaveat, SameMembers, SameEvidence, SameHypothesis, ListOf;
    StateMembersByName(fields);
    ScalarsAreSame(fields);
    EvidenceListIsSame(fields);
    HypothesisListIsSame(fields);
    ParsedCaveatIsSame(fields);
  }

  // ---- The card itself ----

  /**
    A card is one view part under the message's id. Its output block names the investigation, its
    revision and the block version, and both blocks carry the same investigation: the state's own
    members.
   */
  lemma CardShowsItsState(id: Str, revision: nat, state: Value, messageId: Option<Str>)
    requires Investigation.SettlementMessage(id, revision, state, messageId).Some?
    ensures var card := Investigation.SettlementMessage(id, revision, state, messageId).value;
      && IsCardFor(card, CardId(id, revision, messageId), id, revision)
      && ShowsState(At(OutputBlock(card), "investigation"), Some(state))
  {
    hide Investigation.ValidState, Investigation.ParsedState, ShowsState, Decimal, Investigation.SettlementMessageId,
      Investigation.SettlementMessage, Part, InputBlock, OutputBlock, At, IsCardShape;
    var card := Investigation.SettlementMessage(id, revision, state, messageId).value;
    ValidCaveatIsAnObject(state.fields);
    ParsedStateShowsItsState(state.fields);
    var part, input, output := CardShape(id, revision, state, messageId);
    ShapeReads(card, part, input, output, Investigation.ParsedState(state.fields));
  }

  lemma ValidCaveatIsAnObject(fields: seq<Field>)
    requires Investigation.ValidState(fields)
    ensures Get(fields, Lit("caveat")).Some? ==> Get(fields, Lit("caveat")).value.Object?
  {
    hide Get, Investigation.ValidHypothesis, Investigation.ValidEvidence, Investigation.OneOf;
    assert Investigation.CAVEAT == Lit("caveat");
  }

  lemma CardKeysDiffer()
    ensures |Lit("id")| == 2 && |Lit("role")| == 4 && |Lit("parts")| == 5 && |Lit("type")| == 4 && |Lit("toolCallId")| == 10
    ensures |Lit("state")| == 5 && |Lit("input")| == 5 && |Lit("output")| == 6 && |Lit("blocks")| == 6
    ensures |Lit("investigation")| == 13 && |Lit("revision")| == 8 && |Lit("version")| == 7
    ensures Lit("state")[0] != Lit("input")[0]
  {
  }

  /** The members of an object with these keys in this order. */
  predicate HasKeys(v: Value, keys: seq<string>) {
    v.Object? && |v.fields| == |keys| && forall i :: 0 <= i < |keys| ==> v.fields[i].key == Lit(keys[i])
  }

  predicate DistinctKeys(keys: seq<string>) {
    forall i, j :: 0 <= i < j < |keys| ==> Lit(keys[i]) != Lit(keys[j])
  }

  lemma MembersByKey(v: Value, keys: seq<string>)
    requires HasKeys(v, keys) && DistinctKeys(keys)
    ensures UniqueKeys(v.fields)
    ensures forall i :: 0 <= i < |keys| ==> At(Some(v), keys[i]) == Some(v.fields[i].value)
  {
    hide Lit, Get;
    forall i | 0 <= i < |keys| ensures At(Some(v), keys[i]) == Some(v.fields[i].value) {
      GetAtIndex(v.fields, i);
    }
  }

  const CARD_KEYS: seq<string> := ["id", "role", "parts"]
  const PART_KEYS: seq<string> := ["type", "toolCallId", "state", "input", "output"]
  const INPUT_KEYS: seq<string> := ["type", "investigation"]
  const OUTPUT_KEYS: seq<string> := ["type", "investigation", "id", "revision", "version"]
  const BLOCKS_KEYS: seq<string> := ["blocks"]

  lemma CardKeysAreDistinct()
    ensures DistinctKeys(CARD_KEYS) && DistinctKeys(PART_KEYS) && DistinctKeys(INPUT_KEYS) && DistinctKeys(OUTPUT_KEYS)
    ensures DistinctKeys(BLOCKS_KEYS)
  {
    hide Lit;
    CardKeysDiffer();
  }

  /** What a card is made of, from the outside in. */
  predicate IsCardShape(card: Value, part: Value, input: Value, output: Value, shown: Value) {
    && HasKeys(card, CARD_KEYS) && card.fields[2].value == Array([part])
    && HasKeys(part, PART_KEYS)
    && HasKeys(part.fields[3].value, BLOCKS_KEYS) && part.fields[3].value.fields[0].value == Array([input])
    && HasKeys(part.fields[4].value, BLOCKS_KEYS) && part.fields[4].value.fields[0].value == Array([output])
    && HasKeys(input, INPUT_KEYS) && input.fields[1].value == shown
    && HasKeys(output, OUTPUT_KEYS) && output.fields[1].value == shown
  }

  lemma CardShape(id: Str, revision: nat, state: Value, messageId: Option<Str>) returns (part: Value, input: Value, output: Value)
    requires Investigation.SettlementMessage(id, revision, state, messageId).Some?
    ensures var card := Investigation.SettlementMessage(id, revision, state, messageId).value;
      && IsCardShape(card, part, input, output, Investigation.ParsedState(state.fields))
      && card.fields[0].value == String(CardId(id, revision, messageId)) && card.fields[1].value == String(Lit("assistant"))
      && part.fields[0].value == String(Lit("tool-render_view"))
      && part.fields[1].value == String(CardId(id, revision, messageId)) && part.fields[2].value == String(Lit("output-available"))
      && input.fields[0].value == String(Lit("investigation")) && output.fields[0].value == String(Lit("investigation"))
      && output.fields[2].value == String(id) && output.fields[3].value == Number(Decimal(revision))
      && output.fields[4].value == Number(Lit("1"))
  {
    hide Investigation.ValidState, Investigation.ParsedState, Decimal, Investigation.SettlementMessageId, Lit;
    var card := Investigation.SettlementMessage(id, revision, state, messageId).value;
    part := card.fields[2].value.items[0];
    input := part.fields[3].value.fields[0].value.items[0];
    output := part.fields[4].value.fields[0].value.items[0];
  }

  lemma ShapeReads(card: Value, part: Value, input: Value, output: Value, shown: Value)
    requires IsCardShape(card, part, input, output, shown)
    ensures At(Some(card), "id") == Some(card.fields[0].value) && At(Some(card), "role") == Some(card.fields[1].value)
    ensures Part(card) == Some(part) && InputBlock(card) == Some(input) && OutputBlock(card) == Some(output)
    ensures At(Some(part), "type") == Some(part.fields[0].value) && At(Some(part), "toolCallId") == Some(part.fields[1].value)
    ensures At(Some(part), "state") == Some(part.fields[2].value)
    ensures At(Some(input), "type") == Some(input.fields[0].value) && At(Some(input), "investigation") == Some(shown)
    ensures At(Some(output), "type") == Some(output.fields[0].value) && At(Some(output), "investigation") == Some(shown)
    ensures At(Some(output), "id") == Some(output.fields[2].value) && At(Some(output), "revision") == Some(output.fields[3].value)
    ensures At(Some(output), "version") == Some(output.fields[4].value)
  {
    hide At, DistinctKeys;
    CardKeysAreDistinct();
    MembersByKey(card, CARD_KEYS);
    MembersByKey(part, PART_KEYS);
    MembersByKey(part.fields[3].value, BLOCKS_KEYS);
    MembersByKey(part.fields[4].value, BLOCKS_KEYS);
    MembersByKey(input, INPUT_KEYS);
    MembersByKey(output, OUTPUT_KEYS);
    assert CARD_KEYS[0] == "id" && CARD_KEYS[1] == "role" && CARD_KEYS[2] == "parts" && BLOCKS_KEYS[0] == "blocks";
    assert PART_KEYS[0] == "type" && PART_KEYS[1] == "toolCallId" && PART_KEYS[2] == "state" && PART_KEYS[3] == "input" && PART_KEYS[4] == "output";
    assert INPUT_KEYS[0] == "type" && INPUT_KEYS[1] == "investigation";
    assert OUTPUT_KEYS[0] == "type" && OUTPUT_KEYS[1] == "investigation" && OUTPUT_KEYS[2] == "id" && OUTPUT_KEYS[3] == "revision"
        && OUTPUT_KEYS[4] == "version";
  }

  // ---- What a card never shows ----

  function KindText(r: TriggerUri.Resource): string {
    match r
    case Runs => "runs"
    case Run(_) => "run"
    case Span(_, _) => "span"
    case ErrorGroup(_) => "error"
    case Queue(_) => "queue"
    case Deployment(_) => "deployment"
    case Report(_) => "report"
    case Source(_, _, _) => "source"
    case Investigation(_) => "investigation"
  }

  /** A citation names something by a URI of the kind it says. */
  predicate Cites(e: Value) {
    var uri := At(Some(e), "uri");
    && uri.Some? && uri.value.String?
    && var parsed := TriggerUri.Parse(uri.value.s);
       parsed.Ok? && At(Some(e), "kind") == TextOf(Lit(KindText(parsed.value.resource)))
  }

  /** A validated hypothesis says something about what settled it, and cites. */
  predicate IsBacked(h: Value) {
    && (At(Some(h), "verdict") == TextOf(Lit("validated")) ==>
          && At(Some(h), "finding").Some? && At(Some(h), "finding").value.String?
          && exists u :: u in At(Some(h), "finding").value.s && !IsSpace(u))
    && forall e :: e in ListOf(At(Some(h), "evidence")) ==> Cites(e)
  }

  lemma KindTexts(r: TriggerUri.Resource)
    ensures Investigation.KindName(r) == Lit(KindText(r))
  {
    hide Lit;
    TriggerUriAcceptance.KindNames();
  }

  lemma ValidEvidenceCites(e: Value)
    requires Investigation.ValidEvidence(e)
    ensures Cites(e)
  {
    hide Get, Lit, TriggerUri.Parse, KindText, Investigation.KindName;
    assert Investigation.URI == Lit("uri") && Investigation.KIND == Lit("kind");
    KindTexts(TriggerUri.Parse(Get(e.fields, Investigation.URI).value.s).value.resource);
  }

  lemma SomethingIsLeft(s: Str)
    requires Trim(s) != []
    ensures exists u :: u in s && !IsSpace(u)
  {
    hide TrimStart, TrimEnd, IsSpace;
    Investigation.TrimHasNoEdges(s);
    TrimStartIsASuffix(s);
    TrimEndIsAPrefix(TrimStart(s));
    var u := Trim(s)[0];
    assert u == TrimStart(s)[0] && TrimStart(s)[0] in s;
  }

  lemma ValidHypothesisIsBacked(h: Value)
    requires Investigation.ValidHypothesis(h)
    ensures IsBacked(h)
  {
    hide Get, Lit, Investigation.ValidEvidence, Cites, Trim;
    assert Investigation.VERDICT == Lit("verdict") && Investigation.FINDING == Lit("finding") && Investigation.EVIDENCE == Lit("evidence");
    assert Investigation.VALIDATED == Lit("validated");
    if At(Some(h), "verdict") == TextOf(Lit("validated")) { SomethingIsLeft(Get(h.fields, Investigation.FINDING).value.s); }
    forall e | e in ListOf(At(Some(h), "evidence")) ensures Cites(e) { ValidEvidenceCites(e); }
  }

  /**
    A state that can be shown as a card offers a fix only when concluded and things to check only
    when inconclusive, backs every validated hypothesis, and cites by URIs of the stated kind.
   */
  lemma CardsKeepTheRules(id: Str, revision: nat, state: Value, messageId: Option<Str>)
    requires Investigation.SettlementMessage(id, revision, state, messageId).Some?
    ensures At(Some(state), "outcome") in {TextOf(Lit("in_progress")), TextOf(Lit("concluded")), TextOf(Lit("inconclusive"))}
    ensures At(Some(state), "severity") in {TextOf(Lit("info")), TextOf(Lit("warn")), TextOf(Lit("crit"))}
    ensures At(Some(state), "confidence") in {TextOf(Lit("high")), TextOf(Lit("medium")), TextOf(Lit("low"))}
    ensures At(Some(state), "caveat").Some? ==> At(At(Some(state), "caveat"), "kind") == TextOf(Lit("dirty_commit"))
    ensures At(Some(state), "remediation").Some? ==> At(Some(state), "outcome") == TextOf(Lit("concluded"))
    ensures ListOf(At(Some(state), "checkNext")) != [] ==> At(Some(state), "outcome") == TextOf(Lit("inconclusive"))
    ensures forall h :: h in ListOf(At(Some(state), "hypotheses")) ==> IsBacked(h)
    ensures forall e :: e in ListOf(At(Some(state), "evidence")) ==> Cites(e)
  {
    hide Get, Lit, Investigation.ValidEvidence, Investigation.ValidHypothesis, Cites, IsBacked, Investigation.SettlementMessage;
    assert Investigation.SEVERITY == Lit("severity") && Investigation.CONFIDENCE == Lit("confidence") && Investigation.LOW == Lit("low");
    assert Investigation.CAVEAT == Lit("caveat") && Investigation.KIND == Lit("kind");
    assert Investigation.OUTCOME == Lit("outcome") && Investigation.REMEDIATION == Lit("remediation");
    assert Investigation.CHECK_NEXT == Lit("checkNext") && Investigation.HYPOTHESES == Lit("hypotheses");
    assert Investigation.EVIDENCE == Lit("evidence") && Investigation.IN_PROGRESS == Lit("in_progress");
    assert Investigation.CONCLUDED == Lit("concluded") && Investigation.INCONCLUSIVE == Lit("inconclusive");
    forall h | h in ListOf(At(Some(state), "hypotheses")) ensures IsBacked(h) { ValidHypothesisIsBacked(h); }
    forall e | e in ListOf(At(Some(state), "evidence")) ensures Cites(e) { ValidEvidenceCites(e); }
  }
}
