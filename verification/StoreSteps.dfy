/** One call at a time: what each operation of the store may change. */
module StoreSteps {
  import opened Text
  import opened Json
  import opened WellFormed
  import opened StoreState
  import opened StoreInvariant
  import Investigation

  // ---- Identity of normalised messages ----

  predicate IsAscii(s: Str) {
    forall i :: 0 <= i < |s| ==> s[i] < 0x80
  }

  lemma {:induction false} AsciiIsKept(s: Str)
    requires IsAscii(s)
    ensures ToWellFormed(s) == s
  {
    if s != [] {
      assert s[0] < 0x80;
      assert forall i :: 0 <= i < |s| - 1 ==> s[1..][i] == s[i + 1];
      AsciiIsKept(s[1..]);
      assert s == [s[0]] + s[1..];
    }
  }

  /** Only an ASCII key is repaired to itself, and nothing else is repaired to it. */
  lemma {:induction false} OnlyItselfIsRepairedToAscii(s: Str, key: Str)
    requires IsAscii(key) && ToWellFormed(s) == key
    ensures s == key
  {
    if s != [] {
      assert ToWellFormed(s)[0] < 0x80;
      assert !IsHigh(s[0]) && !IsLow(s[0]);
      assert key[1..] == ToWellFormed(s[1..]);
      assert forall i :: 0 <= i < |key| - 1 ==> key[1..][i] == key[i + 1];
      OnlyItselfIsRepairedToAscii(s[1..], key[1..]);
      assert s == [s[0]] + s[1..] && key == [key[0]] + key[1..];
    }
  }

  /** A member under an ASCII key survives normalisation, repaired. */
  lemma {:induction false} NormalisedMember(fields: seq<Field>, key: Str)
    requires UniqueKeys(fields) && IsAscii(key)
    ensures Get(DeepFields(fields), key) ==
      match Get(fields, key) { case None => None case Some(v) => Some(Deep(v)) }
  {
    if fields != [] {
      var n := |fields| - 1;
      var init, last := fields[..n], fields[n];
      assert UniqueKeys(init);
      NormalisedMember(init, key);
      AsciiIsKept(key);
      GetAfterPut(DeepFields(init), ToWellFormed(last.key), Deep(last.value), key);
      if ToWellFormed(last.key) == key { OnlyItselfIsRepairedToAscii(last.key, key); }
      GetOfAppended(init, last, key);
      assert fields == init + [last];
      forall f | f in init ensures f.key != last.key {
        var i :| 0 <= i < n && init[i] == f;
        assert fields[i].key != fields[n].key;
      }
      GetFindsAMember(init, last.key);
    }
  }

  lemma {:induction false} GetOfAppended(init: seq<Field>, last: Field, key: Str)
    ensures Get(init + [last], key) ==
      if Get(init, key).Some? then Get(init, key) else if last.key == key then Some(last.value) else None
  {
    if init != [] {
      assert (init + [last])[1..] == init[1..] + [last];
      GetOfAppended(init[1..], last, key);
    }
  }

  /** The id a message is stored under. */
  lemma NormalisedId(m: Value)
    requires Proper(m) && RawId(m).Some? && RawId(m).value != []
    ensures IdOf(Deep(m)) == Some(ToWellFormed(RawId(m).value))
  {
    assert IsAscii(ID);
    NormalisedMember(m.fields, ID);
  }

  /** The message id a card settles under. */
  function CardId(id: Str, revision: nat, messageId: Option<Str>): Str {
    if messageId.Some? then messageId.value else Investigation.SettlementMessageId(id, revision)
  }

  lemma CardIdentity(id: Str, revision: nat, state: Value, messageId: Option<Str>)
    requires Investigation.SettlementMessage(id, revision, state, messageId).Some?
    ensures var card := Investigation.SettlementMessage(id, revision, state, messageId).value;
      && ListsKeysOnce(card)
      && RawId(card) == Some(CardId(id, revision, messageId))
      && RoleOf(Deep(card)) == Some(ASSISTANT)
      && IdOf(Deep(card)) == (if CardId(id, revision, messageId) == [] then None else Some(ToWellFormed(CardId(id, revision, messageId))))
  {
    hide Investigation.ParsedState, Investigation.ValidState, Decimal, Investigation.SettlementMessageId, Deep, ToWellFormed;
    var card := Investigation.SettlementMessage(id, revision, state, messageId).value;
    CardMembers(card.fields, CardId(id, revision, messageId));
  }

  predicate ListsKeysOnce(card: Value) {
    card.Object? && UniqueKeys(card.fields)
  }

  lemma CardMembers(f: seq<Field>, mid: Str)
    requires |f| == 3
    requires f[0] == Field(ID, String(mid)) && f[1] == Field(ROLE, String(ASSISTANT)) && f[2].key == Lit("parts")
    ensures UniqueKeys(f)
    ensures RawId(Object(f)) == Some(mid)
    ensures RoleOf(Deep(Object(f))) == Some(ASSISTANT)
    ensures IdOf(Deep(Object(f))) == (if mid == [] then None else Some(ToWellFormed(mid)))
  {
    CardKeys();
    assert UniqueKeys(f);
    assert f[1..][0] == f[1];
    NormalisedMember(f, ID);
    NormalisedMember(f, ROLE);
    AsciiIsKept(ASSISTANT);
    assert Deep(String(mid)) == String(ToWellFormed(mid));
    assert Deep(String(ASSISTANT)) == String(ToWellFormed(ASSISTANT));
  }

  lemma CardKeys()
    ensures ID != ROLE && ID != Lit("parts") && ROLE != Lit("parts")
    ensures IsAscii(ID) && IsAscii(ROLE) && IsAscii(ASSISTANT)
  {
    assert |ID| == 2 && |ROLE| == 4 && |Lit("parts")| == 5;
  }
}
