/** JSON-like values, with object members in enumeration order. */
module Json {
  import opened Text

  /**
    A value as JavaScript holds it. `Number` carries the numeral, `Foreign` stands for any
    object with a prototype of its own (a Date, a class instance).
   */
  datatype Value =
    | Null
    | Bool(b: bool)
    | Number(numeral: Str)
    | String(s: Str)
    | Array(items: seq<Value>)
    | Object(fields: seq<Field>)
    | Foreign(tag: nat)

  datatype Field = Field(key: Str, value: Value)

  /** The member under `key`, or None where JavaScript reads `undefined`. */
  function Get(fields: seq<Field>, key: Str): Option<Value> {
    if fields == [] then None
    else if fields[0].key == key then Some(fields[0].value)
    else Get(fields[1..], key)
  }

  /** `object[key] = value`: overwrite in place, or add at the end. */
  function Put(fields: seq<Field>, key: Str, value: Value): (r: seq<Field>)
    ensures r != []
    ensures |fields| <= |r| <= |fields| + 1
  {
    if fields == [] then [Field(key, value)]
    else if fields[0].key == key then [Field(key, value)] + fields[1..]
    else [fields[0]] + Put(fields[1..], key, value)
  }

  /** The object without the member `key`. */
  function Without(fields: seq<Field>, key: Str): (r: seq<Field>)
    ensures |r| <= |fields|
  {
    if fields == [] then []
    else if fields[0].key == key then Without(fields[1..], key)
    else [fields[0]] + Without(fields[1..], key)
  }

  function Keys(fields: seq<Field>): set<Str> {
    set f | f in fields :: f.key
  }

  /** No key is listed twice, as in every JavaScript object. */
  predicate UniqueKeys(fields: seq<Field>) {
    forall i, j :: 0 <= i < j < |fields| ==> fields[i].key != fields[j].key
  }

  /** Every object inside `v` lists each key once. */
  predicate Proper(v: Value) {
    match v
    case Array(items) => forall x :: x in items ==> Proper(x)
    case Object(fields) => UniqueKeys(fields) && forall f :: f in fields ==> Proper(f.value)
    case _ => true
  }

  lemma {:induction false} GetAfterPut(fields: seq<Field>, key: Str, value: Value, other: Str)
    ensures Get(Put(fields, key, value), other) == if other == key then Some(value) else Get(fields, other)
  {
    if fields != [] {
      if fields[0].key != key {
        GetAfterPut(fields[1..], key, value, other);
        assert Put(fields, key, value)[1..] == Put(fields[1..], key, value);
      } else {
        assert Put(fields, key, value)[1..] == fields[1..];
      }
    }
  }

  lemma {:induction false} GetAfterWithout(fields: seq<Field>, key: Str, other: Str)
    ensures Get(Without(fields, key), other) == if other == key then None else Get(fields, other)
  {
    if fields != [] {
      GetAfterWithout(fields[1..], key, other);
      if fields[0].key != key {
        assert Without(fields, key)[1..] == Without(fields[1..], key);
      }
    }
  }

  lemma {:induction false} GetFindsAMember(fields: seq<Field>, key: Str)
    ensures Get(fields, key).Some? <==> exists f :: f in fields && f.key == key
    ensures Get(fields, key).Some? ==> Field(key, Get(fields, key).value) in fields
  {
    if fields != [] {
      GetFindsAMember(fields[1..], key);
      assert fields == [fields[0]] + fields[1..];
    }
  }

  /** A member is found behind others of different names. */
  lemma {:induction false} GetBehind(init: seq<Field>, f: Field, rest: seq<Field>)
    requires f.key !in Keys(init)
    ensures Get(init + [f] + rest, f.key) == Some(f.value)
  {
    var all := init + [f] + rest;
    if init == [] {
      assert all[0] == f;
    } else {
      assert all[0] == init[0] && init[0] in init;
      assert all[1..] == init[1..] + [f] + rest;
      assert Keys(init[1..]) <= Keys(init);
      GetBehind(init[1..], f, rest);
    }
  }

  /** With every key listed once, a member is found wherever it stands. */
  lemma GetAtIndex(fields: seq<Field>, i: nat)
    requires UniqueKeys(fields) && i < |fields|
    ensures Get(fields, fields[i].key) == Some(fields[i].value)
  {
    var init, rest := fields[..i], fields[i + 1..];
    assert fields == init + [fields[i]] + rest;
    forall f | f in init ensures f.key != fields[i].key {
      var j :| 0 <= j < i && init[j] == f;
      assert fields[j].key == f.key;
    }
    GetBehind(init, fields[i], rest);
  }

  /** Every member after a write is the written one or was there before. */
  lemma {:induction false} PutMembers(fields: seq<Field>, key: Str, value: Value)
    ensures forall f :: f in Put(fields, key, value) ==> f == Field(key, value) || f in fields
  {
    if fields != [] && fields[0].key != key {
      PutMembers(fields[1..], key, value);
      assert fields == [fields[0]] + fields[1..];
    }
  }

  lemma {:induction false} PutKeepsKeysUnique(fields: seq<Field>, key: Str, value: Value)
    requires UniqueKeys(fields)
    ensures UniqueKeys(Put(fields, key, value))
    decreases |fields|, 1
  {
    if fields != [] {
      if fields[0].key == key {
        var r := Put(fields, key, value);
        forall i, j | 0 <= i < j < |r| ensures r[i].key != r[j].key {
          assert r[i].key == fields[i].key && r[j].key == fields[j].key;
        }
      } else {
        PutBehindADifferentKey(fields, key, value);
      }
    }
  }

  lemma {:induction false} PutBehindADifferentKey(fields: seq<Field>, key: Str, value: Value)
    requires UniqueKeys(fields) && fields != [] && fields[0].key != key
    ensures UniqueKeys(Put(fields, key, value))
    decreases |fields|, 0
  {
    var tail := fields[1..];
    assert UniqueKeys(tail) by {
      forall i, j | 0 <= i < j < |tail| ensures tail[i].key != tail[j].key {
        assert tail[i] == fields[i + 1] && tail[j] == fields[j + 1];
      }
    }
    PutKeepsKeysUnique(tail, key, value);
    PutMembers(tail, key, value);
    var rest := Put(tail, key, value);
    forall j | 0 <= j < |rest| ensures rest[j].key != fields[0].key {
      assert rest[j] in rest;
      if rest[j] in tail {
        var k :| 0 <= k < |tail| && tail[k] == rest[j];
        assert fields[k + 1] == rest[j];
      }
    }
    var r := Put(fields, key, value);
    forall i, j | 0 <= i < j < |r| ensures r[i].key != r[j].key {
      if i > 0 {
        assert r[i] == rest[i - 1] && r[j] == rest[j - 1];
      }
    }
  }

  lemma {:induction false} PutOfANewKeyAppends(fields: seq<Field>, key: Str, value: Value)
    requires key !in Keys(fields)
    ensures Put(fields, key, value) == fields + [Field(key, value)]
  {
    if fields != [] {
      assert fields[0] in fields && fields == [fields[0]] + fields[1..];
      assert Keys(fields[1..]) <= Keys(fields);
      PutOfANewKeyAppends(fields[1..], key, value);
    }
  }
}
