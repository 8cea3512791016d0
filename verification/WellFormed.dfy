/** Making strings, and every string inside a value, well-formed UTF-16 (ECMA-262, section 22.1.3.31). */
module WellFormed {
  import opened Text
  import opened Json

  const REPLACEMENT: Unit := 0xFFFD

  predicate IsHigh(u: Unit) {
    0xD800 <= u <= 0xDBFF
  }

  predicate IsLow(u: Unit) {
    0xDC00 <= u <= 0xDFFF
  }

  /** Every surrogate is half of a pair. */
  predicate IsWellFormed(s: Str) {
    if s == [] then true
    else if IsHigh(s[0]) then |s| >= 2 && IsLow(s[1]) && IsWellFormed(s[2..])
    else !IsLow(s[0]) && IsWellFormed(s[1..])
  }

  /** Lone surrogates become U+FFFD, everything else is kept. */
  function ToWellFormed(s: Str): (r: Str)
    ensures |r| == |s|
  {
    if s == [] then []
    else if IsHigh(s[0]) && |s| >= 2 && IsLow(s[1]) then s[..2] + ToWellFormed(s[2..])
    else if IsHigh(s[0]) || IsLow(s[0]) then [REPLACEMENT] + ToWellFormed(s[1..])
    else [s[0]] + ToWellFormed(s[1..])
  }

  lemma {:induction false} ToWellFormedRepairs(s: Str)
    ensures IsWellFormed(ToWellFormed(s))
    ensures IsWellFormed(s) <==> ToWellFormed(s) == s
  {
    if s == [] {
    } else if IsHigh(s[0]) && |s| >= 2 && IsLow(s[1]) {
      var r := s[..2] + ToWellFormed(s[2..]);
      ToWellFormedRepairs(s[2..]);
      assert r[2..] == ToWellFormed(s[2..]);
      assert s == s[..2] + s[2..];
    } else {
      ToWellFormedRepairs(s[1..]);
      var r := ToWellFormed(s);
      assert r[1..] == ToWellFormed(s[1..]);
      assert s == [s[0]] + s[1..];
    }
  }

  /** A surrogate without its other half beside it. */
  predicate IsLone(s: Str, i: nat)
    requires i < |s|
  {
    || (IsHigh(s[i]) && !(i + 1 < |s| && IsLow(s[i + 1])))
    || (IsLow(s[i]) && !(i > 0 && IsHigh(s[i - 1])))
  }

  /** Exactly the lone surrogates are replaced; every other unit stays where it is. */
  lemma {:induction false} RepairsExactlyTheLone(s: Str)
    ensures forall i :: 0 <= i < |s| ==> ToWellFormed(s)[i] == if IsLone(s, i) then 0xFFFD else s[i]
  {
    var r := ToWellFormed(s);
    if s == [] {
    } else if IsHigh(s[0]) && |s| >= 2 && IsLow(s[1]) {
      RepairsExactlyTheLone(s[2..]);
      forall i | 2 <= i < |s| ensures r[i] == if IsLone(s, i) then 0xFFFD else s[i] {
        assert r[i] == ToWellFormed(s[2..])[i - 2];
        assert IsLone(s, i) <==> IsLone(s[2..], i - 2);
      }
    } else {
      RepairsExactlyTheLone(s[1..]);
      forall i | 1 <= i < |s| ensures r[i] == if IsLone(s, i) then 0xFFFD else s[i] {
        assert r[i] == ToWellFormed(s[1..])[i - 1];
        assert IsLone(s, i) <==> IsLone(s[1..], i - 1);
      }
    }
  }

  /** Cutting a well-formed string just after a high surrogate is the only way to break it. */
  lemma {:induction false} WellFormedPrefix(s: Str, n: nat)
    requires IsWellFormed(s) && n <= |s|
    ensures IsWellFormed(s[..n]) <==> n == 0 || !IsHigh(s[n - 1])
    decreases |s|
  {
    if n == 0 {
    } else if IsHigh(s[0]) {
      if n >= 2 {
        WellFormedPrefix(s[2..], n - 2);
        assert s[..n][2..] == s[2..][..n - 2];
      }
    } else {
      WellFormedPrefix(s[1..], n - 1);
      assert s[..n][1..] == s[1..][..n - 1];
    }
  }

  /** `s.slice(0, n)`: a negative bound counts from the end. */
  function SliceBound(s: Str, n: int): (b: nat)
    ensures b <= |s|
  {
    if n < 0 then (if |s| + n < 0 then 0 else |s| + n) else if n < |s| then n else |s|
  }

  function SliceWellFormed(s: Str, n: int): Str {
    if n >= |s| then s
    else
      var cut := s[..SliceBound(s, n)];
      if cut != [] && IsHigh(cut[|cut| - 1]) then cut[..|cut| - 1] else cut
  }

  /** A well-formed string is cut to its longest well-formed prefix within the bound. */
  lemma SliceIsLongestWellFormedPrefix(s: Str, n: int)
    requires IsWellFormed(s)
    ensures SliceBound(s, n) == if n >= |s| then |s| else if n >= 0 then n else if |s| + n >= 0 then |s| + n else 0
    ensures var r := SliceWellFormed(s, n);
      && r <= s && |r| <= SliceBound(s, n) && IsWellFormed(r)
      && forall p: Str :: p <= s && |p| <= SliceBound(s, n) && IsWellFormed(p) ==> |p| <= |r|
  {
    var b := SliceBound(s, n);
    var r := SliceWellFormed(s, n);
    assert s[..|s|] == s;
    WellFormedPrefix(s, b);
    if b > 0 && IsHigh(s[b - 1]) {
      assert s[..b][..b - 1] == s[..b - 1];
      HighIsNeverFollowedByHigh(s, b - 1);
      WellFormedPrefix(s, b - 1);
    }
    forall p: Str | p <= s && |p| <= b && IsWellFormed(p) ensures |p| <= |r| {
      WellFormedPrefix(s, |p|);
      assert p == s[..|p|];
    }
  }

  lemma {:induction false} HighIsNeverFollowedByHigh(s: Str, i: nat)
    requires IsWellFormed(s) && i < |s| && IsHigh(s[i])
    ensures i == 0 || !IsHigh(s[i - 1])
    decreases |s|
  {
    if i >= 1 {
      if IsHigh(s[0]) {
        if i >= 2 { HighIsNeverFollowedByHigh(s[2..], i - 2); }
      } else {
        HighIsNeverFollowedByHigh(s[1..], i - 1);
      }
    }
  }

  /**
    The cut is meant never to end on a high surrogate, "split pair or already lone". On
    ill-formed input it does: exactly when nothing is cut off and the string itself ends on
    one, or when two high surrogates end the slice.
   */
  lemma CutEndsOnAHighSurrogateExactly(s: Str, n: int)
    ensures var r, b := SliceWellFormed(s, n), SliceBound(s, n);
      (r != [] && IsHigh(r[|r| - 1])) <==>
        if n >= |s| then s != [] && IsHigh(s[|s| - 1]) else b >= 2 && IsHigh(s[b - 2]) && IsHigh(s[b - 1])
  {
  }

  /** One input for each of the two cases. */
  lemma CutsThatEndOnAHighSurrogate()
    ensures SliceWellFormed([0xD800], 1) == [0xD800]
    ensures SliceWellFormed([0xD800, 0xD800, 0x61], 2) == [0xD800]
  {
    var two: Str := [0xD800, 0xD800, 0x61];
    assert two[..2][..1] == [0xD800];
  }

  /** The plain recursive map: repair every key and every string, write members in order. */
  function Deep(v: Value): Value {
    match v
    case String(s) => String(ToWellFormed(s))
    case Array(items) => Array(seq(|items|, i requires 0 <= i < |items| => Deep(items[i])))
    case Object(fields) => Object(DeepFields(fields))
    case _ => v
  }

  function DeepFields(fields: seq<Field>): seq<Field> {
    if fields == [] then []
    else
      var last := fields[|fields| - 1];
      Put(DeepFields(fields[..|fields| - 1]), ToWellFormed(last.key), Deep(last.value))
  }

  /** Every string and every key inside `v` is well-formed, values with their own prototype aside. */
  predicate AllWellFormed(v: Value) {
    match v
    case String(s) => IsWellFormed(s)
    case Array(items) => forall x :: x in items ==> AllWellFormed(x)
    case Object(fields) => forall f :: f in fields ==> IsWellFormed(f.key) && AllWellFormed(f.value)
    case _ => true
  }

  lemma {:induction false} DeepRepairsEverything(v: Value)
    ensures AllWellFormed(Deep(v))
    ensures Proper(v) ==> Proper(Deep(v))
    decreases v, 1
  {
    match v {
      case String(s) => ToWellFormedRepairs(s);
      case Array(items) =>
        var next := seq(|items|, i requires 0 <= i < |items| => Deep(items[i]));
        forall x | x in next ensures AllWellFormed(x) && (Proper(v) ==> Proper(x)) {
          var i :| 0 <= i < |items| && x == Deep(items[i]);
          assert items[i] in items;
          DeepRepairsEverything(items[i]);
        }
      case Object(fields) => DeepFieldsRepairsEverything(fields);
      case _ =>
    }
  }

  lemma {:induction false} DeepFieldsRepairsEverything(fields: seq<Field>)
    ensures UniqueKeys(DeepFields(fields))
    ensures forall f :: f in DeepFields(fields) ==> IsWellFormed(f.key) && AllWellFormed(f.value)
    ensures (forall f :: f in fields ==> Proper(f.value)) ==> forall f :: f in DeepFields(fields) ==> Proper(f.value)
    decreases fields, 0
  {
    if fields != [] {
      var n := |fields| - 1;
      DeepFieldsRepairsEverything(fields[..n]);
      assert forall f :: f in fields[..n] ==> f in fields;
      assert fields[n] in fields;
      ToWellFormedRepairs(fields[n].key);
      DeepRepairsEverything(fields[n].value);
      PutMembers(DeepFields(fields[..n]), ToWellFormed(fields[n].key), Deep(fields[n].value));
      PutKeepsKeysUnique(DeepFields(fields[..n]), ToWellFormed(fields[n].key), Deep(fields[n].value));
    }
  }

  lemma {:induction false} DeepKeepsTheWellFormed(v: Value)
    requires Proper(v) && AllWellFormed(v)
    ensures Deep(v) == v
    decreases v, 1
  {
    match v {
      case String(s) => ToWellFormedRepairs(s);
      case Array(items) =>
        forall i | 0 <= i < |items| ensures Deep(items[i]) == items[i] {
          assert items[i] in items;
          DeepKeepsTheWellFormed(items[i]);
        }
      case Object(fields) => DeepFieldsKeepTheWellFormed(fields);
      case _ =>
    }
  }

  lemma {:induction false} DeepFieldsKeepTheWellFormed(fields: seq<Field>)
    requires UniqueKeys(fields)
    requires forall f :: f in fields ==> Proper(f.value) && IsWellFormed(f.key) && AllWellFormed(f.value)
    ensures DeepFields(fields) == fields
    decreases fields, 0
  {
    if fields != [] {
      var n := |fields| - 1;
      var init, last := fields[..n], fields[n];
      assert fields == init + [last];
      assert last in fields;
      assert UniqueKeys(init) by {
        forall i, j | 0 <= i < j < n ensures init[i].key != init[j].key {
          assert init[i] == fields[i] && init[j] == fields[j];
        }
      }
      DeepFieldsKeepTheWellFormed(init);
      ToWellFormedRepairs(last.key);
      DeepKeepsTheWellFormed(last.value);
      assert last.key !in Keys(init) by {
        forall f | f in init ensures f.key != last.key {
          var i :| 0 <= i < n && init[i] == f;
          assert fields[i].key != fields[n].key;
        }
      }
      PutOfANewKeyAppends(init, last.key, last.value);
    }
  }

  lemma DeepIsIdempotent(v: Value)
    requires Proper(v)
    ensures Deep(Deep(v)) == Deep(v)
  {
    DeepRepairsEverything(v);
    DeepKeepsTheWellFormed(Deep(v));
  }

  /**
    `toWellFormedDeep` with its sharing: `changed` says that a new value was built, and the
    value handed in is returned as it was when nothing inside it had to change.
   */
  method ToWellFormedDeep(value: Value) returns (r: Value, changed: bool)
    requires Proper(value)
    ensures r == Deep(value)
    ensures !changed ==> r == value
    ensures changed <==> !AllWellFormed(value)
    decreases value, 1
  {
    r, changed := value, false;
    match value {
      case String(s) =>
        r := String(ToWellFormed(s));
        changed := r != value;
        ToWellFormedRepairs(s);
      case Array(items) =>
        var next, anyNew := RepairItems(items);
        changed := anyNew;
        r := if changed then Array(next) else value;
      case Object(fields) =>
        var next, anyNew := RepairFields(fields);
        changed := anyNew;
        r := if changed then Object(next) else value;
        if !changed { DeepFieldsKeepTheWellFormed(fields); }
      case _ =>
    }
    if !changed { DeepKeepsTheWellFormed(value); }
  }

  method RepairItems(items: seq<Value>) returns (next: seq<Value>, changed: bool)
    requires forall x :: x in items ==> Proper(x)
    ensures Array(next) == Deep(Array(items))
    ensures changed <==> exists x :: x in items && !AllWellFormed(x)
    decreases items, 0
  {
    next, changed := [], false;
    for i := 0 to |items|
      invariant |next| == i
      invariant forall k :: 0 <= k < i ==> next[k] == Deep(items[k])
      invariant changed <==> exists x :: x in items[..i] && !AllWellFormed(x)
    {
      assert items[i] in items;
      var fixed, fixedIsNew := ToWellFormedDeep(items[i]);
      if fixedIsNew { changed := true; }
      next := next + [fixed];
      assert items[..i + 1] == items[..i] + [items[i]];
    }
    assert items[..|items|] == items;
  }

  predicate FieldWellFormed(f: Field) {
    IsWellFormed(f.key) && AllWellFormed(f.value)
  }

  method RepairFields(fields: seq<Field>) returns (next: seq<Field>, changed: bool)
    requires forall f :: f in fields ==> Proper(f.value)
    ensures next == DeepFields(fields)
    ensures changed <==> exists f :: f in fields && !FieldWellFormed(f)
    decreases fields, 0
  {
    next, changed := [], false;
    for i := 0 to |fields|
      invariant next == DeepFields(fields[..i])
      invariant changed <==> exists f :: f in fields[..i] && !FieldWellFormed(f)
    {
      assert fields[i] in fields;
      var fixedKey := ToWellFormed(fields[i].key);
      var fixed, fixedIsNew := ToWellFormedDeep(fields[i].value);
      ToWellFormedRepairs(fields[i].key);
      if fixedIsNew || fixedKey != fields[i].key { changed := true; }
      assert fixedIsNew || fixedKey != fields[i].key <==> !FieldWellFormed(fields[i]);
      assert fields[..i + 1][i] == fields[i];
      next := Put(next, fixedKey, fixed);
      assert fields[..i + 1] == fields[..i] + [fields[i]];
      assert fields[..i + 1][..i] == fields[..i];
    }
    assert fields[..|fields|] == fields;
  }
}
