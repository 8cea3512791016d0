/** JavaScript strings: sequences of UTF-16 code units, with the string operations the models share. */
module Text {

  newtype Unit = x: int | 0 <= x < 0x10000

  type Str = seq<Unit>

  datatype Option<+T> = None | Some(value: T)

  /** A source literal as code units; every literal of these models is in the basic plane. */
  function Lit(s: string): (r: Str)
    ensures |r| == |s|
  {
    seq(|s|, i requires 0 <= i < |s| => (s[i] as int % 0x10000) as Unit)
  }

  /** White space and line terminators, as `String.prototype.trim` removes them (ECMA-262, section 22.1.3.32). */
  predicate IsSpace(u: Unit) {
    || 9 <= u <= 13 || u == 0x20 || u == 0xA0 || u == 0x1680
    || 0x2000 <= u <= 0x200A || u == 0x2028 || u == 0x2029
    || u == 0x202F || u == 0x205F || u == 0x3000 || u == 0xFEFF
  }

  function TrimStart(s: Str): (r: Str)
    ensures |r| <= |s|
    ensures r != [] ==> !IsSpace(r[0])
  {
    if s != [] && IsSpace(s[0]) then TrimStart(s[1..]) else s
  }

  function TrimEnd(s: Str): (r: Str)
    ensures |r| <= |s|
    ensures r != [] ==> !IsSpace(r[|r| - 1])
  {
    if s != [] && IsSpace(s[|s| - 1]) then TrimEnd(s[..|s| - 1]) else s
  }

  /** Trimming takes a prefix away, and a suffix. */
  lemma {:induction false} TrimStartIsASuffix(s: Str)
    ensures TrimStart(s) == s[|s| - |TrimStart(s)|..]
  {
    hide IsSpace;
    if s != [] && IsSpace(s[0]) {
      TrimStartIsASuffix(s[1..]);
    }
  }

  lemma {:induction false} TrimEndIsAPrefix(s: Str)
    ensures TrimEnd(s) == s[..|TrimEnd(s)|]
  {
    hide IsSpace;
    if s != [] && IsSpace(s[|s| - 1]) {
      TrimEndIsAPrefix(s[..|s| - 1]);
    }
  }

  function Trim(s: Str): Str {
    TrimEnd(TrimStart(s))
  }

  lemma TrimmedIsFixed(s: Str)
    requires s != [] ==> !IsSpace(s[0]) && !IsSpace(s[|s| - 1])
    ensures Trim(s) == s
  {
  }

  /** `s.split(c)` for a one-unit separator; never empty. */
  function Split(s: Str, c: Unit): (r: seq<Str>)
    ensures r != []
    ensures forall p :: p in r ==> c !in p
  {
    if s == [] then [[]]
    else
      var rest := Split(s[1..], c);
      if s[0] == c then [[]] + rest else [[s[0]] + rest[0]] + rest[1..]
  }

  function Join(parts: seq<Str>, sep: Str): Str {
    if parts == [] then [] else if |parts| == 1 then parts[0]
    else parts[0] + sep + Join(parts[1..], sep)
  }

  lemma {:induction false} SplitAtSeparator(a: Str, c: Unit, b: Str)
    requires c !in a
    ensures Split(a + [c] + b, c) == [a] + Split(b, c)
  {
    if a == [] {
      assert (a + [c] + b)[1..] == b;
    } else {
      assert (a + [c] + b)[1..] == a[1..] + [c] + b;
      SplitAtSeparator(a[1..], c, b);
      assert [a[0]] + a[1..] == a;
    }
  }

  lemma {:induction false} SplitWithoutSeparator(a: Str, c: Unit)
    requires c !in a
    ensures Split(a, c) == [a]
  {
    if a != [] {
      SplitWithoutSeparator(a[1..], c);
      assert [a[0]] + a[1..] == a;
    }
  }

  lemma {:induction false} SplitUndoesJoin(parts: seq<Str>, c: Unit)
    requires parts != []
    requires forall p :: p in parts ==> c !in p
    ensures Split(Join(parts, [c]), c) == parts
  {
    hide Split;
    assert parts[0] in parts;
    assert parts == [parts[0]] + parts[1..];
    if |parts| == 1 {
      SplitWithoutSeparator(parts[0], c);
    } else {
      forall p | p in parts[1..] ensures c !in p { assert p in parts; }
      SplitUndoesJoin(parts[1..], c);
      SplitAtSeparator(parts[0], c, Join(parts[1..], [c]));
    }
  }

  lemma {:induction false} JoinUndoesSplit(s: Str, c: Unit)
    ensures Join(Split(s, c), [c]) == s
  {
    if s != [] {
      var rest := Split(s[1..], c);
      JoinUndoesSplit(s[1..], c);
      if s[0] == c {
        assert ([[]] + rest)[1..] == rest;
        assert s == [c] + s[1..];
      } else {
        var parts := [[s[0]] + rest[0]] + rest[1..];
        assert parts[1..] == rest[1..];
        assert s == [s[0]] + s[1..];
        if |rest| > 1 {
          assert Join(parts, [c]) == [s[0]] + (rest[0] + [c] + Join(rest[1..], [c]));
        }
      }
    }
  }

  predicate IsDigit(u: Unit) {
    48 <= u <= 57
  }

  predicate AllDigits(s: Str) {
    forall u :: u in s ==> IsDigit(u)
  }

  /** Decimal notation without leading zeros. */
  function Decimal(n: nat): (r: Str)
    ensures r != [] && AllDigits(r)
  {
    if n < 10 then [(48 + n) as Unit] else Decimal(n / 10) + [(48 + n % 10) as Unit]
  }

  /** The number a digit string denotes; leading zeros are allowed. */
  function DigitsValue(s: Str): nat
    requires AllDigits(s)
  {
    if s == [] then 0
    else
      assert s[|s| - 1] in s;
      10 * DigitsValue(s[..|s| - 1]) + (s[|s| - 1] as int - 48)
  }

  lemma {:induction false} DecimalDenotesItsNumber(n: nat)
    ensures DigitsValue(Decimal(n)) == n
  {
    if n >= 10 {
      var d := Decimal(n);
      assert d[..|d| - 1] == Decimal(n / 10);
      DecimalDenotesItsNumber(n / 10);
    } else {
      assert Decimal(n)[..0] == [];
    }
  }

  lemma DecimalIsInjective(m: nat, n: nat)
    requires Decimal(m) == Decimal(n)
    ensures m == n
  {
    DecimalDenotesItsNumber(m);
    DecimalDenotesItsNumber(n);
  }

  lemma DecimalLacks(n: nat, c: Unit)
    requires !IsDigit(c)
    ensures c !in Decimal(n)
  {
    hide Decimal;
    forall u | u in Decimal(n) ensures u != c {
      assert IsDigit(u);
    }
  }

  /** The last separator splits a string uniquely when what follows it has none. */
  lemma LastSeparatorIsUnique(a: Str, x: Str, b: Str, y: Str, c: Unit)
    requires c !in x && c !in y
    requires a + [c] + x == b + [c] + y
    ensures a == b && x == y
  {
    var s := a + [c] + x;
    assert s[|a|] == c && s[|b|] == c;
    assert forall i :: |a| < i < |s| ==> s[i] == x[i - |a| - 1];
    assert forall i :: |b| < i < |s| ==> s[i] == y[i - |b| - 1];
    assert a == s[..|a|] && b == s[..|b|];
    assert x == s[|a| + 1..] && y == s[|b| + 1..];
  }

  /** The first separator splits a string uniquely when what precedes it has none. */
  lemma FirstSeparatorIsUnique(a: Str, x: Str, b: Str, y: Str, c: Unit)
    requires c !in a && c !in b
    requires a + [c] + x == b + [c] + y
    ensures a == b && x == y
  {
    var s := a + [c] + x;
    assert s[|a|] == c && s[|b|] == c;
    assert forall i :: 0 <= i < |a| ==> s[i] == a[i];
    assert forall i :: 0 <= i < |b| ==> s[i] == b[i];
    assert a == s[..|a|] && b == s[..|b|];
    assert x == s[|a| + 1..] && y == s[|b| + 1..];
  }
}
