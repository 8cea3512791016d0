/** Versions of replicated task runs: a generation and a log position packed into one number, and the row it lets survive. */
module TaskRunVersion {
  import opened Numbers

  // ---- Bit operations on unbounded integers, as BigInt has them ----

  function ShiftLeft(x: nat, k: nat): nat {
    x * Pow2(k)
  }

  /** Bit by bit; a negative number counts in two's complement. */
  function BitAnd(x: int, mask: nat): nat
    decreases mask
  {
    if mask == 0 then 0 else 2 * BitAnd(x / 2, mask / 2) + (x % 2) * (mask % 2)
  }

  function BitOr(x: nat, y: nat): nat
    decreases x + y
  {
    if x == 0 && y == 0 then 0 else 2 * BitOr(x / 2, y / 2) + (if x % 2 == 1 || y % 2 == 1 then 1 else 0)
  }

  lemma HalvedRemainder(x: int, p: nat)
    requires p >= 1
    ensures x % (2 * p) == 2 * ((x / 2) % p) + x % 2
  {
    var q, r := (x / 2) / p, (x / 2) % p;
    assert x == 2 * (p * q + r) + x % 2;
    assert 2 * (p * q) == (2 * p) * q;
    QuotientIsUnique(x, 2 * p, q, 2 * r + x % 2);
  }

  lemma NothingMasked(x: int)
    ensures BitAnd(x, 0) == 0 && x % 1 == 0
  {
  }

  lemma LowestBitMasked(x: int, m: nat)
    requires m >= 1
    ensures BitAnd(x, 2 * m - 1) == 2 * BitAnd(x / 2, m - 1) + x % 2
  {
    var mask := 2 * m - 1;
    assert mask / 2 == m - 1 && mask % 2 == 1;
    assert (x % 2) * 1 == x % 2;
  }

  lemma {:induction false} MaskIsRemainder(x: int, k: nat)
    ensures BitAnd(x, Pow2(k) - 1) == x % Pow2(k)
    decreases k
  {
    hide BitAnd;
    if k == 0 {
      NothingMasked(x);
    } else {
      MaskIsRemainder(x / 2, k - 1);
      LowestBitMasked(x, Pow2(k - 1));
      HalvedRemainder(x, Pow2(k - 1));
    }
  }

  lemma {:induction false} OrOfNothing(x: nat)
    ensures BitOr(x, 0) == x
  {
    if x > 0 { OrOfNothing(x / 2); }
  }

  lemma {:induction false} OrOfDisjointBits(x: nat, y: nat, k: nat)
    requires y < Pow2(k)
    ensures BitOr(ShiftLeft(x, k), y) == ShiftLeft(x, k) + y
    decreases k
  {
    if k == 0 {
      OrOfNothing(x);
    } else {
      var high := ShiftLeft(x, k);
      assert high == 2 * ShiftLeft(x, k - 1) by { assert x * (2 * Pow2(k - 1)) == 2 * (x * Pow2(k - 1)); }
      OrOfDisjointBits(x, y / 2, k - 1);
    }
  }

  // ---- The version ----

  datatype Version = Composed(value: nat) | OutOfRange(generation: int)

  const LSN_BITS: nat := 56

  /** `composeTaskRunVersion`. */
  function Compose(generation: int, lsn: int): Version {
    if generation < 0 || generation > 0xFF then OutOfRange(generation)
    else Composed(BitOr(ShiftLeft(generation, LSN_BITS), BitAnd(lsn, ShiftLeft(1, LSN_BITS) - 1)))
  }

  /** The generation above, the log position modulo 2^56 below, and nothing lost but what does not fit. */
  lemma ComposedValue(generation: int, lsn: int)
    requires 0 <= generation <= 0xFF
    ensures Compose(generation, lsn) == Composed(generation * Pow2(56) + lsn % Pow2(56))
    ensures Compose(generation, lsn).value < Pow2(64)
  {
    hide BitOr, BitAnd, Pow2;
    OneShifted(LSN_BITS);
    MaskIsRemainder(lsn, LSN_BITS);
    OrOfDisjointBits(generation, lsn % Pow2(56), LSN_BITS);
    PowerSum(8, 56);
    PowerOfEight();
    FitsAbove(generation, lsn % Pow2(56), Pow2(56));
  }

  lemma OneShifted(k: nat)
    ensures ShiftLeft(1, k) == Pow2(k)
  {
    hide Pow2;
  }

  lemma FitsAbove(g: nat, r: nat, p: nat)
    requires g <= 255 && r < p
    ensures g * p + r < 256 * p
  {
    assert g * p <= 255 * p;
  }

  /** Smaller generation, or the same one and the smaller log position. */
  predicate Before(generation: int, lsn: int, generation': int, lsn': int) {
    generation < generation' || (generation == generation' && lsn < lsn')
  }

  predicate InRange(generation: int, lsn: int) {
    0 <= generation <= 0xFF && 0 <= lsn < Pow2(56)
  }

  /** Versions order as generation and log position modulo 2^56 do, so exactly lexicographically while positions fit. */
  lemma VersionsOrderLexicographically(generation: int, lsn: int, generation': int, lsn': int)
    requires 0 <= generation <= 0xFF && 0 <= generation' <= 0xFF
    ensures Compose(generation, lsn).value < Compose(generation', lsn').value
       <==> Before(generation, lsn % Pow2(56), generation', lsn' % Pow2(56))
    ensures InRange(generation, lsn) && InRange(generation', lsn') ==>
      (Compose(generation, lsn).value < Compose(generation', lsn').value <==> Before(generation, lsn, generation', lsn'))
  {
    ComposedValue(generation, lsn);
    ComposedValue(generation', lsn');
    PackedOrder(generation, lsn % Pow2(56), generation', lsn' % Pow2(56), Pow2(56));
    if InRange(generation, lsn) { QuotientIsUnique(lsn, Pow2(56), 0, lsn); }
    if InRange(generation', lsn') { QuotientIsUnique(lsn', Pow2(56), 0, lsn'); }
  }

  lemma PackedOrder(g: nat, l: nat, g': nat, l': nat, p: nat)
    requires l < p && l' < p
    ensures g * p + l < g' * p + l' <==> Before(g, l, g', l')
  {
    if g < g' {
      assert (g + 1) * p <= g' * p && (g + 1) * p == g * p + p;
    } else if g > g' {
      assert (g' + 1) * p <= g * p && (g' + 1) * p == g' * p + p;
    }
  }

  /** No two pairs in range share a version. */
  lemma VersionsAreInjective(generation: int, lsn: int, generation': int, lsn': int)
    requires InRange(generation, lsn) && InRange(generation', lsn')
    requires Compose(generation, lsn) == Compose(generation', lsn')
    ensures generation == generation' && lsn == lsn'
  {
    VersionsOrderLexicographically(generation, lsn, generation', lsn');
    VersionsOrderLexicographically(generation', lsn', generation, lsn);
  }

  /** A position past 56 bits wraps below the positions before it. */
  lemma PositionsPastTheMaskWrap(generation: int)
    requires 0 <= generation <= 0xFF
    ensures Compose(generation, Pow2(56)).value < Compose(generation, Pow2(56) - 1).value
  {
    VersionsOrderLexicographically(generation, Pow2(56), generation, Pow2(56) - 1);
    QuotientIsUnique(Pow2(56), Pow2(56), 1, 0);
    QuotientIsUnique(Pow2(56) - 1, Pow2(56), 0, Pow2(56) - 1);
    assert Pow2(1) == 2;
    PowerSum(1, 55);
  }

  // ---- What survives ----

  datatype Row = Row(generation: int, lsn: int, body: string)

  function VersionOf(r: Row): Version {
    Compose(r.generation, r.lsn)
  }

  /** The row kept for a run: the highest version, and of equal ones the last to arrive. */
  function Survivor(stream: seq<Row>): (kept: Row)
    requires stream != []
    requires forall r :: r in stream ==> InRange(r.generation, r.lsn)
    ensures kept in stream
  {
    var n := |stream| - 1;
    if n == 0 then stream[0]
    else
      assert stream[n] in stream;
      assert InRange(stream[n].generation, stream[n].lsn);
      var kept := Survivor(stream[..n]);
      if VersionOf(stream[n]).value >= VersionOf(kept).value then stream[n] else kept
  }

  predicate IsNewest(stream: seq<Row>, r: Row) {
    r in stream && forall o :: o in stream ==> !Before(r.generation, r.lsn, o.generation, o.lsn)
  }

  lemma {:induction false} SurvivorIsNewest(stream: seq<Row>)
    requires stream != [] && forall r :: r in stream ==> InRange(r.generation, r.lsn)
    ensures IsNewest(stream, Survivor(stream))
  {
    hide Compose, InRange;
    var n := |stream| - 1;
    assert stream == stream[..n] + [stream[n]];
    if n > 0 {
      SurvivorIsNewest(stream[..n]);
      var kept, last := Survivor(stream[..n]), stream[n];
      NewerVersions(kept, last);
    }
  }

  lemma NewerVersions(kept: Row, last: Row)
    requires InRange(kept.generation, kept.lsn) && InRange(last.generation, last.lsn)
    ensures VersionOf(last).value >= VersionOf(kept).value <==> !Before(last.generation, last.lsn, kept.generation, kept.lsn)
  {
    hide Compose;
    InRangeMeans(kept);
    InRangeMeans(last);
    VersionsOrderLexicographically(last.generation, last.lsn, kept.generation, kept.lsn);
  }

  lemma InRangeMeans(r: Row)
    requires InRange(r.generation, r.lsn)
    ensures 0 <= r.generation <= 0xFF
  {
  }

  /** A log position of a generation stands for one state of the row. */
  predicate PositionsIdentifyRows(stream: seq<Row>) {
    forall r, o :: r in stream && o in stream && r.generation == o.generation && r.lsn == o.lsn ==> r == o
  }

  /** However the producers' streams interleave, and however often their rows repeat, the same row survives. */
  lemma SurvivorIgnoresOrderAndRepeats(a: seq<Row>, b: seq<Row>)
    requires a != [] && forall r :: r in a ==> InRange(r.generation, r.lsn)
    requires forall r :: r in a <==> r in b
    requires PositionsIdentifyRows(a)
    ensures b != [] && (forall r :: r in b ==> InRange(r.generation, r.lsn)) && Survivor(a) == Survivor(b)
  {
    hide Survivor, InRange;
    assert a[0] in b;
    SurvivorIsNewest(a);
    SurvivorIsNewest(b);
    var x, y := Survivor(a), Survivor(b);
    assert y in a;
    assert !Before(x.generation, x.lsn, y.generation, y.lsn);
    assert !Before(y.generation, y.lsn, x.generation, x.lsn);
  }
}
