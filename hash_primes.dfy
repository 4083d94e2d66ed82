/** The prime sizes of Dictionary64 (logics/utilities/Dictionary64.cs):
    a fixed ascending table of primes, a trial-division test for sizes past
    it, and the doubling rule used when the table grows. */
module HashPrimes {
  import opened Results

  /** Int32.MaxValue. */
  const Int32Max := 0x7FFF_FFFF

  /** The largest bucket count the table grows to. */
  const MaxPrimeArrayLength := 0x7FEF_FFFD

  /** The source's primes table; its first entry is kept apart so that the
      verifier reads it off directly. */
  const Primes: seq<int> := [3] + [
    7, 11, 17, 23, 29, 37, 47, 59, 71, 89, 107, 131, 163, 197, 239, 293, 353, 431, 521, 631, 761, 919,
    1103, 1327, 1597, 1931, 2333, 2801, 3371, 4049, 4861, 5839, 7013, 8419, 10103, 12143, 14591,
    17519, 21023, 25229, 30293, 36353, 43627, 52361, 62851, 75431, 90523, 108631, 130363, 156437,
    187751, 225307, 270371, 324449, 389357, 467237, 560689, 672827, 807403, 968897, 1162687, 1395263,
    1674319, 2009191, 2411033, 2893249, 3471899, 4166287, 4999559, 5999471, 7199369]

  /** The largest size the table holds. */
  const LastTablePrime := 7199369

  lemma TableShape()
    ensures |Primes| == 72
    ensures Primes[|Primes| - 1] == LastTablePrime
    ensures Primes[0] == 3
  {
  }

  /** Primality in the usual sense. */
  ghost predicate Prime(c: int) {
    c >= 2 && forall d :: 2 <= d < c ==> c % d != 0
  }

  /** What IsPrime decides: an odd candidate passes when no odd divisor from
      3 up to its integer square root divides it; an even one only when it is
      2. The limit (int)Math.Sqrt(c) is expressed through d * d <= c. */
  ghost predicate PassesPrimeTest(c: int) {
    if c % 2 == 1 then forall d :: 3 <= d && d * d <= c && d % 2 == 1 ==> c % d != 0
    else c == 2
  }

  lemma SquareMonotone(a: int, b: int)
    requires 0 <= a <= b
    ensures a * a <= b * b
  {
    assert a * a <= a * b <= b * b;
  }

  /** (int)Math.Sqrt(c): the floor of the square root. For an int the
      double square root is exact enough that truncation gives this. */
  function FloorSqrt(c: nat): (r: nat)
    ensures r * r <= c < (r + 1) * (r + 1)
  {
    if c == 0 then 0
    else
      var s := FloorSqrt(c - 1);
      if (s + 1) * (s + 1) <= c then
        assert c == (s + 1) * (s + 1);
        assert (s + 1) * (s + 1) < (s + 2) * (s + 2);
        s + 1
      else s
  }

  /** No odd number from 3 up to (not including) bound divides c. */
  ghost predicate NoOddDivisorBelow(c: int, bound: int) {
    forall d :: 3 <= d < bound && d % 2 == 1 ==> c % d != 0
  }

  /** The trial division; `candidate & 1` is the parity test for a
      non-negative candidate. */
  method IsPrime(candidate: nat) returns (r: bool)
    ensures r <==> PassesPrimeTest(candidate)
  {
    if candidate % 2 != 0 {
      var limit := FloorSqrt(candidate);
      r := TrialDivision(candidate, limit);
      LimitTest(candidate, limit);
      return;
    }
    return candidate == 2;
  }

  /** The loop over the odd divisors from 3 to limit: it answers false at
      the first one that divides the candidate. */
  method TrialDivision(candidate: nat, limit: nat) returns (r: bool)
    ensures r <==> NoOddDivisorBelow(candidate, limit + 1)
  {
    var divisor := 3;
    while divisor <= limit
      invariant divisor >= 3 && divisor % 2 == 1
      invariant NoOddDivisorBelow(candidate, divisor)
    {
      if candidate % divisor == 0 {
        return false;
      }
      NoOddDivisorStep(candidate, divisor);
      divisor := divisor + 2;
    }
    return true;
  }

  /** An odd divisor that does not divide extends the checked range past
      the even number after it. */
  lemma NoOddDivisorStep(c: int, divisor: int)
    requires divisor % 2 == 1 && NoOddDivisorBelow(c, divisor) && c % divisor != 0
    ensures NoOddDivisorBelow(c, divisor + 2)
  {
  }

  /** With limit the floor of the square root, ruling out the odd divisors
      up to limit is the test. */
  lemma LimitTest(candidate: nat, limit: nat)
    requires candidate % 2 == 1 && limit * limit <= candidate < (limit + 1) * (limit + 1)
    ensures NoOddDivisorBelow(candidate, limit + 1) <==> PassesPrimeTest(candidate)
  {
    if NoOddDivisorBelow(candidate, limit + 1) {
      forall d | 3 <= d && d * d <= candidate && d % 2 == 1
        ensures candidate % d != 0
      {
        if d > limit {
          SquareMonotone(limit + 1, d);
        }
      }
    }
    if PassesPrimeTest(candidate) {
      forall d | 3 <= d < limit + 1 && d % 2 == 1
        ensures candidate % d != 0
      {
        SquareMonotone(d, limit);
      }
    }
  }

  /** A divisor of an odd number is odd. */
  lemma OddDivisor(c: int, d: int)
    requires c % 2 == 1 && d > 0 && c % d == 0
    ensures d % 2 == 1
  {
    var q, h, r := c / d, d / 2, d % 2;
    assert c == d * q;
    assert d == 2 * h + r;
    assert c == 2 * (h * q) + r * q;
  }

  lemma MulMonotone(k: int, a: int, b: int)
    requires k >= 0 && a <= b
    ensures k * a <= k * b
  {
  }

  lemma MultipleMod(q: int, d: int)
    requires q > 0
    ensures (q * d) % q == 0
  {
    var x := q * d;
    var k, r := x / q, x % q;
    assert x == q * k + r;
    assert q * (d - k) == r;
    if d - k >= 1 {
      MulMonotone(q, 1, d - k);
    } else if d - k <= -1 {
      MulMonotone(q, d - k, -1);
    }
  }

  /** A composite number has a divisor no larger than its square root. */
  lemma SmallDivisor(c: int, d: int) returns (e: int)
    requires 2 <= d < c && c % d == 0
    ensures 2 <= e && e * e <= c && c % e == 0
  {
    var q := c / d;
    assert c == d * q;
    if d * d <= c {
      e := d;
    } else {
      assert q >= 2 by {
        if q <= 1 {
          MulMonotone(d, q, 1);
        }
      }
      assert q < d by {
        if q >= d {
          MulMonotone(d, d, q);
        }
      }
      MulMonotone(q, q, d);
      assert c == q * d;
      MultipleMod(q, d);
      e := q;
    }
  }

  lemma PassesImpliesPrime(c: int)
    requires c >= 2 && PassesPrimeTest(c)
    ensures Prime(c)
  {
    if c % 2 == 1 {
      forall d | 2 <= d < c
        ensures c % d != 0
      {
        if c % d == 0 {
          var e := SmallDivisor(c, d);
          OddDivisor(c, e);
          assert false;
        }
      }
    }
  }

  lemma PrimeImpliesPasses(c: int)
    requires Prime(c)
    ensures PassesPrimeTest(c)
  {
    if c % 2 == 1 {
      forall d | 3 <= d && d * d <= c && d % 2 == 1
        ensures c % d != 0
      {
        MulMonotone(d, 1, d);
      }
    }
  }

  /** From 2 on, the test decides primality exactly. */
  lemma PassesPrimeTestIsPrime(c: int)
    requires c >= 2
    ensures PassesPrimeTest(c) <==> Prime(c)
  {
    if PassesPrimeTest(c) {
      PassesImpliesPrime(c);
    }
    if Prime(c) {
      PrimeImpliesPasses(c);
    }
  }

  /** The test lets 1 through: it is odd and has no odd divisor below its
      root. GetPrime never asks about it. */
  lemma OnePassesPrimeTest()
    ensures PassesPrimeTest(1) && !Prime(1)
  {
    forall d | 3 <= d && d % 2 == 1
      ensures d * d > 1
    {
      MulMonotone(d, 1, d);
    }
  }

  /** The index of the first entry of table from `from` on that is at least
      min. */
  function FirstAtLeast(table: seq<int>, min: int, from: nat): (r: Option<nat>)
    ensures r.Some? ==> from <= r.value < |table| && table[r.value] >= min
    decreases |table| - from
  {
    if from >= |table| then None
    else if table[from] >= min then Some(from)
    else FirstAtLeast(table, min, from + 1)
  }

  lemma {:induction false} FirstAtLeastIsFirst(table: seq<int>, min: int, from: nat)
    ensures var r := FirstAtLeast(table, min, from);
            && (r.Some? ==> forall j :: from <= j < r.value ==> table[j] < min)
            && (r.None? ==> forall j :: from <= j < |table| ==> table[j] < min)
    decreases |table| - from
  {
    if from < |table| && table[from] < min {
      FirstAtLeastIsFirst(table, min, from + 1);
    }
  }

  /** `min | 1`: the odd number min or min + 1. */
  function OrOne(min: int): (r: int)
    ensures r % 2 == 1 && (r == min || r == min + 1)
  {
    if min % 2 == 0 then min + 1 else min
  }

  /** The first number of i's parity from i on, below Int32.MaxValue, that
      passes the test; min when there is none. */
  ghost function ProbeFrom(passes: int -> bool, i: int, min: int): (r: int)
    ensures r == min || (i <= r < Int32Max && r % 2 == i % 2 && passes(r))
    decreases Int32Max - i
  {
    if i >= Int32Max then min
    else if passes(i) then i
    else ProbeFrom(passes, i + 2, min)
  }

  /** The size GetPrime returns for min. */
  ghost function GetPrimeSpec(min: int): int {
    match FirstAtLeast(Primes, min, 0)
    case Some(k) => Primes[k]
    case None => ProbeFrom(PassesPrimeTest, OrOne(min), min)
  }

  /** Nothing of i's parity in [i, r) passes before the number r that
      ProbeFrom finds. */
  lemma {:induction false} ProbeFromIsFirst(passes: int -> bool, i: int, min: int, j: int)
    requires i <= j < Int32Max && j % 2 == i % 2 && passes(j)
    ensures i <= ProbeFrom(passes, i, min) <= j
    ensures forall m :: i <= m < ProbeFrom(passes, i, min) && m % 2 == i % 2 ==> !passes(m)
    decreases j - i
  {
    if !passes(i) {
      ProbeFromIsFirst(passes, i + 2, min, j);
    }
  }

  method GetPrime(min: int) returns (r: int)
    ensures r == GetPrimeSpec(min)
  {
    var listed := SearchTable(min);
    if listed.Some? {
      return listed.value;
    }
    assert Primes[0] < min;
    r := ProbeOdd(min);
  }

  /** The first loop of GetPrime: the first table entry at least min. */
  method SearchTable(min: int) returns (r: Option<int>)
    ensures FirstAtLeast(Primes, min, 0).Some? ==> r == Some(Primes[FirstAtLeast(Primes, min, 0).value])
    ensures FirstAtLeast(Primes, min, 0).None? ==> r.None?
  {
    for i := 0 to |Primes|
      invariant FirstAtLeast(Primes, min, 0) == FirstAtLeast(Primes, min, i)
    {
      if Primes[i] >= min {
        return Some(Primes[i]);
      }
    }
    return None;
  }

  /** The second loop of GetPrime, reached when min is past the table: the
      odd numbers from min on, tried below Int32.MaxValue; min itself when
      none passes. */
  method ProbeOdd(min: int) returns (r: int)
    requires min > 3
    ensures r == ProbeFrom(PassesPrimeTest, OrOne(min), min)
  {
    var i := OrOne(min);
    while i < Int32Max
      invariant i >= 0
      invariant ProbeFrom(PassesPrimeTest, OrOne(min), min) == ProbeFrom(PassesPrimeTest, i, min)
      decreases Int32Max - i
    {
      var found := ProbeOne(i, min);
      if found {
        return i;
      }
      i := i + 2;
    }
    return min;
  }

  /** One step of the probe: a number passing IsPrime ends it, any other is
      skipped. */
  method ProbeOne(i: nat, min: int) returns (found: bool)
    requires i < Int32Max
    ensures found ==> ProbeFrom(PassesPrimeTest, i, min) == i
    ensures !found ==> ProbeFrom(PassesPrimeTest, i, min) == ProbeFrom(PassesPrimeTest, i + 2, min)
  {
    found := IsPrime(i);
  }

  /** GetPrime: when some table entry is at least min (always so up to the
      last entry), the first such entry; when none is, min itself or the first
      odd number from min on that passes the test. */
  lemma GetPrimeChoice(min: int)
    ensures min <= LastTablePrime ==>
              exists k :: 0 <= k < |Primes| && GetPrimeSpec(min) == Primes[k] && min <= Primes[k]
                && forall j :: 0 <= j < k ==> Primes[j] < min
    ensures (forall j :: 0 <= j < |Primes| ==> Primes[j] < min) ==>
              GetPrimeSpec(min) == min
              || (min <= GetPrimeSpec(min) < Int32Max && GetPrimeSpec(min) % 2 == 1 && PassesPrimeTest(GetPrimeSpec(min))
                  && forall m :: min <= m < GetPrimeSpec(min) && m % 2 == 1 ==> !PassesPrimeTest(m))
    ensures GetPrimeSpec(min) >= min && GetPrimeSpec(min) >= 3
  {
    TableShape();
    var t := FirstAtLeast(Primes, min, 0);
    FirstAtLeastIsFirst(Primes, min, 0);
    if t.Some? {
      var k := t.value;
      assert GetPrimeSpec(min) == Primes[k];
      if k > 0 {
        assert Primes[0] < min;
      }
    } else {
      assert Primes[|Primes| - 1] < min;
      var r := ProbeFrom(PassesPrimeTest, OrOne(min), min);
      if r != min {
        ProbeFromIsFirst(PassesPrimeTest, OrOne(min), min, r);
      }
    }
  }

  /** The new table size after growth: twice the old one, capped at
      MaxPrimeArrayLength, rounded up by GetPrime. The doubling overflows
      int for old sizes of 2^30 and more, and the (uint) cast undoes that,
      so the comparison is made on the exact double. */
  ghost function ExpandPrimeSpec(oldSize: int): int {
    if oldSize + oldSize > MaxPrimeArrayLength then MaxPrimeArrayLength else GetPrimeSpec(oldSize + oldSize)
  }

  method ExpandPrime(oldSize: int) returns (r: int)
    requires 0 <= oldSize <= Int32Max
    ensures r == ExpandPrimeSpec(oldSize)
  {
    var newSize := oldSize + oldSize;
    if newSize > MaxPrimeArrayLength {
      return MaxPrimeArrayLength;
    }
    r := GetPrime(newSize);
  }

  /** Growth always makes room for one more entry below the cap, and at
      least doubles the size when it is not capped. */
  lemma ExpandPrimeGrows(oldSize: int)
    requires 0 <= oldSize
    ensures oldSize < MaxPrimeArrayLength ==> ExpandPrimeSpec(oldSize) > oldSize
    ensures oldSize + oldSize <= MaxPrimeArrayLength ==> ExpandPrimeSpec(oldSize) >= oldSize + oldSize
  {
    GetPrimeChoice(oldSize + oldSize);
  }
}
