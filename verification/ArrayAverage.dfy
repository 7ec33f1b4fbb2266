/**
 The average of an array, computed element by element, in vector registers, and by several threads.

 Arithmetic is exact: `real` stands for `float` and `double`, so that rounding is not captured. The module proves
 that the vector forms agree with the plain loop exactly when the size fills whole vectors, and otherwise read
 behind the array; and that the threads agree with it on all arrays of a size exactly when the thread count divides
 the size.
 */
module ArrayAverage {

  function Sum(numbers: seq<real>): real {
    if numbers == [] then 0.0 else Sum(numbers[..|numbers| - 1]) + numbers[|numbers| - 1]
  }

  datatype Average = Value(average: real) | NotANumber | OutOfBounds

  function Divide(sum: real, size: nat): (r: Average)
    ensures if size == 0 then r.NotANumber? else r.Value? && r.average * size as real == sum
  {
    if size == 0 then NotANumber else Value(sum / size as real)
  }

  method AverageC(numbers: array<real>) returns (r: Average)
    ensures if numbers.Length == 0 then r.NotANumber?
            else r.Value? && r.average * numbers.Length as real == Sum(numbers[..])
  {
    var sum := 0.0;
    for i := 0 to numbers.Length
      invariant sum == Sum(numbers[..i])
    {
      assert numbers[..i + 1][..i] == numbers[..i];
      sum := sum + numbers[i];
    }
    assert numbers[..] == numbers[..numbers.Length];
    r := Divide(sum, numbers.Length);
  }

  // ---------------------------------------------------------------- vectors

  datatype Xmm = Xmm(a: real, b: real, c: real, d: real) {
    /** `addps` */
    function Add(other: Xmm): Xmm {
      Xmm(a + other.a, b + other.b, c + other.c, d + other.d)
    }

    /** `haddps`: sums of neighbours, first those of this register. */
    function Hadd(other: Xmm): Xmm {
      Xmm(a + b, c + d, other.a + other.b, other.c + other.d)
    }

    function Lanes(): real {
      a + b + c + d
    }
  }

  datatype Ymm = Ymm(low: Xmm, high: Xmm) {
    function Add(other: Ymm): Ymm {
      Ymm(low.Add(other.low), high.Add(other.high))
    }

    function Lanes(): real {
      low.Lanes() + high.Lanes()
    }
  }

  function Load(numbers: seq<real>, i: nat): Xmm
    requires i + 4 <= |numbers|
  {
    Xmm(numbers[i], numbers[i + 1], numbers[i + 2], numbers[i + 3])
  }

  lemma SumOfNext(numbers: seq<real>, i: nat)
    requires i < |numbers|
    ensures Sum(numbers[..i + 1]) == Sum(numbers[..i]) + numbers[i]
  {
    assert numbers[..i + 1][..i] == numbers[..i];
  }

  lemma SumOfLoaded(numbers: seq<real>, i: nat)
    requires i + 4 <= |numbers|
    ensures Sum(numbers[..i + 4]) == Sum(numbers[..i]) + Load(numbers, i).Lanes()
  {
    SumOfNext(numbers, i);
    SumOfNext(numbers, i + 1);
    SumOfNext(numbers, i + 2);
    SumOfNext(numbers, i + 3);
  }

  function LoadYmm(numbers: seq<real>, i: nat): Ymm
    requires i + 8 <= |numbers|
  {
    Ymm(Load(numbers, i), Load(numbers, i + 4))
  }

  const ZEROS := Xmm(0.0, 0.0, 0.0, 0.0)

  lemma AddLanes(x: Xmm, y: Xmm)
    ensures x.Add(y).Lanes() == x.Lanes() + y.Lanes()
  {
  }

  /** The four partial sums after so many blocks of four. */
  function FourSums(numbers: seq<real>, blocks: nat): Xmm
    requires 4 * blocks <= |numbers|
  {
    if blocks == 0 then ZEROS else FourSums(numbers, blocks - 1).Add(Load(numbers, 4 * blocks - 4))
  }

  lemma {:induction false} FourSumsAddUp(numbers: seq<real>, blocks: nat)
    requires 4 * blocks <= |numbers|
    ensures FourSums(numbers, blocks).Lanes() == Sum(numbers[..4 * blocks])
  {
    if blocks > 0 {
      FourSumsAddUp(numbers, blocks - 1);
      SumOfLoaded(numbers, 4 * blocks - 4);
      AddLanes(FourSums(numbers, blocks - 1), Load(numbers, 4 * blocks - 4));
    }
  }

  /** The eight partial sums after so many blocks of eight. */
  function EightSums(numbers: seq<real>, blocks: nat): Ymm
    requires 8 * blocks <= |numbers|
  {
    if blocks == 0 then Ymm(ZEROS, ZEROS)
    else EightSums(numbers, blocks - 1).Add(LoadYmm(numbers, 8 * blocks - 8))
  }

  lemma {:induction false} EightSumsAddUp(numbers: seq<real>, blocks: nat)
    requires 8 * blocks <= |numbers|
    ensures EightSums(numbers, blocks).Lanes() == Sum(numbers[..8 * blocks])
  {
    if blocks > 0 {
      var acc, i := EightSums(numbers, blocks - 1), 8 * blocks - 8;
      EightSumsAddUp(numbers, blocks - 1);
      SumOfLoaded(numbers, i);
      SumOfLoaded(numbers, i + 4);
      AddLanes(acc.low, Load(numbers, i));
      AddLanes(acc.high, Load(numbers, i + 4));
    }
  }

  method AverageSse(numbers: array<real>) returns (r: Average)
    ensures r.OutOfBounds? <==> numbers.Length % 4 != 0
    ensures numbers.Length % 4 == 0 ==>
              if numbers.Length == 0 then r.NotANumber?
              else r.Value? && r.average * numbers.Length as real == Sum(numbers[..])
  {
    ghost var all, blocks := numbers[..], 0;
    var xmm0 := ZEROS;
    var rax := 0;
    while rax < numbers.Length
      invariant rax == 4 * blocks && rax <= numbers.Length
      invariant xmm0 == FourSums(all, blocks)
    {
      if numbers.Length < rax + 4 {
        return OutOfBounds;
      }
      var xmm1 := Load(numbers[..], rax);
      xmm0 := xmm0.Add(xmm1);
      rax := rax + 4;
      blocks := blocks + 1;
    }
    FourSumsAddUp(all, blocks);
    assert all[..rax] == all;
    xmm0 := xmm0.Hadd(xmm0);
    xmm0 := xmm0.Hadd(xmm0);
    r := Divide(xmm0.a, numbers.Length);
  }

  /** The loop that the AVX form and the intrinsics share. */
  method SumLanes(numbers: array<real>) returns (inBounds: bool, ymm0: Ymm)
    ensures inBounds <==> numbers.Length % 8 == 0
    ensures inBounds ==> ymm0.Lanes() == Sum(numbers[..])
  {
    ghost var all, blocks := numbers[..], 0;
    ymm0 := Ymm(ZEROS, ZEROS);
    var rax := 0;
    while rax < numbers.Length
      invariant rax == 8 * blocks && rax <= numbers.Length
      invariant ymm0 == EightSums(all, blocks)
    {
      if numbers.Length < rax + 8 {
        return false, ymm0;
      }
      var ymm1 := LoadYmm(numbers[..], rax);
      ymm0 := ymm0.Add(ymm1);
      rax := rax + 8;
      blocks := blocks + 1;
    }
    EightSumsAddUp(all, blocks);
    assert all[..rax] == all;
    inBounds := true;
  }

  method AverageAvx(numbers: array<real>) returns (r: Average)
    ensures r.OutOfBounds? <==> numbers.Length % 8 != 0
    ensures numbers.Length % 8 == 0 ==>
              if numbers.Length == 0 then r.NotANumber?
              else r.Value? && r.average * numbers.Length as real == Sum(numbers[..])
  {
    var inBounds, ymm0 := SumLanes(numbers);
    if !inBounds {
      return OutOfBounds;
    }
    var xmm1 := ymm0.high;
    var xmm0 := ymm0.low.Hadd(xmm1);
    xmm0 := xmm0.Hadd(xmm0);
    xmm0 := xmm0.Hadd(xmm0);
    r := Divide(xmm0.a, numbers.Length);
  }

  method AverageIntrinsics(numbers: array<real>) returns (r: Average)
    ensures r.OutOfBounds? <==> numbers.Length % 8 != 0
    ensures numbers.Length % 8 == 0 ==>
              if numbers.Length == 0 then r.NotANumber?
              else r.Value? && r.average * numbers.Length as real == Sum(numbers[..])
  {
    var inBounds, counters := SumLanes(numbers);
    if !inBounds {
      return OutOfBounds;
    }
    var rsum := counters.high.Hadd(counters.low);
    rsum := rsum.Hadd(rsum);
    rsum := rsum.Hadd(rsum);
    r := Divide(rsum.a, numbers.Length);
  }

  // ---------------------------------------------------------------- ranges

  // Ranges in general: `length` elements from each of `starts` on.

  predicate Fit(starts: seq<nat>, length: nat, size: nat) {
    forall i | 0 <= i < |starts| :: starts[i] + length <= size
  }

  predicate Disjoint(starts: seq<nat>, length: nat) {
    forall i, j | 0 <= i < j < |starts| :: starts[i] + length <= starts[j]
  }

  /** Each range begins where the one before it ends, or a little later. */
  predicate InOrder(starts: seq<nat>, length: nat) {
    forall i | 0 < i < |starts| :: starts[i - 1] + length <= starts[i]
  }

  predicate WithoutGaps(starts: seq<nat>, length: nat) {
    forall i | 0 < i < |starts| :: starts[i] == starts[i - 1] + length
  }

  lemma {:induction false} OrderedTwo(starts: seq<nat>, length: nat, i: nat, j: nat)
    requires InOrder(starts, length) && i < j < |starts|
    ensures starts[i] + length <= starts[j]
    decreases j
  {
    if i < j - 1 {
      OrderedTwo(starts, length, i, j - 1);
    }
  }

  lemma OrderedAreDisjoint(starts: seq<nat>, length: nat)
    requires InOrder(starts, length)
    ensures Disjoint(starts, length)
  {
    forall i, j | 0 <= i < j < |starts|
      ensures starts[i] + length <= starts[j]
    {
      OrderedTwo(starts, length, i, j);
    }
  }

  function Piece(numbers: seq<real>, begin: nat, length: nat): seq<real>
    requires begin + length <= |numbers|
  {
    numbers[begin..begin + length]
  }

  /** The sum of each range. */
  function RangeSums(numbers: seq<real>, starts: seq<nat>, length: nat): (sums: seq<real>)
    requires Fit(starts, length, |numbers|)
    ensures |sums| == |starts|
  {
    seq(|starts|, i requires 0 <= i < |starts| => Sum(Piece(numbers, starts[i], length)))
  }

  /** The sums of all ranges added up. */
  function RangesSum(numbers: seq<real>, starts: seq<nat>, length: nat): real
    requires Fit(starts, length, |numbers|)
  {
    Sum(RangeSums(numbers, starts, length))
  }

  lemma RangesSumNext(numbers: seq<real>, starts: seq<nat>, length: nat)
    requires Fit(starts, length, |numbers|) && starts != []
    ensures var others, last := starts[..|starts| - 1], starts[|starts| - 1];
            RangesSum(numbers, starts, length) == RangesSum(numbers, others, length) + Sum(Piece(numbers, last, length))
  {
    var sums := RangeSums(numbers, starts, length);
    assert sums[..|sums| - 1] == RangeSums(numbers, starts[..|starts| - 1], length);
  }

  function Interval(begin: nat, end: nat): set<nat>
    decreases end
  {
    if end <= begin then {} else Interval(begin, end - 1) + {end - 1}
  }

  lemma {:induction false} InInterval(begin: nat, end: nat)
    ensures forall k :: k in Interval(begin, end) <==> begin <= k < end
    decreases end
  {
    if begin < end {
      InInterval(begin, end - 1);
    }
  }

  lemma {:induction false} IntervalSize(begin: nat, end: nat)
    requires begin <= end
    ensures |Interval(begin, end)| == end - begin
    decreases end
  {
    if begin < end {
      IntervalSize(begin, end - 1);
      InInterval(begin, end - 1);
    }
  }

  predicate InSomeRange(starts: seq<nat>, length: nat, k: nat) {
    exists i | 0 <= i < |starts| :: starts[i] <= k < starts[i] + length
  }

  /** The indices that no range covers: what is left when the ranges are taken away one by one. */
  function Uncovered(size: nat, starts: seq<nat>, length: nat): set<nat> {
    if starts == [] then Interval(0, size)
    else
      var last := starts[|starts| - 1];
      Uncovered(size, starts[..|starts| - 1], length) - Interval(last, last + length)
  }

  lemma {:induction false} UncoveredMeans(size: nat, starts: seq<nat>, length: nat, k: nat)
    ensures k in Uncovered(size, starts, length) <==> k < size && !InSomeRange(starts, length, k)
  {
    if starts == [] {
      InInterval(0, size);
    } else {
      UncoveredMeans(size, starts[..|starts| - 1], length, k);
      InInterval(starts[|starts| - 1], starts[|starts| - 1] + length);
      InLastRange(starts, length, k);
    }
  }

  lemma InLastRange(starts: seq<nat>, length: nat, k: nat)
    requires starts != []
    ensures var others, last := starts[..|starts| - 1], starts[|starts| - 1];
            InSomeRange(starts, length, k) <==> InSomeRange(others, length, k) || last <= k < last + length
  {
    var others := starts[..|starts| - 1];
    if i :| 0 <= i < |starts| && starts[i] <= k < starts[i] + length {
      assert i < |others| ==> others[i] == starts[i];
    }
    if i :| 0 <= i < |others| && others[i] <= k < others[i] + length {
      assert others[i] == starts[i];
    }
  }

  lemma TimesNext(i: nat, n: nat)
    ensures (i + 1) * n == i * n + n
  {
  }

  /** How long so many ranges are together. */
  function Together(count: nat, length: nat): nat {
    if count == 0 then 0 else Together(count - 1, length) + length
  }

  lemma {:induction false} TogetherIsProduct(count: nat, length: nat)
    ensures Together(count, length) == count * length
  {
    if count > 0 {
      TogetherIsProduct(count - 1, length);
      TimesNext(count - 1, length);
    }
  }

  lemma WithoutInterval(s: set<nat>, begin: nat, end: nat)
    requires begin <= end && Interval(begin, end) <= s
    ensures |s - Interval(begin, end)| == |s| - (end - begin)
  {
    var rest := s - Interval(begin, end);
    IntervalSize(begin, end);
    assert s == rest + Interval(begin, end);
  }

  /** Nothing of the last range is covered by the others. */
  lemma LastRangeIsLeft(size: nat, starts: seq<nat>, length: nat)
    requires starts != [] && Fit(starts, length, size) && Disjoint(starts, length)
    ensures var others, last := starts[..|starts| - 1], starts[|starts| - 1];
            Interval(last, last + length) <= Uncovered(size, others, length)
  {
    var others, last := starts[..|starts| - 1], starts[|starts| - 1];
    InInterval(last, last + length);
    forall k | k in Interval(last, last + length)
      ensures k in Uncovered(size, others, length)
    {
      UncoveredMeans(size, others, length, k);
      forall i | 0 <= i < |others|
        ensures !(others[i] <= k < others[i] + length)
      {
        assert others[i] == starts[i];
      }
    }
  }

  lemma LastRangeSize(size: nat, starts: seq<nat>, length: nat)
    requires starts != []
    requires var last := starts[|starts| - 1];
             Interval(last, last + length) <= Uncovered(size, starts[..|starts| - 1], length)
    ensures |Uncovered(size, starts, length)| == |Uncovered(size, starts[..|starts| - 1], length)| - length
  {
    var last := starts[|starts| - 1];
    WithoutInterval(Uncovered(size, starts[..|starts| - 1], length), last, last + length);
  }

  /** Disjoint ranges leave out all indices but as many as they are long together. */
  lemma {:induction false} UncoveredSize(size: nat, starts: seq<nat>, length: nat)
    requires Fit(starts, length, size) && Disjoint(starts, length)
    ensures |Uncovered(size, starts, length)| + Together(|starts|, length) == size
  {
    if starts == [] {
      IntervalSize(0, size);
    } else {
      UncoveredSize(size, starts[..|starts| - 1], length);
      LastRangeIsLeft(size, starts, length);
      LastRangeSize(size, starts, length);
    }
  }

  lemma {:induction false} SumOfConcat(a: seq<real>, b: seq<real>)
    ensures Sum(a + b) == Sum(a) + Sum(b)
  {
    if b == [] {
      assert a + b == a;
    } else {
      assert (a + b)[..|a + b| - 1] == a + b[..|b| - 1];
      SumOfConcat(a, b[..|b| - 1]);
    }
  }

  /** Ranges without gaps add up to the sum of all that is before their end. */
  lemma {:induction false} RangesAddUp(numbers: seq<real>, starts: seq<nat>, length: nat)
    requires Fit(starts, length, |numbers|) && starts != [] && starts[0] == 0 && WithoutGaps(starts, length)
    ensures RangesSum(numbers, starts, length) == Sum(numbers[..starts[|starts| - 1] + length])
  {
    var others, last := starts[..|starts| - 1], starts[|starts| - 1];
    RangesSumNext(numbers, starts, length);
    if others == [] {
      assert numbers[0..length] == numbers[..length];
      assert RangesSum(numbers, others, length) == 0.0;
    } else {
      RangesAddUp(numbers, others, length);
      SumOfConcat(numbers[..last], numbers[last..last + length]);
      assert numbers[..last + length] == numbers[..last] + numbers[last..last + length];
    }
  }

  function Ones(size: nat): seq<real> {
    seq(size, i => 1.0)
  }

  lemma {:induction false} SumOfOnes(numbers: seq<real>)
    requires forall i | 0 <= i < |numbers| :: numbers[i] == 1.0
    ensures Sum(numbers) == |numbers| as real
  {
    if numbers != [] {
      SumOfOnes(numbers[..|numbers| - 1]);
    }
  }

  lemma {:induction false} RangesOfOnes(size: nat, starts: seq<nat>, length: nat)
    requires Fit(starts, length, size)
    ensures RangesSum(Ones(size), starts, length) == Together(|starts|, length) as real
  {
    if starts != [] {
      var others, last := starts[..|starts| - 1], starts[|starts| - 1];
      RangesSumNext(Ones(size), starts, length);
      RangesOfOnes(size, others, length);
      SumOfOnes(Ones(size)[last..last + length]);
    }
  }

  // ---------------------------------------------------------------- threads

  /** How long the range of each thread is. */
  function RangeLength(size: nat, threads: nat): nat
    requires 0 < threads
  {
    size / threads
  }

  /** Where the range of thread `i` begins. */
  function RangeStart(size: nat, threads: nat, i: nat): nat
    requires 0 < threads
  {
    i * size / threads
  }

  function Starts(size: nat, threads: nat): (starts: seq<nat>)
    requires 0 < threads
    ensures |starts| == threads
    ensures forall i | 0 <= i < threads :: starts[i] == RangeStart(size, threads, i)
  {
    seq(threads, i requires 0 <= i < threads => RangeStart(size, threads, i))
  }

  lemma MultipleIsFar(k: int, t: nat)
    ensures k >= 1 ==> k * t >= t
    ensures k <= -1 ==> k * t + t <= 0
  {
    assert k >= 1 ==> (k - 1) * t >= 0;
    assert k <= -1 ==> (-1 - k) * t >= 0;
  }

  lemma QuotientIs(n: nat, t: nat, q: nat, r: nat)
    requires r < t && n == q * t + r
    ensures n / t == q
  {
    MultipleIsFar(n / t - q, t);
    assert (n / t - q) * t == r - n % t;
  }

  lemma QuotientTimes(n: nat, t: nat)
    requires 0 < t
    ensures n / t * t == t * (n / t) == n - n % t
  {
  }

  /** The quotient of n + m, where m is q times t and r, from the quotient a and the remainder b of n. */
  lemma QuotientOfSum(n: nat, m: nat, t: nat, a: nat, b: nat, q: nat, r: nat)
    requires b < t && r < t && n == a * t + b && m == q * t + r
    ensures (n + m) / t == a + q + if b + r < t then 0 else 1
  {
    var more := if b + r < t then 0 else 1;
    assert (a + q + more) * t == a * t + q * t + more * t;
    QuotientIs(n + m, t, a + q + more, b + r - more * t);
  }

  /**
   Thread i + 1 starts where thread i ends, or one element later, which never happens if the threads divide the size.
   */
  lemma {:induction false} NextRange(size: nat, threads: nat, i: nat)
    requires 0 < threads
    ensures var gap := RangeStart(size, threads, i + 1) - (RangeStart(size, threads, i) + RangeLength(size, threads));
            0 <= gap <= 1 && (size % threads == 0 ==> gap == 0)
  {
    var n := i * size;
    TimesNext(i, size);
    QuotientTimes(n, threads);
    QuotientTimes(size, threads);
    QuotientOfSum(n, size, threads, n / threads, n % threads, size / threads, size % threads);
  }

  /** The first range begins at the beginning of the array; what would be the range after the last begins at its end. */
  lemma RangesSpan(size: nat, threads: nat)
    requires 0 < threads
    ensures RangeStart(size, threads, 0) == 0 && RangeStart(size, threads, threads) == size
  {
    QuotientIs(threads * size, threads, size, 0);
  }

  /** The starts of the ranges, and of what would be the range after the last. */
  ghost function Bounds(size: nat, threads: nat): (bounds: seq<nat>)
    requires 0 < threads
    ensures |bounds| == threads + 1 && bounds[..threads] == Starts(size, threads)
    ensures bounds[0] == 0 && bounds[threads] == size
    ensures InOrder(bounds, RangeLength(size, threads))
    ensures size % threads == 0 ==> WithoutGaps(bounds, RangeLength(size, threads))
  {
    var bounds := seq(threads + 1, i requires 0 <= i <= threads => RangeStart(size, threads, i));
    BoundsInOrder(size, threads, bounds, RangeLength(size, threads));
    bounds
  }

  lemma BoundsInOrder(size: nat, threads: nat, bounds: seq<nat>, length: nat)
    requires 0 < threads && length == RangeLength(size, threads) && |bounds| == threads + 1
    requires forall i | 0 <= i <= threads :: bounds[i] == RangeStart(size, threads, i)
    ensures bounds[..threads] == Starts(size, threads) && bounds[0] == 0 && bounds[threads] == size
    ensures InOrder(bounds, length) && (size % threads == 0 ==> WithoutGaps(bounds, length))
  {
    RangesSpan(size, threads);
    forall i | 0 < i < |bounds|
      ensures bounds[i - 1] + length <= bounds[i] && (size % threads == 0 ==> bounds[i] == bounds[i - 1] + length)
    {
      NextRange(size, threads, i - 1);
    }
  }

  /** Every range lies inside the array, and no two share an element. */
  lemma {:induction false} RangesSeparate(size: nat, threads: nat)
    requires 0 < threads
    ensures Fit(Starts(size, threads), RangeLength(size, threads), size)
    ensures Disjoint(Starts(size, threads), RangeLength(size, threads))
  {
    BoundsSeparate(Bounds(size, threads), Starts(size, threads), RangeLength(size, threads), size);
  }

  lemma BoundsSeparate(bounds: seq<nat>, starts: seq<nat>, length: nat, size: nat)
    requires |bounds| == |starts| + 1 && bounds[..|starts|] == starts && bounds[|starts|] == size
    requires InOrder(bounds, length)
    ensures Fit(starts, length, size) && Disjoint(starts, length)
  {
    OrderedAreDisjoint(bounds, length);
    assert forall i | 0 <= i < |starts| :: starts[i] == bounds[i];
  }

  /** Exactly size mod threads elements are left out by all threads. */
  lemma {:induction false} ThreadsLeaveOut(size: nat, threads: nat)
    requires 0 < threads
    ensures |Uncovered(size, Starts(size, threads), RangeLength(size, threads))| == size % threads
  {
    RangesSeparate(size, threads);
    UncoveredSize(size, Starts(size, threads), RangeLength(size, threads));
    TogetherIsProduct(threads, RangeLength(size, threads));
    QuotientTimes(size, threads);
  }

  function ParallelSum(numbers: seq<real>, threads: nat): real
    requires 0 < threads
  {
    RangesSeparate(|numbers|, threads);
    RangesSum(numbers, Starts(|numbers|, threads), RangeLength(|numbers|, threads))
  }

  method Summer(numbers: seq<real>) returns (sum: real)
    ensures sum == Sum(numbers)
  {
    sum := 0.0;
    for i := 0 to |numbers|
      invariant sum == Sum(numbers[..i])
    {
      SumOfNext(numbers, i);
      sum := sum + numbers[i];
    }
    assert numbers[..|numbers|] == numbers;
  }

  predicate IsPermutation(order: seq<nat>, n: nat) {
    && |order| == n
    && (forall k | 0 <= k < n :: order[k] < n)
    && (forall i | 0 <= i < n :: i in order)
  }

  /** One thread for each range, finishing in the given order. */
  method SumEach(numbers: seq<real>, starts: seq<nat>, length: nat, order: seq<nat>) returns (results: seq<real>)
    requires Fit(starts, length, |numbers|)
    requires IsPermutation(order, |starts|)
    ensures results == RangeSums(numbers, starts, length)
  {
    ghost var sums := RangeSums(numbers, starts, length);
    results := seq(|starts|, _ => 0.0);
    for j := 0 to |starts|
      invariant |results| == |starts|
      invariant forall k | 0 <= k < j :: results[order[k]] == sums[order[k]]
    {
      var rangeSum := Summer(Piece(numbers, starts[order[j]], length));
      results := results[order[j] := rangeSum];
    }
    forall i | 0 <= i < |starts|
      ensures results[i] == sums[i]
    {
      assert i in order;
      var k :| 0 <= k < |order| && order[k] == i;
    }
  }

  /** `order` is the order in which the threads happen to finish; the result does not depend on it. */
  method AverageParallel(numbers: array<real>, threads: nat, order: seq<nat>) returns (r: Average)
    requires 0 < threads
    requires IsPermutation(order, threads)
    ensures if numbers.Length == 0 then r.NotANumber?
            else r.Value? && r.average * numbers.Length as real == ParallelSum(numbers[..], threads)
  {
    RangesSeparate(numbers.Length, threads);
    var starts := Starts(numbers.Length, threads);
    var results := SumEach(numbers[..], starts, RangeLength(numbers.Length, threads), order);
    var sum := Summer(results);
    r := Divide(sum, numbers.Length);
  }

  lemma ThreadsAgree(numbers: seq<real>, threads: nat)
    requires 0 < threads && |numbers| % threads == 0
    ensures ParallelSum(numbers, threads) == Sum(numbers)
  {
    var bounds := Bounds(|numbers|, threads);
    RangesSeparate(|numbers|, threads);
    BoundsAddUp(numbers, bounds, Starts(|numbers|, threads), RangeLength(|numbers|, threads));
  }

  lemma BoundsAddUp(numbers: seq<real>, bounds: seq<nat>, starts: seq<nat>, length: nat)
    requires starts != [] && |bounds| == |starts| + 1 && bounds[..|starts|] == starts
    requires bounds[0] == 0 && bounds[|starts|] == |numbers| && WithoutGaps(bounds, length)
    requires Fit(starts, length, |numbers|)
    ensures RangesSum(numbers, starts, length) == Sum(numbers)
  {
    StartsWithoutGaps(bounds, starts, length);
    RangesAddUp(numbers, starts, length);
    assert numbers[..|numbers|] == numbers;
  }

  lemma StartsWithoutGaps(bounds: seq<nat>, starts: seq<nat>, length: nat)
    requires starts != [] && |bounds| == |starts| + 1 && bounds[..|starts|] == starts && WithoutGaps(bounds, length)
    ensures WithoutGaps(starts, length) && starts[0] == bounds[0]
    ensures starts[|starts| - 1] + length == bounds[|starts|]
  {
    assert forall i | 0 <= i < |starts| :: starts[i] == bounds[i];
  }

  /** Adding up ones, the threads miss as many as there are elements that they leave out. */
  lemma {:induction false} ThreadsMiss(size: nat, threads: nat)
    requires 0 < threads
    ensures ParallelSum(Ones(size), threads)
            == Sum(Ones(size)) - |Uncovered(size, Starts(size, threads), RangeLength(size, threads))| as real
  {
    RangesSeparate(size, threads);
    RangesMissOnes(size, Starts(size, threads), RangeLength(size, threads));
  }

  lemma RangesMissOnes(size: nat, starts: seq<nat>, length: nat)
    requires Fit(starts, length, size) && Disjoint(starts, length)
    ensures RangesSum(Ones(size), starts, length) == Sum(Ones(size)) - |Uncovered(size, starts, length)| as real
  {
    UncoveredSize(size, starts, length);
    RangesOfOnes(size, starts, length);
    SumOfOnes(Ones(size));
  }

  /** The threads get the average of every array of a size right exactly when their number divides the size. */
  lemma {:induction false} ThreadsAgreeExactly(size: nat, threads: nat)
    requires 0 < threads
    ensures (forall numbers: seq<real> | |numbers| == size :: ParallelSum(numbers, threads) == Sum(numbers))
            <==> size % threads == 0
  {
    if size % threads == 0 {
      forall numbers: seq<real> | |numbers| == size
        ensures ParallelSum(numbers, threads) == Sum(numbers)
      {
        ThreadsAgree(numbers, threads);
      }
    } else {
      ThreadsLeaveOut(size, threads);
      ThreadsMiss(size, threads);
      assert |Ones(size)| == size;
    }
  }
}
