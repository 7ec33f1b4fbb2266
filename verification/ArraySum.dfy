/**
 The AArch64 loop that adds up an array of 32-bit integers, in the three forms its comments switch between.

 Registers hold 64 bits; `w` names the low half of `x`, and writing to it clears the high half. The module proves
 for each form which sums it gets right: the first form those that fit an unsigned word, sign extension at the end
 those that fit a signed word, whatever happened on the way, and sign extension of every element those that fit a
 signed double word.
 */
module ArraySum {

  const WORD := 0x1_0000_0000
  const DOUBLE_WORD := 0x1_0000_0000_0000_0000

  newtype Int32 = x: int | -0x8000_0000 <= x < 0x8000_0000
  newtype Register = x: int | 0 <= x < 0x1_0000_0000_0000_0000

  function Sum(numbers: seq<Int32>): int {
    if numbers == [] then 0 else Sum(numbers[..|numbers| - 1]) + numbers[|numbers| - 1] as int
  }

  /** Adding up is independent of where the array is cut; a single element is its own sum. */
  lemma {:induction false} SumOfParts(a: seq<Int32>, b: seq<Int32>)
    ensures Sum(a + b) == Sum(a) + Sum(b)
    ensures |a| == 1 ==> Sum(a) == a[0] as int
  {
    if b == [] {
      assert a + b == a;
    } else {
      assert (a + b)[..|a + b| - 1] == a + b[..|b| - 1];
      SumOfParts(a, b[..|b| - 1]);
    }
    if |a| == 1 {
      assert a[..0] == [];
    }
  }

  /** The low 64 bits of an integer. */
  function Truncated(n: int): Register {
    (n % DOUBLE_WORD) as Register
  }

  /** `add w, w, w`: 32-bit addition that clears the high half. */
  function AddWords(a: Register, b: Register): Register {
    ((a as int + b as int) % WORD) as Register
  }

  /** `add x, x, x` */
  function AddDoubleWords(a: Register, b: Register): Register {
    Truncated(a as int + b as int)
  }

  /** `ldr w`: the bits of the element, zero-extended. */
  function LoadWord(n: Int32): Register {
    (n as int % WORD) as Register
  }

  /** `ldrsw x`: the element, sign-extended. */
  function LoadSignedWord(n: Int32): Register {
    Truncated(n as int)
  }

  /** `sxtw x, w` */
  function SignExtendWord(a: Register): Register {
    var w := a as int % WORD;
    Truncated(if w < WORD / 2 then w else w - WORD)
  }

  /** What a C program reads from the `int64_t` that the register was stored to. */
  function AsInt64(a: Register): int {
    if a as int < DOUBLE_WORD / 2 then a as int else a as int - DOUBLE_WORD
  }

  /** Whole multiples of the modulus do not matter. */
  lemma RemainderOfShifted(n: int, k: int, m: nat)
    requires 0 < m
    ensures (n + k * m) % m == n % m
  {
    var q, r := n / m, n % m;
    assert n + k * m == (q + k) * m + r;
    RemainderIs(n + k * m, m, q + k, r);
  }

  lemma RemainderIs(n: int, m: nat, q: int, r: nat)
    requires r < m && n == q * m + r
    ensures n % m == r
  {
    var k := n / m - q;
    assert k * m == r - n % m;
    assert k >= 1 ==> (k - 1) * m >= 0;
    assert k <= -1 ==> (-1 - k) * m >= 0;
  }

  /** Adding remainders gives the remainder of the sum. */
  lemma RemainderOfSum(a: int, b: int, m: nat)
    requires 0 < m
    ensures (a % m + b % m) % m == (a + b) % m
  {
    var x, y := a / m, b / m;
    assert a % m + b % m == a + b + (-x - y) * m;
    RemainderOfShifted(a + b, -x - y, m);
  }

  lemma AddWordsTracks(sum: int, acc: Register, n: Int32)
    requires acc as int == sum % WORD
    ensures AddWords(acc, LoadWord(n)) as int == (sum + n as int) % WORD
  {
    RemainderOfSum(sum, n as int, WORD);
  }

  lemma AddDoubleWordsTracks(sum: int, acc: Register, n: Int32)
    requires acc == Truncated(sum)
    ensures AddDoubleWords(acc, LoadSignedWord(n)) == Truncated(sum + n as int)
  {
    RemainderOfSum(sum, n as int, DOUBLE_WORD);
  }

  /** The loop as it stands: words are loaded and added as words. */
  method SumWords(numbers: array<Int32>) returns (x2: Register)
    ensures x2 as int == Sum(numbers[..]) % WORD
    ensures AsInt64(x2) == Sum(numbers[..]) <==> 0 <= Sum(numbers[..]) < WORD
  {
    x2 := 0;
    var x3 := 0;
    while x3 < numbers.Length
      invariant x3 <= numbers.Length
      invariant x2 as int == Sum(numbers[..x3]) % WORD
    {
      AddWordsTracks(Sum(numbers[..x3]), x2, numbers[x3]);
      assert numbers[..x3 + 1][..x3] == numbers[..x3];
      x2 := AddWords(x2, LoadWord(numbers[x3]));
      x3 := x3 + 1;
    }
    assert numbers[..x3] == numbers[..];
  }

  /** The same loop with the final `sxtw` uncommented. */
  method SumWordsSignExtended(numbers: array<Int32>) returns (x2: Register)
    ensures -WORD / 2 <= AsInt64(x2) < WORD / 2 && AsInt64(x2) % WORD == Sum(numbers[..]) % WORD
    ensures AsInt64(x2) == Sum(numbers[..]) <==> -WORD / 2 <= Sum(numbers[..]) < WORD / 2
  {
    x2 := SumWords(numbers);
    x2 := SignExtendWord(x2);
  }

  /** The loop with the commented `ldrsw` and 64-bit addition instead. */
  method SumSignedWords(numbers: array<Int32>) returns (x2: Register)
    ensures x2 == Truncated(Sum(numbers[..]))
    ensures AsInt64(x2) == Sum(numbers[..]) <==> -DOUBLE_WORD / 2 <= Sum(numbers[..]) < DOUBLE_WORD / 2
  {
    x2 := 0;
    var x3 := 0;
    while x3 < numbers.Length
      invariant x3 <= numbers.Length
      invariant x2 == Truncated(Sum(numbers[..x3]))
    {
      AddDoubleWordsTracks(Sum(numbers[..x3]), x2, numbers[x3]);
      assert numbers[..x3 + 1][..x3] == numbers[..x3];
      x2 := AddDoubleWords(x2, LoadSignedWord(numbers[x3]));
      x3 := x3 + 1;
    }
    assert numbers[..x3] == numbers[..];
  }
}
