/**
 * The crawler's Bloom filter: a fixed bit array of length m probed k times per
 * element by double hashing, `|(h1 + i * h2) % m|` for i in [0, k), with all
 * arithmetic in 32-bit `int`.
 */
module Bloom {
  import opened Wrappers
  import opened Machine

  /** The exceptions the five-argument constructor throws, one per check. */
  datatype ConstructError =
    | CapacityOutOfRange    // capacity < 1
    | ErrorRateOutOfRange   // errorRate outside (0, 1)
    | ArrayTooLarge         // m < 1: the float sizing overflowed
    | MissingHashFunction   // no hash function and T is neither string nor int

  /** What the element type `T` is, as far as the constructor's `typeof(T)` tests can tell. */
  datatype ElementKind = StringElements | Int32Elements | OtherElements

  /** Where the secondary hash of a successfully constructed filter comes from. */
  datatype SecondarySource = Supplied | BuiltInStringHash | BuiltInInt32Hash

  /**
   * The constructor's checks, in the order it makes them: the first failing
   * check decides the exception; when all pass, the secondary hash is the
   * supplied one, else the built-in one for strings or ints.
   */
  function CheckArguments(capacity: int32, errorRate: real, m: int32, hashFunctionGiven: bool, kind: ElementKind)
    : (r: Result<SecondarySource, ConstructError>)
    ensures r.Success? <==> capacity >= 1 && 0.0 < errorRate < 1.0 && m >= 1 && (hashFunctionGiven || kind != OtherElements)
    ensures capacity < 1 ==> r == Failure(CapacityOutOfRange)
    ensures r == Failure(ErrorRateOutOfRange) <==> capacity >= 1 && !(0.0 < errorRate < 1.0)
    ensures r == Failure(ArrayTooLarge) <==> capacity >= 1 && 0.0 < errorRate < 1.0 && m < 1
    ensures r.Success? ==> (r.value == Supplied <==> hashFunctionGiven)
    ensures r == Success(BuiltInStringHash) ==> kind == StringElements
    ensures r == Success(BuiltInInt32Hash) ==> kind == Int32Elements
  {
    if capacity < 1 then Failure(CapacityOutOfRange)
    else if errorRate >= 1.0 || errorRate <= 0.0 then Failure(ErrorRateOutOfRange)
    else if m < 1 then Failure(ArrayTooLarge)
    else if hashFunctionGiven then Success(Supplied)
    else match kind
      case StringElements => Success(BuiltInStringHash)
      case Int32Elements => Success(BuiltInInt32Hash)
      case OtherElements => Failure(MissingHashFunction)
  }

  /**
   * The `(int capacity, int errorRate)` overload never yields a filter: an
   * integer is never strictly between 0 and 1, whatever m the float sizing
   * produced and whether or not a hash function exists for `T`.
   */
  lemma IntegerErrorRateNeverConstructs(capacity: int32, errorRate: int32, m: int32, kind: ElementKind)
    ensures CheckArguments(capacity, errorRate as real, m, false, kind).Failure?
    ensures capacity >= 1 ==> CheckArguments(capacity, errorRate as real, m, false, kind) == Failure(ErrorRateOutOfRange)
  {
  }

  /** The i-th probe index of an element with hashes `primaryHash` and `secondaryHash` in a filter of m bits. */
  function ComputeHash(primaryHash: int32, secondaryHash: int32, i: int32, m: int32): (r: int32)
    requires m >= 1
    ensures 0 <= r < m
  {
    var resultingHash := TruncRem(DoubleHash(primaryHash, secondaryHash, i) as int, m as int);
    Abs(resultingHash) as int32
  }

  /** `primaryHash + i * secondaryHash` in unchecked 32-bit arithmetic. */
  function DoubleHash(primaryHash: int32, secondaryHash: int32, i: int32): int32
  {
    Wrap(primaryHash as int + Wrap(i as int * secondaryHash as int) as int)
  }

  /**
   * The probe index is the magnitude of the 32-bit double hash reduced modulo
   * m: taking the remainder before the absolute value, as the code does, gives
   * the same index and never reaches `Math.Abs(int.MinValue)`.
   */
  lemma ProbeIndex(primaryHash: int32, secondaryHash: int32, i: int32, m: int32)
    requires m >= 1
    ensures ComputeHash(primaryHash, secondaryHash, i, m) as int == Abs(DoubleHash(primaryHash, secondaryHash, i) as int) % m as int
    ensures TruncRem(DoubleHash(primaryHash, secondaryHash, i) as int, m as int) != INT_MIN
  {
  }

  // ---------------------------------------------------------------------------
  // The built-in secondary hashes

  /** One round of Bob Jenkins' one-at-a-time hash, with C#'s signed shift `>>`. */
  function MixStep(hash: bv32, c: char): bv32
  {
    var h1 := hash + c as int as bv32;
    var h2 := h1 + (h1 << 10);
    h2 ^ ShiftRightArithmetic(h2, 6)
  }

  /** The hash state after the loop has consumed `s`. */
  function Mix(s: string): bv32
    decreases |s|
  {
    if s == [] then 0 else MixStep(Mix(s[..|s| - 1]), s[|s| - 1])
  }

  /** The avalanche steps after the loop. */
  function Finish(hash: bv32): bv32
  {
    var h1 := hash + (hash << 3);
    var h2 := h1 ^ ShiftRightArithmetic(h1, 11);
    h2 + (h2 << 15)
  }

  /** The value `HashString` returns: 0 for null, else the one-at-a-time hash as an `int`. */
  function StringHash(input: Option<string>): int32
  {
    if input.None? then 0 else FromBits(Finish(Mix(input.value)))
  }

  /** `HashString`: the one-at-a-time loop over the string's code units. */
  method HashString(input: Option<string>) returns (hash: int32)
    ensures hash == StringHash(input)
  {
    if input.None? {
      return 0;
    }
    var str := input.value;
    var h: bv32 := 0;
    for i := 0 to |str|
      invariant h == Mix(str[..i])
    {
      h := MixStep(h, str[i]);
      assert str[..i + 1][..i] == str[..i];
    }
    assert str[..|str|] == str;
    h := Finish(h);
    hash := FromBits(h);
  }

  /** Known answers: null and the empty string hash to 0; "a" hashes to 0xCA2E9442. */
  lemma StringHashKnownAnswers()
    ensures StringHash(None) == 0
    ensures StringHash(Some("")) == 0
    ensures StringHash(Some("a")) == -902917054
  {
    assert Mix("") == 0;
    assert "a"[..0] == "";
    assert Mix("a") == MixStep(0, 'a');
  }

  /**
   * The bit mix `HashInt32` applies to the `uint` it means to hash (unsigned,
   * so its right shifts are logical).
   */
  function Int32Mix(x: bv32): bv32
  {
    var x1 := !x + (x << 15);
    var x2 := x1 ^ (x1 >> 12);
    var x3 := x2 + (x2 << 2);
    var x4 := x3 ^ (x3 >> 4);
    var x5 := x4 * 2057;
    x5 ^ (x5 >> 16)
  }

  lemma Int32MixKnownAnswers()
    ensures Int32Mix(0) == 0xCAA3_CAA3
    ensures Int32Mix(1) == 0x12D6_0BF6
  {
  }

  // ---------------------------------------------------------------------------
  // The filter

  /** Number of set bits. */
  function CountTrue(bits: seq<bool>): (n: nat)
    ensures n <= |bits|
    decreases |bits|
  {
    if bits == [] then 0
    else CountTrue(bits[..|bits| - 1]) + (if bits[|bits| - 1] then 1 else 0)
  }

  /** Every bit set in `a` is set in `b`. */
  ghost predicate Below(a: seq<bool>, b: seq<bool>)
  {
    |a| == |b| && forall j :: 0 <= j < |a| ==> a[j] ==> b[j]
  }

  /** Setting more bits never lowers the count. */
  lemma {:induction false} CountTrueMonotone(a: seq<bool>, b: seq<bool>)
    requires Below(a, b)
    ensures CountTrue(a) <= CountTrue(b)
    decreases |a|
  {
    if a != [] {
      CountTrueMonotone(a[..|a| - 1], b[..|b| - 1]);
    }
  }

  class BloomFilter<T> {
    const hashBits: array<bool>
    const hashFunctionCount: int32
    /** `item.GetHashCode()`, supplied by the runtime. */
    const getHashCode: T -> int32
    const getHashSecondary: T -> int32

    /** The bit array is non-empty and its length is an `int`. */
    ghost predicate Valid()
    {
      1 <= hashBits.Length <= INT_MAX
    }

    /** The allocation the constructor makes once its checks have passed. */
    constructor (m: int32, k: int32, getHashCode: T -> int32, getHashSecondary: T -> int32)
      requires m >= 1
      ensures Valid() && fresh(hashBits)
      ensures hashBits.Length == m as int && forall j :: 0 <= j < hashBits.Length ==> !hashBits[j]
      ensures hashFunctionCount == k
      ensures this.getHashCode == getHashCode && this.getHashSecondary == getHashSecondary
    {
      this.getHashCode := getHashCode;
      this.getHashSecondary := getHashSecondary;
      hashFunctionCount := k;
      hashBits := new bool[m](_ => false);
    }

    /** How many probes `Add` and `Contains` make: k, or none when k is negative. */
    function ProbeCount(): nat
    {
      if hashFunctionCount < 0 then 0 else hashFunctionCount as nat
    }

    /** The i-th probe position of `item`. */
    function Probe(item: T, i: nat): (r: nat)
      requires Valid() && i < ProbeCount()
      ensures r < hashBits.Length
    {
      ComputeHash(getHashCode(item), getHashSecondary(item), i as int32, hashBits.Length as int32) as nat
    }

    /** All probe bits of `item` are set in `bits`: what `Contains` answers. */
    ghost predicate ProbesSet(bits: seq<bool>, item: T)
      requires Valid() && |bits| == hashBits.Length
    {
      forall i :: 0 <= i < ProbeCount() ==> bits[Probe(item, i)]
    }

    /** `bits` with the first n probe bits of `item` set. */
    ghost function SetProbes(bits: seq<bool>, item: T, n: nat): (r: seq<bool>)
      requires Valid() && |bits| == hashBits.Length && n <= ProbeCount()
      ensures |r| == |bits|
      decreases n
    {
      if n == 0 then bits else SetProbes(bits, item, n - 1)[Probe(item, n - 1) := true]
    }

    /** The bit array after `Add(item)`. */
    ghost function Added(bits: seq<bool>, item: T): (r: seq<bool>)
      requires Valid() && |bits| == hashBits.Length
      ensures |r| == |bits|
    {
      SetProbes(bits, item, ProbeCount())
    }

    method Add(item: T)
      requires Valid()
      modifies hashBits
      ensures hashBits[..] == Added(old(hashBits[..]), item)
    {
      var primaryHash := getHashCode(item);
      var secondaryHash := getHashSecondary(item);
      var i: int32 := 0;
      while i < hashFunctionCount
        invariant 0 <= i as int <= ProbeCount()
        invariant hashBits[..] == SetProbes(old(hashBits[..]), item, i as nat)
      {
        var hash := ComputeHash(primaryHash, secondaryHash, i, hashBits.Length as int32);
        hashBits[hash] := true;
        i := i + 1;
      }
    }

    method Contains(item: T) returns (found: bool)
      requires Valid()
      ensures found == ProbesSet(hashBits[..], item)
    {
      var primaryHash := getHashCode(item);
      var secondaryHash := getHashSecondary(item);
      var i: int32 := 0;
      while i < hashFunctionCount
        invariant 0 <= i as int <= ProbeCount()
        invariant forall j :: 0 <= j < i as int ==> hashBits[Probe(item, j)]
      {
        var hash := ComputeHash(primaryHash, secondaryHash, i, hashBits.Length as int32);
        assert hash as int == Probe(item, i as nat);
        if !hashBits[hash] {
          assert !hashBits[..][Probe(item, i as nat)];
          return false;
        }
        i := i + 1;
      }
      assert i as int == ProbeCount();
      assert forall j :: 0 <= j < ProbeCount() ==> hashBits[..][Probe(item, j)];
      return true;
    }

    /** The number of set bits. */
    method TrueBits() returns (output: int32)
      requires Valid()
      ensures output as int == CountTrue(hashBits[..])
      ensures 0 <= output as int <= hashBits.Length
    {
      output := 0;
      for j := 0 to hashBits.Length
        invariant output as int == CountTrue(hashBits[..j])
      {
        assert hashBits[..j + 1][..j] == hashBits[..j];
        if hashBits[j] {
          output := output + 1;
        }
      }
      assert hashBits[..hashBits.Length] == hashBits[..];
    }

    /**
     * Setting the first n probes only ever sets bits, sets each of those n
     * probe bits, and changes no bit that is not one of them.
     */
    lemma {:induction false} SetProbesEffect(bits: seq<bool>, item: T, n: nat)
      requires Valid() && |bits| == hashBits.Length && n <= ProbeCount()
      ensures Below(bits, SetProbes(bits, item, n))
      ensures forall i :: 0 <= i < n ==> SetProbes(bits, item, n)[Probe(item, i)]
      ensures forall j :: 0 <= j < |bits| && SetProbes(bits, item, n)[j] != bits[j] ==>
                exists i :: 0 <= i < n && Probe(item, i) == j
      decreases n
    {
      if n > 0 {
        SetProbesEffect(bits, item, n - 1);
      }
    }

    /** No false negatives: right after `Add(item)`, `Contains(item)` is true. */
    lemma NoFalseNegative(bits: seq<bool>, item: T)
      requires Valid() && |bits| == hashBits.Length
      ensures ProbesSet(Added(bits, item), item)
    {
      SetProbesEffect(bits, item, ProbeCount());
    }

    /** `Add` only sets bits, and only at the probe positions of its item. */
    lemma AddOnlySetsProbes(bits: seq<bool>, item: T)
      requires Valid() && |bits| == hashBits.Length
      ensures Below(bits, Added(bits, item))
      ensures forall j :: 0 <= j < |bits| && Added(bits, item)[j] != bits[j] ==>
                exists i :: 0 <= i < ProbeCount() && Probe(item, i) == j
    {
      SetProbesEffect(bits, item, ProbeCount());
    }

    /** Setting bits that are already set changes nothing. */
    lemma {:induction false} SetProbesWhenSet(bits: seq<bool>, item: T, n: nat)
      requires Valid() && |bits| == hashBits.Length && n <= ProbeCount()
      requires forall i :: 0 <= i < n ==> bits[Probe(item, i)]
      ensures SetProbes(bits, item, n) == bits
      decreases n
    {
      if n > 0 {
        SetProbesWhenSet(bits, item, n - 1);
      }
    }

    /** Adding an element twice leaves the same bits as adding it once. */
    lemma AddIdempotent(bits: seq<bool>, item: T)
      requires Valid() && |bits| == hashBits.Length
      ensures Added(Added(bits, item), item) == Added(bits, item)
    {
      NoFalseNegative(bits, item);
      SetProbesWhenSet(Added(bits, item), item, ProbeCount());
    }

    /** An element that is reported present stays present whatever is added later. */
    lemma AddKeepsMembers(bits: seq<bool>, item: T, other: T)
      requires Valid() && |bits| == hashBits.Length
      requires ProbesSet(bits, other)
      ensures ProbesSet(Added(bits, item), other)
    {
      AddOnlySetsProbes(bits, item);
    }

    /** `TrueBits` never decreases under `Add`. */
    lemma AddKeepsCount(bits: seq<bool>, item: T)
      requires Valid() && |bits| == hashBits.Length
      ensures CountTrue(bits) <= CountTrue(Added(bits, item))
    {
      AddOnlySetsProbes(bits, item);
      CountTrueMonotone(bits, Added(bits, item));
    }

    /** The bit array after adding `items` in order. */
    ghost function AddedAll(bits: seq<bool>, items: seq<T>): (r: seq<bool>)
      requires Valid() && |bits| == hashBits.Length
      ensures |r| == |bits|
      decreases |items|
    {
      if items == [] then bits else Added(AddedAll(bits, items[..|items| - 1]), items[|items| - 1])
    }

    /** After any sequence of adds, every element added is reported present. */
    lemma {:induction false} NoFalseNegatives(bits: seq<bool>, items: seq<T>)
      requires Valid() && |bits| == hashBits.Length
      ensures forall x :: x in items ==> ProbesSet(AddedAll(bits, items), x)
      decreases |items|
    {
      if items != [] {
        var front, last := items[..|items| - 1], items[|items| - 1];
        NoFalseNegatives(bits, front);
        NoFalseNegative(AddedAll(bits, front), last);
        forall x | x in items
          ensures ProbesSet(AddedAll(bits, items), x)
        {
          if x != last {
            assert x in front;
            AddKeepsMembers(AddedAll(bits, front), last, x);
          }
        }
      }
    }
  }

  /** A client of the class: once added, an element is found, and adding it again changes no bit. */
  method AddThenContains<T>(filter: BloomFilter<T>, item: T) returns (found: bool)
    requires filter.Valid()
    modifies filter.hashBits
    ensures found
    ensures filter.hashBits[..] == filter.Added(old(filter.hashBits[..]), item)
  {
    filter.Add(item);
    ghost var once := filter.hashBits[..];
    filter.NoFalseNegative(old(filter.hashBits[..]), item);
    filter.Add(item);
    filter.AddIdempotent(old(filter.hashBits[..]), item);
    assert filter.hashBits[..] == once;
    found := filter.Contains(item);
  }

  /**
   * Construction of a `BloomFilter<string>` through the five-argument
   * constructor: the checks of `CheckArguments`, then a filter of m clear bits
   * whose secondary hash is the supplied one, or `HashString` when none is.
   */
  method NewStringFilter(capacity: int32, errorRate: real, hashFunction: Option<string -> int32>,
                         m: int32, k: int32, getHashCode: string -> int32)
    returns (r: Result<BloomFilter<string>, ConstructError>)
    ensures r.Failure? <==> CheckArguments(capacity, errorRate, m, hashFunction.Some?, StringElements).Failure?
    ensures r.Failure? ==> r.error == CheckArguments(capacity, errorRate, m, hashFunction.Some?, StringElements).error
    ensures r.Success? ==> fresh(r.value) && fresh(r.value.hashBits) && r.value.Valid()
    ensures r.Success? ==> r.value.hashBits.Length == m as int && r.value.hashFunctionCount == k
    ensures r.Success? ==> forall j :: 0 <= j < r.value.hashBits.Length ==> !r.value.hashBits[j]
    ensures r.Success? ==> r.value.getHashCode == getHashCode
    ensures r.Success? ==> forall s :: r.value.getHashSecondary(s) ==
                                      (if hashFunction.Some? then hashFunction.value(s) else StringHash(Some(s)))
  {
    var check := CheckArguments(capacity, errorRate, m, hashFunction.Some?, StringElements);
    if check.Failure? {
      return Failure(check.error);
    }
    var secondary := if hashFunction.Some? then hashFunction.value else (s: string) => StringHash(Some(s));
    var filter := new BloomFilter(m, k, getHashCode, secondary);
    return Success(filter);
  }
}
