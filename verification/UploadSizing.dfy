// The part-size schedule of a multipart upload: tiers of equal parts whose size
// doubles from tier to tier, and the search for the smallest first tier that
// still lets `maxParts` parts hold `maxFileSize` bytes.
module UploadSizing {
  // The source's uint64_t and idx_t: every operation in the methods below is
  // checked to stay inside 64 bits.
  newtype u64 = x: int | 0 <= x < 0x1_0000_0000_0000_0000

  const MIN_PART: u64 := 5 * 1024 * 1024
  const MAX_PART: u64 := 5 * 1024 * 1024 * 1024
  const MAX_PARTS: u64 := 10000
  const PART_SIZE_TIERS: u64 := 11

  datatype Config = Config(maxFileSize: u64, maxParts: u64, initialPartSize: u64, growthInterval: u64)

  datatype CreateResult =
    | Created(config: Config)
    | ZeroFileSize
    | PartsOutOfRange
    | FileSizeUnsupported

  // ---------------------------------------------------------------- schedule

  function Min(a: int, b: int): int { if a <= b then a else b }

  // `initial` doubled `k` times, never beyond the largest part S3 accepts.
  function Doubled(initial: nat, k: nat): nat {
    if k == 0 then initial else Min(MAX_PART as int, 2 * Doubled(initial, k - 1))
  }

  // Part `i` belongs to tier `i / growth`.
  function ScheduledSize(initial: nat, growth: nat, i: nat): nat
    requires growth > 0
  {
    Doubled(initial, i / growth)
  }

  // Bytes that the first `n` parts of the schedule hold.
  function Capacity(initial: nat, growth: nat, n: nat): nat
    requires growth > 0
  {
    if n == 0 then 0 else Capacity(initial, growth, n - 1) + ScheduledSize(initial, growth, n - 1)
  }

  ghost predicate Covers(initial: nat, maxFileSize: nat, maxParts: nat, growth: nat)
    requires growth > 0
  {
    maxParts > 0 && Capacity(initial, growth, maxParts) >= maxFileSize
  }

  // What every configuration that `Create` returns satisfies.
  ghost predicate ValidConfig(c: Config) {
    && 0 < c.maxFileSize
    && 0 < c.maxParts <= MAX_PARTS
    && 0 < c.growthInterval
    && MIN_PART <= c.initialPartSize <= MAX_PART
    && Covers(c.initialPartSize as int, c.maxFileSize as int, c.maxParts as int, c.growthInterval as int)
  }

  function PartSize(c: Config, reserved: nat): nat
    requires c.growthInterval > 0
  {
    ScheduledSize(c.initialPartSize as int, c.growthInterval as int, reserved)
  }

  predicate HasPartCapacity(c: Config, reserved: nat) {
    reserved < c.maxParts as int
  }

  // ------------------------------------------------------ facts on the schedule

  lemma {:induction false} ScaleMonotone(a: nat, b: nat, k: nat)
    requires a <= b
    ensures a * k <= b * k
  {
    if k > 0 {
      ScaleMonotone(a, b, k - 1);
      assert a * k == a * (k - 1) + a && b * k == b * (k - 1) + b;
    }
  }

  function Pow2(k: nat): (r: nat)
    ensures r >= 1
  {
    if k == 0 then 1 else 2 * Pow2(k - 1)
  }

  lemma TwiceTimes(a: nat, b: nat)
    ensures a * (2 * b) == 2 * (a * b) && a * b >= 0
  {
  }

  lemma {:induction false} DoubledClosedForm(initial: nat, k: nat)
    requires initial <= MAX_PART as int
    ensures Doubled(initial, k) == Min(MAX_PART as int, initial * Pow2(k))
  {
    if k > 0 {
      DoubledClosedForm(initial, k - 1);
      TwiceTimes(initial, Pow2(k - 1));
    }
  }

  lemma {:induction false} DoubledBounds(initial: nat, k: nat)
    requires initial <= MAX_PART as int
    ensures initial <= Doubled(initial, k) <= MAX_PART as int
  {
    if k > 0 {
      DoubledBounds(initial, k - 1);
    }
  }

  lemma {:induction false} DoubledMonotone(a: nat, b: nat, k: nat)
    requires a <= b
    ensures Doubled(a, k) <= Doubled(b, k)
  {
    if k > 0 {
      DoubledMonotone(a, b, k - 1);
    }
  }

  lemma {:induction false} SaturatedStays(initial: nat, k: nat, n: nat)
    requires 0 < initial <= MAX_PART as int && k <= n && Doubled(initial, k) == MAX_PART as int
    ensures Doubled(initial, n) == MAX_PART as int
  {
    if k < n {
      SaturatedStays(initial, k, n - 1);
    }
  }

  lemma {:induction false} CapacityMonotoneInParts(initial: nat, growth: nat, m: nat, n: nat)
    requires growth > 0 && m <= n
    ensures Capacity(initial, growth, m) <= Capacity(initial, growth, n)
    decreases n - m
  {
    if m < n {
      CapacityMonotoneInParts(initial, growth, m, n - 1);
    }
  }

  lemma {:induction false} CapacityMonotoneInSize(a: nat, b: nat, growth: nat, n: nat)
    requires growth > 0 && a <= b
    ensures Capacity(a, growth, n) <= Capacity(b, growth, n)
  {
    if n > 0 {
      CapacityMonotoneInSize(a, b, growth, n - 1);
      DoubledMonotone(a, b, (n - 1) / growth);
    }
  }

  lemma ScaleStrict(a: nat, b: nat, k: nat)
    requires a < b
    ensures a * k + k <= b * k
  {
    ScaleMonotone(a + 1, b, k);
    assert (a + 1) * k == a * k + k;
  }

  // Parts `base .. base + growth` lie in one tier when `base` starts it.
  lemma TierOf(base: nat, growth: nat, j: nat)
    requires j < growth && base % growth == 0
    ensures (base + j) / growth == base / growth
    ensures (base + growth) % growth == 0
  {
    var tier := base / growth;
    var q := (base + j) / growth;
    assert base == tier * growth;
    assert base + j == q * growth + (base + j) % growth;
    if q < tier {
      ScaleStrict(q, tier, growth);
      assert false;
    } else if q > tier {
      ScaleStrict(tier, q, growth);
      assert false;
    }
    MultipleHasNoRemainder(tier + 1, growth);
    assert (tier + 1) * growth == base + growth;
  }

  // A whole tier, or the start of one, adds equally sized parts.
  lemma {:induction false} CapacityOfTier(initial: nat, growth: nat, base: nat, k: nat)
    requires growth > 0 && k <= growth && base % growth == 0
    ensures Capacity(initial, growth, base + k)
         == Capacity(initial, growth, base) + ScheduledSize(initial, growth, base) * k
  {
    if k > 0 {
      CapacityOfTier(initial, growth, base, k - 1);
      TierOf(base, growth, k - 1);
      var size := ScheduledSize(initial, growth, base);
      assert ScheduledSize(initial, growth, base + k - 1) == size;
      assert size * k == size * (k - 1) + size;
    }
  }

  lemma {:induction false} CapacityOfLargestParts(growth: nat, n: nat)
    requires growth > 0
    ensures Capacity(MAX_PART as int, growth, n) == MAX_PART as int * n
  {
    if n > 0 {
      CapacityOfLargestParts(growth, n - 1);
      DoubledBounds(MAX_PART as int, (n - 1) / growth);
    }
  }

  // Parts at least as large as scheduled add up to at least the scheduled capacity.
  lemma {:induction false} FullPartsFillCapacity(c: Config, sizes: seq<nat>)
    requires c.growthInterval > 0
    requires forall i :: 0 <= i < |sizes| ==> sizes[i] >= PartSize(c, i)
    ensures Sum(sizes) >= Capacity(c.initialPartSize as int, c.growthInterval as int, |sizes|)
  {
    if |sizes| > 0 {
      FullPartsFillCapacity(c, sizes[..|sizes| - 1]);
    }
  }

  function Sum(sizes: seq<nat>): nat {
    if |sizes| == 0 then 0 else Sum(sizes[..|sizes| - 1]) + sizes[|sizes| - 1]
  }

  // The part limit cannot be hit while the file-size limit holds: once every one
  // of `maxParts` parts is full, no byte is left to be placed in another part.
  lemma PartLimitImpliesFileLimit(c: Config, sizes: seq<nat>)
    requires ValidConfig(c)
    requires forall i :: 0 <= i < |sizes| ==> sizes[i] >= PartSize(c, i)
    requires Sum(sizes) < c.maxFileSize as int
    ensures HasPartCapacity(c, |sizes|)
  {
    FullPartsFillCapacity(c, sizes);
    if !HasPartCapacity(c, |sizes|) {
      CapacityMonotoneInParts(c.initialPartSize as int, c.growthInterval as int, c.maxParts as int, |sizes|);
      assert false;
    }
  }

  lemma PartSizeBounds(c: Config, i: nat)
    requires ValidConfig(c)
    ensures MIN_PART as int <= PartSize(c, i) <= MAX_PART as int
  {
    DoubledBounds(c.initialPartSize as int, i / c.growthInterval as int);
  }

  // ------------------------------------------------------------- the algorithms

  method ComputePartSize(initial: u64, growth: u64, completed: u64) returns (size: u64)
    requires growth > 0 && 0 < initial <= MAX_PART
    ensures size as int == ScheduledSize(initial as int, growth as int, completed as int)
    ensures initial <= size <= MAX_PART
  {
    size := initial;
    var doublings := completed / growth;
    ghost var total: nat := doublings as int;
    while doublings > 0 && size < MAX_PART
      invariant initial <= size <= MAX_PART
      invariant doublings as int <= total
      invariant size as int == Doubled(initial as int, total - doublings as int)
    {
      size := if size * 2 <= MAX_PART then size * 2 else MAX_PART;
      doublings := doublings - 1;
    }
    if doublings > 0 {
      SaturatedStays(initial as int, total - doublings as int, total);
    }
  }

  // The division form of the test never multiplies before it knows that the
  // product fits, so no intermediate value leaves 64 bits.
  method ScheduleCovers(initial: u64, maxFileSize: u64, maxParts: u64, growth: u64) returns (covers: bool)
    requires growth > 0 && 0 < initial <= MAX_PART
    ensures covers == Covers(initial as int, maxFileSize as int, maxParts as int, growth as int)
  {
    var capacity: u64 := 0;
    var completed: u64 := 0;
    while completed < maxParts
      invariant completed <= maxParts
      invariant capacity as int == Capacity(initial as int, growth as int, completed as int)
      invariant completed > 0 ==> capacity < maxFileSize
      invariant completed < maxParts ==> completed as int % growth as int == 0
    {
      var partSize := ComputePartSize(initial, growth, completed);
      var parts := if growth <= maxParts - completed then growth else maxParts - completed;
      TierFits(initial as int, growth as int, completed as int, parts as int, maxParts as int);
      var left := maxFileSize - (if capacity <= maxFileSize then capacity else maxFileSize);
      DivisionTest(partSize as int, left as int, parts as int);
      assert parts > 0;
      if partSize > left / parts {
        return true;
      }
      capacity := capacity + partSize * parts;
      if capacity >= maxFileSize {
        return true;
      }
      completed := completed + parts;
    }
    return false;
  }

  lemma TierFits(initial: nat, growth: nat, completed: nat, parts: nat, maxParts: nat)
    requires growth > 0 && parts <= growth && completed + parts <= maxParts && completed % growth == 0
    ensures Capacity(initial, growth, completed + parts)
         == Capacity(initial, growth, completed) + ScheduledSize(initial, growth, completed) * parts
         <= Capacity(initial, growth, maxParts)
    ensures (completed + growth) % growth == 0
  {
    CapacityOfTier(initial, growth, completed, parts);
    CapacityMonotoneInParts(initial, growth, completed + parts, maxParts);
    TierOf(completed, growth, 0);
  }

  lemma DivisionTest(size: nat, left: nat, parts: nat)
    requires parts > 0
    ensures size > left / parts <==> size * parts > left
    ensures 0 <= left / parts <= left
  {
    var q := left / parts;
    assert left == q * parts + left % parts;
    ScaleMonotone(1, parts, q);
    if size > q { ScaleStrict(q, size, parts); } else { ScaleMonotone(size, q, parts); }
  }

  // No block-aligned first part smaller than `bound` blocks covers the file size.
  ghost predicate NoneBelow(bound: nat, block: nat, maxFileSize: nat, maxParts: nat, growth: nat)
    requires growth > 0
  {
    forall s: nat | MIN_PART as int <= s < bound * block && s % block == 0
      :: !Covers(s, maxFileSize, maxParts, growth)
  }

  lemma ExtendNoneBelow(middle: nat, block: nat, maxFileSize: nat, maxParts: nat, growth: nat)
    requires growth > 0 && block > 0
    requires !Covers(middle * block, maxFileSize, maxParts, growth)
    ensures NoneBelow(middle + 1, block, maxFileSize, maxParts, growth)
  {
    forall s: nat | MIN_PART as int <= s < (middle + 1) * block && s % block == 0
      ensures !Covers(s, maxFileSize, maxParts, growth)
    {
      var k := s / block;
      assert s == k * block;
      if k > middle {
        ScaleMonotone(middle + 1, k, block);
        assert false;
      }
      ScaleMonotone(k, middle, block);
      CapacityMonotoneInSize(s, middle * block, growth, maxParts);
    }
  }

  // `block` is the storage block size, which divides both limits.
  method InitialPartSize(maxFileSize: u64, maxParts: u64, growth: u64, block: u64) returns (size: u64)
    requires growth > 0 && block > 0
    requires MIN_PART % block == 0 && MAX_PART % block == 0
    ensures MIN_PART <= size <= MAX_PART && size % block == 0
    ensures Covers(MAX_PART as int, maxFileSize as int, maxParts as int, growth as int)
      ==> Covers(size as int, maxFileSize as int, maxParts as int, growth as int)
    ensures LeastCovering(size as int, block as int, maxFileSize as int, maxParts as int, growth as int)
  {
    var lower := MIN_PART / block;
    var upper := MAX_PART / block;
    assert lower * block == MIN_PART && upper * block == MAX_PART;
    ghost var first, last := lower as int, upper as int;
    ScaledOrder(first, last, block as int);
    while lower < upper
      invariant first <= lower as int <= upper as int <= last
      invariant Covers(MAX_PART as int, maxFileSize as int, maxParts as int, growth as int)
        ==> Covers(upper as int * block as int, maxFileSize as int, maxParts as int, growth as int)
      invariant NoneBelow(lower as int, block as int, maxFileSize as int, maxParts as int, growth as int)
    {
      var middle := lower + (upper - lower) / 2;
      ScaleMonotone(middle as int, last, block as int);
      var covers := ScheduleCovers(middle * block, maxFileSize, maxParts, growth);
      if covers {
        upper := middle;
      } else {
        ExtendNoneBelow(middle as int, block as int, maxFileSize as int, maxParts as int, growth as int);
        lower := middle + 1;
      }
    }
    ScaleMonotone(first, lower as int, block as int);
    ScaleMonotone(lower as int, last, block as int);
    MultipleHasNoRemainder(lower as int, block as int);
    size := lower * block;
  }

  ghost predicate LeastCovering(size: nat, block: nat, maxFileSize: nat, maxParts: nat, growth: nat)
    requires growth > 0 && block > 0
  {
    forall s: nat | MIN_PART as int <= s < size && s % block == 0
      :: !Covers(s, maxFileSize, maxParts, growth)
  }

  lemma ScaledOrder(a: nat, b: nat, k: nat)
    requires k > 0 && a * k <= b * k
    ensures a <= b
  {
    if a > b {
      ScaleStrict(b, a, k);
    }
  }

  lemma MultipleHasNoRemainder(a: nat, k: nat)
    requires k > 0
    ensures (a * k) % k == 0
  {
    var q := (a * k) / k;
    assert a * k == q * k + (a * k) % k;
    if q < a { ScaleStrict(q, a, k); } else { ScaleMonotone(a, q, k); }
  }

  method Create(maxFileSize: u64, maxParts: u64, block: u64) returns (r: CreateResult)
    requires block > 0 && MIN_PART % block == 0 && MAX_PART % block == 0
    ensures r.ZeroFileSize? <==> maxFileSize == 0
    ensures r.PartsOutOfRange? <==> maxFileSize > 0 && !(0 < maxParts <= MAX_PARTS)
    ensures r.FileSizeUnsupported? <==>
      maxFileSize > 0 && 0 < maxParts <= MAX_PARTS && maxFileSize as int > MAX_PART as int * maxParts as int
    ensures r.Created? ==>
      && Chosen(r.config, block)
      && r.config.maxFileSize == maxFileSize && r.config.maxParts == maxParts
  {
    if maxFileSize == 0 {
      return ZeroFileSize;
    }
    if maxParts == 0 || maxParts > MAX_PARTS {
      return PartsOutOfRange;
    }
    var supported := MAX_PART * maxParts;
    if maxFileSize > supported {
      return FileSizeUnsupported;
    }
    var growth := (maxParts + PART_SIZE_TIERS - 1) / PART_SIZE_TIERS;
    GrowthFacts(maxParts as int, growth as int);
    CapacityOfLargestParts(growth as int, maxParts as int);
    var initial := InitialPartSize(maxFileSize, maxParts, growth, block);
    return Created(Config(maxFileSize, maxParts, initial, growth));
  }

  // Number of tiers that so many parts spread over.
  function Tiers(maxParts: nat, growth: nat): nat
    requires growth > 0 && maxParts > 0
  {
    (maxParts - 1) / growth + 1
  }

  predicate TooManyTiers(maxParts: nat, growth: nat) {
    growth == 0 || (maxParts > 0 && Tiers(maxParts, growth) > PART_SIZE_TIERS as int)
  }

  // The shortest tiers of which there are not too many.
  ghost predicate LeastInterval(maxParts: nat, growth: nat) {
    && maxParts > 0 && !TooManyTiers(maxParts, growth)
    && forall g: nat :: g < growth ==> TooManyTiers(maxParts, g)
  }

  // What makes a configuration the one for its two settings.
  ghost predicate Chosen(c: Config, block: u64)
    requires block > 0
  {
    && ValidConfig(c) && LeastInterval(c.maxParts as int, c.growthInterval as int)
    && c.initialPartSize % block == 0
    && LeastCovering(c.initialPartSize as int, block as int, c.maxFileSize as int, c.maxParts as int,
                     c.growthInterval as int)
  }

  lemma LeastIntervalUnique(maxParts: nat, g: nat, h: nat)
    requires LeastInterval(maxParts, g) && LeastInterval(maxParts, h)
    ensures g >= h
  {
    assert g < h ==> TooManyTiers(maxParts, g);
  }

  // There is only one.
  lemma ChosenUnique(a: Config, b: Config, block: u64)
    requires block > 0 && Chosen(a, block) && Chosen(b, block)
    requires a.maxFileSize == b.maxFileSize && a.maxParts == b.maxParts
    ensures a == b
  {
    LeastIntervalUnique(a.maxParts as int, a.growthInterval as int, b.growthInterval as int);
    LeastIntervalUnique(a.maxParts as int, b.growthInterval as int, a.growthInterval as int);
    var x, y := a.initialPartSize as int, b.initialPartSize as int;
    assert x % block as int == 0 && y % block as int == 0;
  }

  lemma GrowthFacts(maxParts: nat, growth: nat)
    requires maxParts > 0
    requires growth == (maxParts + PART_SIZE_TIERS as int - 1) / PART_SIZE_TIERS as int
    ensures LeastInterval(maxParts, growth)
  {
    assert growth > 0 && PART_SIZE_TIERS as int * growth >= maxParts > PART_SIZE_TIERS as int * (growth - 1);
    FewTiers(maxParts, growth);
    forall g: nat | g < growth ensures TooManyTiers(maxParts, g) {
      if g > 0 { ManyTiers(maxParts, g); }
    }
  }

  lemma FewTiers(maxParts: nat, growth: nat)
    requires maxParts > 0 && growth > 0 && maxParts <= PART_SIZE_TIERS as int * growth
    ensures Tiers(maxParts, growth) <= PART_SIZE_TIERS as int
  {
    var tier: nat := (maxParts - 1) / growth;
    assert maxParts - 1 == tier * growth + (maxParts - 1) % growth;
    if tier >= PART_SIZE_TIERS as int {
      ScaleMonotone(PART_SIZE_TIERS as int, tier, growth);
      assert false;
    }
  }

  lemma ManyTiers(maxParts: nat, g: nat)
    requires g > 0 && maxParts > PART_SIZE_TIERS as int * g
    ensures Tiers(maxParts, g) > PART_SIZE_TIERS as int
  {
    var tier: nat := (maxParts - 1) / g;
    assert maxParts - 1 == tier * g + (maxParts - 1) % g;
    if tier < PART_SIZE_TIERS as int {
      ScaleStrict(tier, PART_SIZE_TIERS as int, g);
      assert false;
    }
  }

  // The defaults: 80 GB in 10000 parts and storage blocks of 256 KiB give tiers of 910
  // parts, the first of 5 MiB.
  lemma DefaultConfig()
    ensures Chosen(Config(80_000_000_000, 10_000, 5_242_880, 910), 262_144)
  {
    GrowthFacts(10_000, 910);
    FiveTiers(5_242_880, 910);
    CapacityMonotoneInParts(5_242_880, 910, 4_550, 10_000);
  }

  lemma FiveTiers(size: nat, growth: nat)
    requires size == 5_242_880 && growth == 910
    ensures Capacity(size, growth, 4_550) >= 80_000_000_000
  {
    DoubledFive(size);
    TierAdds(size, growth, 0, 0, size);
    TierAdds(size, growth, growth, 1, 2 * size);
    TierAdds(size, growth, 2 * growth, 2, 4 * size);
    TierAdds(size, growth, 3 * growth, 3, 8 * size);
    TierAdds(size, growth, 4 * growth, 4, 16 * size);
  }

  lemma TierAdds(size: nat, growth: nat, base: nat, tier: nat, doubled: nat)
    requires growth > 0 && base % growth == 0 && base / growth == tier && Doubled(size, tier) == doubled
    ensures Capacity(size, growth, base + growth) == Capacity(size, growth, base) + doubled * growth
  {
    CapacityOfTier(size, growth, base, growth);
  }

  lemma DoubledFive(size: nat)
    requires size == 5_242_880
    ensures Doubled(size, 0) == size && Doubled(size, 1) == 2 * size && Doubled(size, 2) == 4 * size
    ensures Doubled(size, 3) == 8 * size && Doubled(size, 4) == 16 * size
  {
    assert Doubled(size, 1) == Min(MAX_PART as int, 2 * Doubled(size, 0));
    assert Doubled(size, 2) == Min(MAX_PART as int, 2 * Doubled(size, 1));
    assert Doubled(size, 3) == Min(MAX_PART as int, 2 * Doubled(size, 2));
    assert Doubled(size, 4) == Min(MAX_PART as int, 2 * Doubled(size, 3));
  }
}
