// The deterministic parts of the batch generator (scripts/generate-batch.js):
// clamping, combination counting, card costs, the split of a batch into card
// types, the per-type loop that rejects repeated stat rolls, and the
// validation of a finished batch.
//
// `Math.random()` and `randomUUID()` are not part of this model: the cards a
// type's generator would return, one per attempt, are the parameter
// `candidates`. Costs are computed with exact real arithmetic, not floating
// point.

module GenerateBatch {
  import opened Wrappers

  /** The card types, in the key order of `DISTRIBUTION` and `MIN_CARDS`. */
  datatype Kind = Hero | Item | Reactive | Healing | Counterattack

  const Kinds: seq<Kind> := [Hero, Item, Reactive, Healing, Counterattack]

  /** `BATCH_SIZE`. */
  const BatchSize: int := 50

  /** `DISTRIBUTION`: the share of the batch each type should take. */
  function Ratio(k: Kind): real
  {
    match k
    case Hero => 0.25
    case Item => 0.30
    case Reactive => 0.15
    case Healing => 0.10
    case Counterattack => 0.20
  }

  /** `MIN_CARDS`. */
  function MinCards(k: Kind): int
  {
    match k
    case Hero => 10
    case Item => 10
    case Reactive => 6
    case Healing => 5
    case Counterattack => 5
  }

  /** `HERO_ATK_DEF_AVG_MAX_GAP`. */
  const HeroGapMax: real := 1.0

  // ---------------------------------------------------------------------------
  // Numbers

  function MinInt(a: int, b: int): int { if a <= b then a else b }
  function MaxInt(a: int, b: int): int { if a >= b then a else b }

  /** `clamp(value, min, max)`, that is `Math.max(min, Math.min(max, value))`. */
  function Clamp(value: int, min: int, max: int): (r: int)
    ensures min <= max ==> min <= r <= max
    ensures min <= value <= max ==> r == value
    ensures value < min ==> r == min
    ensures min <= max < value ==> r == max
  {
    MaxInt(min, MinInt(max, value))
  }

  /** Clamping keeps the order of its inputs. */
  lemma ClampMonotone(v: int, w: int, min: int, max: int)
    requires v <= w
    ensures Clamp(v, min, max) <= Clamp(w, min, max)
  {
  }

  /** `Math.round`: to the nearest integer, halves going up. */
  function Round(x: real): (n: int)
    ensures n as real - 0.5 <= x < n as real + 0.5
  {
    (x + 0.5).Floor
  }

  lemma RoundMonotone(x: real, y: real)
    requires x <= y
    ensures Round(x) <= Round(y)
  {
  }

  /** A third of an integer never lies halfway, so rounding it is `(n + 1) / 3` in integers. */
  lemma RoundThird(n: int)
    ensures Round(n as real / 3.0) == (n + 1) / 3
  {
    var q := (n + 1) / 3;
    assert 3 * q <= n + 1 < 3 * q + 3;
    assert q as real - 0.5 <= n as real / 3.0 < q as real + 0.5;
  }

  // ---------------------------------------------------------------------------
  // Templates and combinations

  /** One stat range of a template. */
  datatype Range = Range(min: int, max: int)

  /**
   * A card template as the generator reads it: its id, the ranges of its
   * stats (none when the template has no `ranges`) and `Number(baseCost || 0)`.
   */
  datatype Template = Template(id: string, ranges: seq<Range>, baseCost: int)

  /** The number of values a range offers. */
  function Width(r: Range): int
  {
    r.max - r.min + 1
  }

  predicate WellFormedRanges(rs: seq<Range>)
  {
    forall i :: 0 <= i < |rs| ==> rs[i].min <= rs[i].max
  }

  /** The product of the widths of the ranges; 1 for none. */
  function Combinations(rs: seq<Range>): int
    decreases |rs|
  {
    if rs == [] then 1 else Combinations(rs[..|rs| - 1]) * Width(rs[|rs| - 1])
  }

  /** Ranges that are not empty offer at least one combination. */
  lemma {:induction false} CombinationsPositive(rs: seq<Range>)
    requires WellFormedRanges(rs)
    ensures Combinations(rs) >= 1
    decreases |rs|
  {
    if rs != [] {
      var init := rs[..|rs| - 1];
      assert WellFormedRanges(init) by {
        forall i | 0 <= i < |init| ensures init[i].min <= init[i].max {
          assert init[i] == rs[i];
        }
      }
      CombinationsPositive(init);
      var w := Width(rs[|rs| - 1]);
      assert w >= 1;
      assert Combinations(init) * w >= Combinations(init) * 1;
    }
  }

  /** `countCombinations`: the running product over the ranges. */
  method CountCombinations(t: Template) returns (combinations: int)
    ensures combinations == Combinations(t.ranges)
    ensures WellFormedRanges(t.ranges) ==> combinations >= 1
  {
    combinations := 1;
    var i := 0;
    while i < |t.ranges|
      invariant 0 <= i <= |t.ranges|
      invariant combinations == Combinations(t.ranges[..i])
    {
      assert t.ranges[..i + 1][..i] == t.ranges[..i];
      combinations := combinations * Width(t.ranges[i]);
      i := i + 1;
    }
    assert t.ranges[..i] == t.ranges;
    if WellFormedRanges(t.ranges) {
      CombinationsPositive(t.ranges);
    }
  }

  /** `maxUniqueCards`: the combinations summed over the templates. */
  function MaxUniqueCards(ts: seq<Template>): int
    decreases |ts|
  {
    if ts == [] then 0 else MaxUniqueCards(ts[..|ts| - 1]) + Combinations(ts[|ts| - 1].ranges)
  }

  /** Every template whose ranges are not empty adds at least one unique card. */
  lemma {:induction false} MaxUniqueCardsAtLeastTemplates(ts: seq<Template>)
    requires forall i :: 0 <= i < |ts| ==> WellFormedRanges(ts[i].ranges)
    ensures MaxUniqueCards(ts) >= |ts|
    decreases |ts|
  {
    if ts != [] {
      var init := ts[..|ts| - 1];
      assert forall i :: 0 <= i < |init| ==> init[i] == ts[i];
      MaxUniqueCardsAtLeastTemplates(init);
      CombinationsPositive(ts[|ts| - 1].ranges);
    }
  }

  // ---------------------------------------------------------------------------
  // Costs

  /**
   * `getDerivedCostByType(type, power)`: the rounded power scaled for the
   * type and clamped to the type's band; 1 for an unknown type (None).
   */
  function DerivedCost(kind: Option<Kind>, power: real): (c: int)
    ensures kind == Some(Hero) ==> 2 <= c <= 6
    ensures kind == Some(Item) || kind == Some(Reactive) ==> 1 <= c <= 4
    ensures kind == Some(Healing) || kind == Some(Counterattack) ==> 1 <= c <= 3
    ensures kind == None ==> c == 1
  {
    match kind
    case None => 1
    case Some(Hero) => Clamp(Round(power / 3.2 - 2.0), 2, 6)
    case Some(Item) => Clamp(Round(power), 1, 4)
    case Some(Healing) => Clamp(Round(power * 0.8), 1, 3)
    case Some(Counterattack) => Clamp(Round(power * 1.2), 1, 3)
    case Some(Reactive) => Clamp(Round(power), 1, 4)
  }

  /** A stronger roll never gets a lower derived cost. */
  lemma DerivedCostMonotone(kind: Option<Kind>, p: real, q: real)
    requires p <= q
    ensures DerivedCost(kind, p) <= DerivedCost(kind, q)
  {
    match kind
    case None =>
    case Some(Hero) =>
      RoundMonotone(p / 3.2 - 2.0, q / 3.2 - 2.0);
    case Some(Item) =>
      RoundMonotone(p, q);
    case Some(Healing) =>
      RoundMonotone(p * 0.8, q * 0.8);
    case Some(Counterattack) =>
      RoundMonotone(p * 1.2, q * 1.2);
    case Some(Reactive) =>
      RoundMonotone(p, q);
  }

  /**
   * `calculateCardCost`: two parts derived cost to one part template cost,
   * rounded and clamped to [1, 10].
   */
  function CardCost(kind: Option<Kind>, power: real, baseCost: int): (c: int)
    ensures 1 <= c <= 10
    ensures c == Clamp((2 * DerivedCost(kind, power) + baseCost + 1) / 3, 1, 10)
  {
    RoundThird(DerivedCost(kind, power) * 2 + baseCost);
    Clamp(Round(((DerivedCost(kind, power) * 2 + baseCost) as real) / 3.0), 1, 10)
  }

  /** Stronger rolls cost at least as much: the blend keeps the order of the powers. */
  lemma CardCostMonotone(kind: Option<Kind>, p: real, q: real, baseCost: int)
    requires p <= q
    ensures CardCost(kind, p, baseCost) <= CardCost(kind, q, baseCost)
  {
    DerivedCostMonotone(kind, p, q);
    var m := 2 * DerivedCost(kind, p) + baseCost + 1;
    var n := 2 * DerivedCost(kind, q) + baseCost + 1;
    assert m / 3 <= n / 3;
    ClampMonotone(m / 3, n / 3, 1, 10);
  }

  /** The template cost only nudges the price: within the templates' costs of 1 to 4, a hero costs 2 to 5. */
  lemma HeroCostBand(power: real, baseCost: int)
    requires 1 <= baseCost <= 4
    ensures 2 <= CardCost(Some(Hero), power, baseCost) <= 5
  {
  }

  // ---------------------------------------------------------------------------
  // Distribution

  /** One count per card type. */
  datatype Counts = Counts(hero: int, item: int, reactive: int, healing: int, counterattack: int)
  {
    function Get(k: Kind): int
    {
      match k
      case Hero => hero
      case Item => item
      case Reactive => reactive
      case Healing => healing
      case Counterattack => counterattack
    }

    function Set(k: Kind, v: int): (c: Counts)
      ensures c.Get(k) == v && forall t :: t != k ==> c.Get(t) == Get(t)
    {
      match k
      case Hero => this.(hero := v)
      case Item => this.(item := v)
      case Reactive => this.(reactive := v)
      case Healing => this.(healing := v)
      case Counterattack => this.(counterattack := v)
    }

    /** The sum of the counts, as the `reduce` over the values gives it. */
    function Total(): int
    {
      hero + item + reactive + healing + counterattack
    }
  }

  /** The type's share of the batch, rounded. */
  function Share(batchSize: int, k: Kind): int
  {
    Round(batchSize as real * Ratio(k))
  }

  /** The rounded shares before the correction. */
  function Shares(batchSize: int): (c: Counts)
    ensures forall k :: c.Get(k) == Share(batchSize, k)
  {
    Counts(Share(batchSize, Hero), Share(batchSize, Item), Share(batchSize, Reactive),
           Share(batchSize, Healing), Share(batchSize, Counterattack))
  }

  /** The position of a type in the key order. */
  function KindIndex(k: Kind): nat
  {
    match k
    case Hero => 0
    case Item => 1
    case Reactive => 2
    case Healing => 3
    case Counterattack => 4
  }

  /**
   * The key that comes first after the stable sort by count, largest first:
   * a largest count, and among equal counts the earliest key.
   */
  function Largest(c: Counts): (k: Kind)
    ensures forall t :: c.Get(t) <= c.Get(k)
    ensures forall t :: KindIndex(t) < KindIndex(k) ==> c.Get(t) < c.Get(k)
  {
    var m := MaxInt(MaxInt(MaxInt(MaxInt(c.hero, c.item), c.reactive), c.healing), c.counterattack);
    if c.hero == m then Hero
    else if c.item == m then Item
    else if c.reactive == m then Reactive
    else if c.healing == m then Healing
    else Counterattack
  }

  /**
   * `calculateDistribution`: the rounded shares, with the difference to the
   * batch size added to (or taken from) the largest category, so the counts
   * always sum to the batch size.
   */
  method CalculateDistribution(batchSize: int) returns (counts: Counts)
    ensures counts.Total() == batchSize
    ensures forall k :: k != Largest(Shares(batchSize)) ==> counts.Get(k) == Share(batchSize, k)
    ensures counts.Get(Largest(Shares(batchSize)))
            == Share(batchSize, Largest(Shares(batchSize))) + (batchSize - Shares(batchSize).Total())
  {
    counts := Shares(batchSize);
    var total := counts.hero + counts.item + counts.reactive + counts.healing + counts.counterattack;
    var diff := batchSize - total;
    if diff != 0 {
      var largest := Largest(counts);
      counts := counts.Set(largest, counts.Get(largest) + diff);
    }
  }

  /**
   * For the batch size of 50 the shares are 13, 15, 8, 5 and 10, one too
   * many; items are the largest category and drop to 14. Every count then
   * meets its minimum.
   */
  lemma FiftyCardDistribution()
    ensures Shares(BatchSize) == Counts(13, 15, 8, 5, 10)
    ensures Largest(Shares(BatchSize)) == Item && BatchSize - Shares(BatchSize).Total() == -1
    ensures forall k :: Shares(BatchSize).Set(Item, 14).Get(k) >= MinCards(k)
  {
    assert Round(12.5) == 13;
    assert Round(15.0) == 15;
    assert Round(7.5) == 8;
    assert Round(5.0) == 5;
    assert Round(10.0) == 10;
  }

  // ---------------------------------------------------------------------------
  // Generation of one type

  /** A generated card: the parts of it the generator and the validator read. */
  datatype GenCard = GenCard(id: string, kind: Kind, template: string, stats: map<string, int>, cost: int)

  /** `cardSignature`: the template and the stat values. */
  datatype Signature = Signature(template: string, stats: map<string, int>)

  function SignatureOf(c: GenCard): Signature
  {
    Signature(c.template, c.stats)
  }

  /** The signatures of the cards. */
  function Signatures(cs: seq<GenCard>): set<Signature>
    decreases |cs|
  {
    if cs == [] then {} else Signatures(cs[..|cs| - 1]) + {SignatureOf(cs[|cs| - 1])}
  }

  lemma {:induction false} SignaturesHold(cs: seq<GenCard>, i: nat)
    requires i < |cs|
    ensures SignatureOf(cs[i]) in Signatures(cs)
    decreases |cs|
  {
    if i < |cs| - 1 {
      SignaturesHold(cs[..|cs| - 1], i);
    }
  }

  predicate DistinctSignatures(cs: seq<GenCard>)
  {
    forall i, j :: 0 <= i < j < |cs| ==> SignatureOf(cs[i]) != SignatureOf(cs[j])
  }

  /**
   * The cards the loop keeps from the candidates seen so far: each one whose
   * signature has not been kept yet, or every one when duplicates are allowed.
   */
  function Kept(cs: seq<GenCard>, allowDuplicates: bool): seq<GenCard>
    decreases |cs|
  {
    if cs == [] then []
    else
      var k := Kept(cs[..|cs| - 1], allowDuplicates);
      var c := cs[|cs| - 1];
      if allowDuplicates || SignatureOf(c) !in Signatures(k) then k + [c] else k
  }

  /** Without duplicates allowed, no two kept cards share a signature. */
  lemma {:induction false} KeptDistinct(cs: seq<GenCard>)
    ensures DistinctSignatures(Kept(cs, false))
    decreases |cs|
  {
    if cs != [] {
      var k := Kept(cs[..|cs| - 1], false);
      KeptDistinct(cs[..|cs| - 1]);
      var c := cs[|cs| - 1];
      if SignatureOf(c) !in Signatures(k) {
        var r := k + [c];
        forall i, j | 0 <= i < j < |r| ensures SignatureOf(r[i]) != SignatureOf(r[j]) {
          if j == |k| {
            SignaturesHold(k, i);
          }
        }
      }
    }
  }

  /** With duplicates allowed, every candidate is kept. */
  lemma {:induction false} KeptAllowingDuplicates(cs: seq<GenCard>)
    ensures Kept(cs, true) == cs
    decreases |cs|
  {
    if cs != [] {
      KeptAllowingDuplicates(cs[..|cs| - 1]);
    }
  }

  /** Every kept card is one of the candidates, in the candidates' order. */
  lemma {:induction false} KeptFromCandidates(cs: seq<GenCard>, allowDuplicates: bool)
    ensures |Kept(cs, allowDuplicates)| <= |cs|
    ensures forall c :: c in Kept(cs, allowDuplicates) ==> c in cs
    decreases |cs|
  {
    if cs != [] {
      KeptFromCandidates(cs[..|cs| - 1], allowDuplicates);
    }
  }

  /**
   * The loop of `generateBatch` for one type: candidates are drawn until
   * `count` cards are kept or `20 * count` attempts are spent (or, here, the
   * candidates run out). A stat roll already kept is rejected unless the
   * type needs more cards than it has unique combinations.
   */
  method GenerateOfType(count: int, maxUnique: int, candidates: seq<GenCard>) returns (accepted: seq<GenCard>, attempts: nat)
    ensures attempts <= |candidates|
    ensures accepted == Kept(candidates[..attempts], count > maxUnique)
    ensures count <= 0 ==> attempts == 0 && accepted == []
    ensures count > 0 ==> |accepted| <= count && attempts <= 20 * count
    ensures count > 0 ==> |accepted| == count || attempts == 20 * count || attempts == |candidates|
  {
    var generated := 0;
    attempts := 0;
    var maxAttempts := count * 20;
    var signatures: set<Signature> := {};
    var allowDuplicates := count > maxUnique;
    accepted := [];
    while generated < count && attempts < maxAttempts && attempts < |candidates|
      invariant attempts <= |candidates|
      invariant accepted == Kept(candidates[..attempts], allowDuplicates)
      invariant generated == |accepted| && signatures == Signatures(accepted)
      invariant attempts == 0 || (generated <= count && attempts <= maxAttempts)
      invariant attempts == 0 ==> accepted == []
      decreases |candidates| - attempts
    {
      var card := candidates[attempts];
      var sig := SignatureOf(card);
      assert candidates[..attempts + 1][..attempts] == candidates[..attempts];
      if allowDuplicates || sig !in signatures {
        assert (accepted + [card])[..|accepted|] == accepted;
        signatures := signatures + {sig};
        accepted := accepted + [card];
        generated := generated + 1;
      }
      attempts := attempts + 1;
    }
  }

  // ---------------------------------------------------------------------------
  // Summary and validation

  /** The number of cards of a type. */
  function CountOf(cs: seq<GenCard>, k: Kind): nat
    decreases |cs|
  {
    if cs == [] then 0 else CountOf(cs[..|cs| - 1], k) + (if cs[|cs| - 1].kind == k then 1 else 0)
  }

  /** `summary.by_type` as `generateBatch` computes it. */
  function SummaryOf(cs: seq<GenCard>): Counts
  {
    Counts(CountOf(cs, Hero), CountOf(cs, Item), CountOf(cs, Reactive), CountOf(cs, Healing), CountOf(cs, Counterattack))
  }

  /** Every card has one of the five types, so the summary accounts for every card. */
  lemma {:induction false} SummaryCoversBatch(cs: seq<GenCard>)
    ensures SummaryOf(cs).Total() == |cs|
    decreases |cs|
  {
    if cs != [] {
      SummaryCoversBatch(cs[..|cs| - 1]);
    }
  }

  /** The batch as `validateBatch` reads it: the cards and the stored summary. */
  datatype Batch = Batch(cards: seq<GenCard>, summary: Counts)

  /** The errors of `validateBatch`, without their message text. */
  datatype BatchError =
    | WrongSize(size: nat)
    | TooFew(kind: Kind, count: int, min: int)
    | DuplicateId(id: string)
    | GapTooHigh(atkSum: int, defSum: int, heroes: nat)

  function SizeErrors(cs: seq<GenCard>): seq<BatchError>
  {
    if |cs| != BatchSize then [WrongSize(|cs|)] else []
  }

  /** One error per type, in the given order, whose count in the summary is below its minimum. */
  function MinimumErrors(summary: Counts, ks: seq<Kind>): seq<BatchError>
    decreases |ks|
  {
    if ks == [] then []
    else
      var k := ks[|ks| - 1];
      MinimumErrors(summary, ks[..|ks| - 1])
      + (if summary.Get(k) < MinCards(k) then [TooFew(k, summary.Get(k), MinCards(k))] else [])
  }

  /** The ids of the cards. */
  function Ids(cs: seq<GenCard>): set<string>
    decreases |cs|
  {
    if cs == [] then {} else Ids(cs[..|cs| - 1]) + {cs[|cs| - 1].id}
  }

  /** One error for each card whose id an earlier card already has. */
  function DuplicateErrors(cs: seq<GenCard>): seq<BatchError>
    decreases |cs|
  {
    if cs == [] then []
    else
      var c := cs[|cs| - 1];
      DuplicateErrors(cs[..|cs| - 1]) + (if c.id in Ids(cs[..|cs| - 1]) then [DuplicateId(c.id)] else [])
  }

  predicate DistinctIds(cs: seq<GenCard>)
  {
    forall i, j :: 0 <= i < j < |cs| ==> cs[i].id != cs[j].id
  }

  lemma {:induction false} IdsHold(cs: seq<GenCard>, x: string)
    ensures x in Ids(cs) <==> exists i :: 0 <= i < |cs| && cs[i].id == x
    decreases |cs|
  {
    if cs != [] {
      var init := cs[..|cs| - 1];
      IdsHold(init, x);
      if x in Ids(init) {
        var i :| 0 <= i < |init| && init[i].id == x;
        assert cs[i].id == x;
      }
    }
  }

  /** Every repeated card is reported once: the errors and the distinct ids make up the batch. */
  lemma {:induction false} DuplicateErrorsCount(cs: seq<GenCard>)
    ensures |DuplicateErrors(cs)| + |Ids(cs)| == |cs|
    decreases |cs|
  {
    if cs != [] {
      var init := cs[..|cs| - 1];
      var c := cs[|cs| - 1];
      DuplicateErrorsCount(init);
      if c.id in Ids(init) {
        assert Ids(cs) == Ids(init);
      } else {
        assert |Ids(init) + {c.id}| == |Ids(init)| + 1;
      }
    }
  }

  /** No duplicate-id error is reported exactly when the ids are distinct. */
  lemma {:induction false} DuplicateErrorsNone(cs: seq<GenCard>)
    ensures DuplicateErrors(cs) == [] <==> DistinctIds(cs)
    decreases |cs|
  {
    if cs != [] {
      var init := cs[..|cs| - 1];
      var c := cs[|cs| - 1];
      DuplicateErrorsNone(init);
      IdsHold(init, c.id);
      if DistinctIds(cs) {
        assert DistinctIds(init) by {
          forall i, j | 0 <= i < j < |init| ensures init[i].id != init[j].id {
            assert init[i] == cs[i] && init[j] == cs[j];
          }
        }
        assert forall i :: 0 <= i < |init| ==> init[i].id != c.id by {
          forall i | 0 <= i < |init| ensures init[i].id != c.id {
            assert init[i] == cs[i];
          }
        }
      }
      if DuplicateErrors(cs) == [] {
        assert |DuplicateErrors(init)| <= |DuplicateErrors(cs)|;
        assert c.id !in Ids(init);
        forall i, j | 0 <= i < j < |cs| ensures cs[i].id != cs[j].id {
          if j < |init| {
            assert init[i] == cs[i] && init[j] == cs[j];
          } else {
            assert init[i] == cs[i];
          }
        }
      }
    }
  }

  /** `Number(card.stats.stat) || 0`. */
  function StatOf(c: GenCard, name: string): int
  {
    if name in c.stats then c.stats[name] else 0
  }

  /** The hero cards, in batch order. */
  function Heroes(cs: seq<GenCard>): (hs: seq<GenCard>)
    ensures |hs| == CountOf(cs, Hero)
    decreases |cs|
  {
    if cs == [] then []
    else Heroes(cs[..|cs| - 1]) + (if cs[|cs| - 1].kind == Hero then [cs[|cs| - 1]] else [])
  }

  /** The sum of one stat over the cards. */
  function StatSum(cs: seq<GenCard>, name: string): int
    decreases |cs|
  {
    if cs == [] then 0 else StatSum(cs[..|cs| - 1], name) + StatOf(cs[|cs| - 1], name)
  }

  function RealAbs(x: real): real
  {
    if x < 0.0 then -x else x
  }

  /** The source's test: the attack and defence averages differ by more than the allowed gap. */
  predicate AverageGapTooHigh(atkSum: int, defSum: int, n: nat)
    requires n > 0
  {
    RealAbs(atkSum as real / n as real - defSum as real / n as real) > HeroGapMax
  }

  /** The test on averages is the integer test |atk sum - def sum| > hero count. */
  lemma AverageGapAsSums(atkSum: int, defSum: int, n: nat)
    requires n > 0
    ensures AverageGapTooHigh(atkSum, defSum, n) <==> atkSum - defSum > n || defSum - atkSum > n
  {
    QuotientGap(atkSum as real, defSum as real, n as real);
    assert (atkSum as real - defSum as real > n as real) == (atkSum - defSum > n);
    assert (defSum as real - atkSum as real > n as real) == (defSum - atkSum > n);
  }

  /** Over the reals: the quotients by a positive n differ by more than 1 exactly when p and q differ by more than n. */
  lemma QuotientGap(p: real, q: real, n: real)
    requires n > 0.0
    ensures RealAbs(p / n - q / n) > 1.0 <==> p - q > n || q - p > n
  {
    var x := p / n - q / n;
    DifferenceOfQuotients(p, q, n);
    ScaleKeepsOrder(x, n, p - q);
  }

  /** Dividing two values by the same positive n and multiplying back gives their difference. */
  lemma DifferenceOfQuotients(p: real, q: real, n: real)
    requires n > 0.0
    ensures (p / n - q / n) * n == p - q
  {
    assert (p / n) * n == p;
    assert (q / n) * n == q;
  }

  /** Scaling by a positive n keeps a value's place relative to 1 and -1. */
  lemma ScaleKeepsOrder(x: real, n: real, d: real)
    requires n > 0.0 && x * n == d
    ensures x > 1.0 <==> d > n
    ensures x < -1.0 <==> -d > n
  {
    assert d - n == (x - 1.0) * n;
    assert d + n == (x + 1.0) * n;
  }

  function GapErrors(cs: seq<GenCard>): seq<BatchError>
  {
    var hs := Heroes(cs);
    if |hs| > 0 && AverageGapTooHigh(StatSum(hs, "atk"), StatSum(hs, "def"), |hs|)
    then [GapTooHigh(StatSum(hs, "atk"), StatSum(hs, "def"), |hs|)]
    else []
  }

  /** The errors of a batch in the order `validateBatch` reports them. */
  function Errors(b: Batch): seq<BatchError>
  {
    SizeErrors(b.cards) + MinimumErrors(b.summary, Kinds) + DuplicateErrors(b.cards) + GapErrors(b.cards)
  }

  /**
   * `validateBatch`: the errors in the source's order, and valid exactly
   * when there are none.
   */
  method ValidateBatch(b: Batch) returns (valid: bool, errors: seq<BatchError>)
    ensures errors == Errors(b)
    ensures valid <==> errors == []
  {
    var sizeErrors: seq<BatchError> := [];
    if |b.cards| != BatchSize {
      sizeErrors := [WrongSize(|b.cards|)];
    }
    var countErrors: seq<BatchError> := [];
    var i := 0;
    while i < |Kinds|
      invariant 0 <= i <= |Kinds|
      invariant countErrors == MinimumErrors(b.summary, Kinds[..i])
    {
      var k := Kinds[i];
      assert Kinds[..i + 1][..i] == Kinds[..i];
      if b.summary.Get(k) < MinCards(k) {
        countErrors := countErrors + [TooFew(k, b.summary.Get(k), MinCards(k))];
      }
      i := i + 1;
    }
    assert Kinds[..i] == Kinds;
    var duplicateErrors: seq<BatchError> := [];
    var ids: set<string> := {};
    var j := 0;
    while j < |b.cards|
      invariant 0 <= j <= |b.cards|
      invariant ids == Ids(b.cards[..j])
      invariant duplicateErrors == DuplicateErrors(b.cards[..j])
    {
      var card := b.cards[j];
      assert b.cards[..j + 1][..j] == b.cards[..j];
      if card.id in ids {
        duplicateErrors := duplicateErrors + [DuplicateId(card.id)];
      }
      ids := ids + {card.id};
      j := j + 1;
    }
    assert b.cards[..j] == b.cards;
    errors := sizeErrors + countErrors + duplicateErrors + GapErrors(b.cards);
    valid := |errors| == 0;
  }

  /**
   * A batch is valid exactly when it holds 50 cards, its summary meets every
   * minimum, no id repeats and, when there are heroes, their attack and
   * defence sums differ by at most the number of heroes.
   */
  lemma ValidBatchIff(b: Batch)
    ensures Errors(b) == [] <==>
              |b.cards| == BatchSize
              && (forall k :: b.summary.Get(k) >= MinCards(k))
              && DistinctIds(b.cards)
              && (CountOf(b.cards, Hero) > 0 ==>
                    StatSum(Heroes(b.cards), "atk") - StatSum(Heroes(b.cards), "def") <= CountOf(b.cards, Hero)
                    && StatSum(Heroes(b.cards), "def") - StatSum(Heroes(b.cards), "atk") <= CountOf(b.cards, Hero))
  {
    DuplicateErrorsNone(b.cards);
    var hs := Heroes(b.cards);
    if |hs| > 0 {
      AverageGapAsSums(StatSum(hs, "atk"), StatSum(hs, "def"), |hs|);
    }
    MinimumsMet(b.summary);
  }

  /** No minimum error exactly when every listed type meets its minimum. */
  lemma {:induction false} MinimumErrorsNone(summary: Counts, ks: seq<Kind>)
    ensures MinimumErrors(summary, ks) == [] <==> forall i :: 0 <= i < |ks| ==> summary.Get(ks[i]) >= MinCards(ks[i])
    decreases |ks|
  {
    if ks != [] {
      var init := ks[..|ks| - 1];
      MinimumErrorsNone(summary, init);
      assert forall i :: 0 <= i < |init| ==> init[i] == ks[i];
    }
  }

  /** No minimum error exactly when every type meets its minimum. */
  lemma MinimumsMet(summary: Counts)
    ensures MinimumErrors(summary, Kinds) == [] <==> forall k :: summary.Get(k) >= MinCards(k)
  {
    MinimumErrorsNone(summary, Kinds);
    if forall i :: 0 <= i < |Kinds| ==> summary.Get(Kinds[i]) >= MinCards(Kinds[i]) {
      forall k ensures summary.Get(k) >= MinCards(k) {
        assert Kinds[KindIndex(k)] == k;
      }
    }
  }
}
