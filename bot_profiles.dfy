/**
 * The alternative bot profiles (scripts/lib/botProfiles.js): an aggressive
 * and a conservative variant of the baseline pickers, the profile table and
 * the lookup of a profile by name. The engine does not use these profiles;
 * they are modelled for themselves.
 *
 * As in the baseline bot, the callbacks the source receives are function
 * parameters: `recruitCost` maps a base cost to the recruit cost,
 * `statsOf` is `getHeroCombatStats` of a present hero, `canAttack` says
 * whether an attacker slot may attack and `attackerStats` gives the
 * combat stats of the hero in an attacker slot.
 */
module BotProfiles {
  import opened Wrappers
  import opened SimRules
  import opened Ranking
  import opened BotBaseline

  // ---------------------------------------------------------------------------
  // Aggressive recruit
  // ---------------------------------------------------------------------------

  /** Highest recruit cost first, then lowest hand index. */
  function DearestRecruitKey(recruitCost: int -> int): (Card, nat) -> seq<int>
  {
    (c: Card, i: nat) => [-recruitCost(c.cost), i]
  }

  function AggressiveHeroChoice(p: PlayerState, recruitCost: int -> int): Option<Entry<Card>>
  {
    Best(p.hand, HeroFilter(p.resources, recruitCost), DearestRecruitKey(recruitCost))
  }

  /** `pickHeroRecruitPlayAggressive`: the dearest affordable hero into the first empty slot. */
  function PickHeroRecruitPlayAggressive(p: PlayerState, recruitCost: int -> int): Option<CardPlay>
  {
    match FirstEmptySlot(p.heroes)
    case None => None
    case Some(slot) =>
      match AggressiveHeroChoice(p, recruitCost)
      case None => None
      case Some(e) => Some(CardPlay(e.item.id, slot))
  }

  /**
   * No play without an empty slot and an affordable hero; otherwise the first
   * empty slot and the affordable hero of greatest recruit cost, the earliest on ties.
   */
  lemma PickHeroRecruitPlayAggressiveCorrect(p: PlayerState, recruitCost: int -> int)
    ensures PickHeroRecruitPlayAggressive(p, recruitCost).None? <==>
      FirstEmptySlot(p.heroes).None?
      || forall i :: 0 <= i < |p.hand| ==> !AffordableHero(p.hand[i], p.resources, recruitCost)
    ensures PickHeroRecruitPlayAggressive(p, recruitCost).Some? ==>
      var play := PickHeroRecruitPlayAggressive(p, recruitCost).value;
      var e := AggressiveHeroChoice(p, recruitCost).value;
      play == CardPlay(e.item.id, FirstEmptySlot(p.heroes).value)
      && e.index < |p.hand| && p.hand[e.index] == e.item && AffordableHero(e.item, p.resources, recruitCost)
      && forall j :: 0 <= j < |p.hand| && AffordableHero(p.hand[j], p.resources, recruitCost) ==>
           recruitCost(e.item.cost) > recruitCost(p.hand[j].cost)
           || (recruitCost(e.item.cost) == recruitCost(p.hand[j].cost) && e.index <= j)
  {
    var keep := HeroFilter(p.resources, recruitCost);
    var key := DearestRecruitKey(recruitCost);
    BestCorrect(p.hand, keep, key, 2);
    if AggressiveHeroChoice(p, recruitCost).Some? {
      var e := AggressiveHeroChoice(p, recruitCost).value;
      forall j | 0 <= j < |p.hand| && AffordableHero(p.hand[j], p.resources, recruitCost)
        ensures recruitCost(e.item.cost) > recruitCost(p.hand[j].cost)
                || (recruitCost(e.item.cost) == recruitCost(p.hand[j].cost) && e.index <= j)
      {
        assert keep(p.hand[j]);
        LexLeqPair(-recruitCost(e.item.cost), e.index, -recruitCost(p.hand[j].cost), j);
      }
    }
  }

  // ---------------------------------------------------------------------------
  // Aggressive healing
  // ---------------------------------------------------------------------------

  /** Most missing HP first, then lowest slot. */
  function MostMissingKey(): (HealTarget, nat) -> seq<int>
  {
    (t: HealTarget, i: nat) => [-t.missingHp, t.slot]
  }

  /** The specification of `pickHealingRecruitPlayAggressive`. */
  function AggressiveHealingPlay(p: PlayerState, statsOf: HeroInstance -> CombatStats): Option<CardPlay>
  {
    match Best(p.hand, HealingFilter(p.resources), CostAscKey())
    case None => None
    case Some(card) =>
      match Best(HealTargets(p.heroes, statsOf, 3, |p.heroes|), AnyTarget(), MostMissingKey())
      case None => None
      case Some(t) => Some(CardPlay(card.item.id, t.item.slot))
  }

  /** `pickHealingRecruitPlayAggressive`: heroes missing at least 3 HP, the cheapest healing card. */
  method PickHealingRecruitPlayAggressive(p: PlayerState, statsOf: HeroInstance -> CombatStats)
    returns (r: Option<CardPlay>)
    ensures r == AggressiveHealingPlay(p, statsOf)
  {
    var healingCards := Rank(p.hand, HealingFilter(p.resources), CostAscKey());
    if |healingCards| == 0 {
      return None;
    }
    var targets := CollectHealTargets(p.heroes, statsOf, 3);
    if |targets| == 0 {
      return None;
    }
    var target := Best(targets, AnyTarget(), MostMissingKey());
    var card := Best(p.hand, HealingFilter(p.resources), CostAscKey());
    return Some(CardPlay(card.value.item.id, target.value.item.slot));
  }

  /**
   * An aggressive healing play needs an affordable healing card and a hero
   * missing at least 3 HP; it uses the cheapest card (earliest on ties) on
   * the hero missing the most HP, the lowest slot on ties.
   */
  lemma AggressiveHealingPlayCorrect(p: PlayerState, statsOf: HeroInstance -> CombatStats)
    ensures var ts := HealTargets(p.heroes, statsOf, 3, |p.heroes|);
            var card := Best(p.hand, HealingFilter(p.resources), CostAscKey());
            var target := Best(ts, AnyTarget(), MostMissingKey());
            (AggressiveHealingPlay(p, statsOf).None? <==>
               (forall i :: 0 <= i < |p.hand| ==> !AffordableHealing(p.hand[i], p.resources)) || ts == [])
            && (AggressiveHealingPlay(p, statsOf).Some? ==>
                 var t := target.value.item;
                 AggressiveHealingPlay(p, statsOf).value == CardPlay(card.value.item.id, t.slot)
                 && CheapestHealing(p, card.value)
                 && t.slot < |p.heroes| && p.heroes[t.slot].Some? && t.missingHp >= 3
                 && t in ts
                 && forall u :: u in ts ==> t.missingHp > u.missingHp || (t.missingHp == u.missingHp && t.slot <= u.slot))
  {
    var ts := HealTargets(p.heroes, statsOf, 3, |p.heroes|);
    HealingCardCorrect(p);
    MostMissingBest(ts);
    var target := Best(ts, AnyTarget(), MostMissingKey());
    if target.Some? {
      var m :| 0 <= m < |ts| && ts[m] == target.value.item;
    }
  }

  /** The target the aggressive bot heals: one missing the most HP, the lowest slot on ties. */
  lemma MostMissingBest(ts: seq<HealTarget>)
    ensures Best(ts, AnyTarget(), MostMissingKey()).None? <==> ts == []
    ensures Best(ts, AnyTarget(), MostMissingKey()).Some? ==>
              var t := Best(ts, AnyTarget(), MostMissingKey()).value.item;
              t in ts && forall u :: u in ts ==> t.missingHp > u.missingHp || (t.missingHp == u.missingHp && t.slot <= u.slot)
  {
    BestCorrect(ts, AnyTarget(), MostMissingKey(), 2);
    var target := Best(ts, AnyTarget(), MostMissingKey());
    if ts != [] {
      assert AnyTarget()(ts[0]);
    }
    if target.Some? {
      var t := target.value.item;
      forall u | u in ts
        ensures t.missingHp > u.missingHp || (t.missingHp == u.missingHp && t.slot <= u.slot)
      {
        var m :| 0 <= m < |ts| && ts[m] == u;
        assert AnyTarget()(ts[m]);
        LexLeqPair(-t.missingHp, t.slot, -u.missingHp, u.slot);
      }
    }
  }

  // ---------------------------------------------------------------------------
  // Aggressive attacks
  // ---------------------------------------------------------------------------

  function AnySlot(): nat -> bool
  {
    (s: nat) => true
  }

  /** Attackers by highest attack first, then lowest slot. */
  function AtkDescKey(attackerStats: nat -> CombatStats): (nat, nat) -> seq<int>
  {
    (s: nat, i: nat) => [-attackerStats(s).atk, s]
  }

  /** The attacker slots in the order the aggressive bot uses them. */
  function AttackOrder(canAttack: nat -> bool, attackerStats: nat -> CombatStats): seq<Ranked<Entry<nat>>>
  {
    SortByKey(Rank(AttackerSlots(canAttack, MaxHeroSlots), AnySlot(), AtkDescKey(attackerStats)))
  }

  predicate Occupied(slot: Option<HeroInstance>)
  {
    slot.Some?
  }

  function OccupiedFilter(): Option<HeroInstance> -> bool
  {
    (slot: Option<HeroInstance>) => Occupied(slot)
  }

  /** Defenders by lowest HP first, then lowest slot; an empty slot, never chosen, keys as HP 0. */
  function HpAscKey(statsOf: HeroInstance -> CombatStats): (Option<HeroInstance>, nat) -> seq<int>
  {
    (slot: Option<HeroInstance>, i: nat) => [if slot.Some? then statsOf(slot.value).hp else 0, i]
  }

  /** The defender slot every aggressive attack aims at. */
  function WeakestDefender(defenderHeroes: seq<Option<HeroInstance>>, statsOf: HeroInstance -> CombatStats)
    : Option<Entry<Option<HeroInstance>>>
  {
    Best(defenderHeroes, OccupiedFilter(), HpAscKey(statsOf))
  }

  /** The aggressive attacks of the first `n` attackers in attack order, against `target`. */
  function AimOrdered(order: seq<Ranked<Entry<nat>>>, target: nat, n: nat): (attacks: seq<Attack>)
    requires n <= |order|
    ensures |attacks| == n
    ensures forall k :: 0 <= k < n ==> attacks[k] == Attack(order[k].value.item, target)
  {
    seq(n, k requires 0 <= k < n => Attack(order[k].value.item, target))
  }

  /** The specification of `pickAttacksAggressive`. */
  function AggressiveAttacks(defenderHeroes: seq<Option<HeroInstance>>, canAttack: nat -> bool,
                             attackerStats: nat -> CombatStats, statsOf: HeroInstance -> CombatStats): seq<Attack>
  {
    var order := AttackOrder(canAttack, attackerStats);
    match WeakestDefender(defenderHeroes, statsOf)
    case None => []
    case Some(t) => AimOrdered(order, t.index, |order|)
  }

  /** The first loop of `pickAttacksAggressive`: the slots that can attack. */
  method CollectAttackers(canAttack: nat -> bool) returns (attackers: seq<nat>)
    ensures attackers == AttackerSlots(canAttack, MaxHeroSlots)
  {
    attackers := [];
    var attackerSlot := 0;
    while attackerSlot < MaxHeroSlots
      invariant 0 <= attackerSlot <= MaxHeroSlots
      invariant attackers == AttackerSlots(canAttack, attackerSlot)
    {
      if canAttack(attackerSlot) {
        attackers := attackers + [attackerSlot];
      }
      attackerSlot := attackerSlot + 1;
    }
  }

  /** `pickAttacksAggressive`. */
  method PickAttacksAggressive(defenderHeroes: seq<Option<HeroInstance>>, canAttack: nat -> bool,
                               attackerStats: nat -> CombatStats, statsOf: HeroInstance -> CombatStats)
    returns (attacks: seq<Attack>)
    ensures attacks == AggressiveAttacks(defenderHeroes, canAttack, attackerStats, statsOf)
  {
    var attackers := CollectAttackers(canAttack);
    var order := SortByKey(Rank(attackers, AnySlot(), AtkDescKey(attackerStats)));
    ghost var target := WeakestDefender(defenderHeroes, statsOf);
    attacks := [];
    var k := 0;
    while k < |order|
      invariant 0 <= k <= |order|
      invariant target.None? ==> attacks == [] && k == 0
      invariant target.Some? ==> attacks == AimOrdered(order, target.value.index, k)
    {
      var defender := WeakestDefender(defenderHeroes, statsOf);
      if defender.None? {
        break;
      }
      attacks := attacks + [Attack(order[k].value.item, defender.value.index)];
      k := k + 1;
    }
    if target.Some? {
      assert k == |order|;
    }
  }

  /**
   * There is a target exactly when the defender has a hero, and it is the
   * occupied defender slot with the least HP, the lowest slot on ties.
   */
  lemma WeakestDefenderCorrect(defenderHeroes: seq<Option<HeroInstance>>, statsOf: HeroInstance -> CombatStats)
    ensures WeakestDefender(defenderHeroes, statsOf).Some? <==> HasHeroes(defenderHeroes)
    ensures WeakestDefender(defenderHeroes, statsOf).Some? ==>
              var t := WeakestDefender(defenderHeroes, statsOf).value.index;
              t < |defenderHeroes| && defenderHeroes[t].Some?
              && forall j :: 0 <= j < |defenderHeroes| && defenderHeroes[j].Some? ==>
                   statsOf(defenderHeroes[t].value).hp < statsOf(defenderHeroes[j].value).hp
                   || (statsOf(defenderHeroes[t].value).hp == statsOf(defenderHeroes[j].value).hp && t <= j)
  {
    var best := WeakestDefender(defenderHeroes, statsOf);
    BestCorrect(defenderHeroes, OccupiedFilter(), HpAscKey(statsOf), 2);
    if HasHeroes(defenderHeroes) {
      var w := FirstOccupiedSlot(defenderHeroes).value;
      assert OccupiedFilter()(defenderHeroes[w]);
    }
    if best.Some? {
      var t := best.value.index;
      forall j | 0 <= j < |defenderHeroes| && defenderHeroes[j].Some?
        ensures statsOf(defenderHeroes[t].value).hp < statsOf(defenderHeroes[j].value).hp
                || (statsOf(defenderHeroes[t].value).hp == statsOf(defenderHeroes[j].value).hp && t <= j)
      {
        assert OccupiedFilter()(defenderHeroes[j]);
        LexLeqPair(statsOf(defenderHeroes[t].value).hp, t, statsOf(defenderHeroes[j].value).hp, j);
      }
    }
  }

  /**
   * The attack order holds every slot that can attack, and only those, by
   * highest attack first and lowest slot on ties.
   */
  lemma AttackOrderCorrect(canAttack: nat -> bool, attackerStats: nat -> CombatStats)
    ensures var order := AttackOrder(canAttack, attackerStats);
            (forall k :: 0 <= k < |order| ==> order[k].value.item < MaxHeroSlots && canAttack(order[k].value.item))
            && (forall s :: 0 <= s < MaxHeroSlots && canAttack(s) ==>
                  exists k :: 0 <= k < |order| && order[k].value.item == s)
            && (forall k, m :: 0 <= k < m < |order| ==>
                  attackerStats(order[k].value.item).atk > attackerStats(order[m].value.item).atk
                  || (attackerStats(order[k].value.item).atk == attackerStats(order[m].value.item).atk
                      && order[k].value.item <= order[m].value.item))
  {
    AttackOrderMembers(canAttack, attackerStats);
    AttackOrderSorted(canAttack, attackerStats);
  }

  lemma AttackOrderMembers(canAttack: nat -> bool, attackerStats: nat -> CombatStats)
    ensures var order := AttackOrder(canAttack, attackerStats);
            (forall k :: 0 <= k < |order| ==> order[k].value.item < MaxHeroSlots && canAttack(order[k].value.item))
            && (forall s :: 0 <= s < MaxHeroSlots && canAttack(s) ==>
                  exists k :: 0 <= k < |order| && order[k].value.item == s)
  {
    var order := AttackOrder(canAttack, attackerStats);
    forall k | 0 <= k < |order|
      ensures order[k].value.item < MaxHeroSlots && canAttack(order[k].value.item)
    {
      AttackOrderAt(canAttack, attackerStats, k);
    }
    forall s | 0 <= s < MaxHeroSlots && canAttack(s)
      ensures exists k :: 0 <= k < |order| && order[k].value.item == s
    {
      AttackOrderHas(canAttack, attackerStats, s);
    }
  }

  lemma AttackOrderAt(canAttack: nat -> bool, attackerStats: nat -> CombatStats, k: nat)
    requires k < |AttackOrder(canAttack, attackerStats)|
    ensures var e := AttackOrder(canAttack, attackerStats)[k].value;
            e.item < MaxHeroSlots && canAttack(e.item)
  {
    var slots := AttackerSlots(canAttack, MaxHeroSlots);
    var order := AttackOrder(canAttack, attackerStats);
    RankKept(slots, AnySlot(), AtkDescKey(attackerStats), 2, order);
    assert order[k].value.item == slots[order[k].value.index];
  }

  lemma AttackOrderHas(canAttack: nat -> bool, attackerStats: nat -> CombatStats, s: nat)
    requires s < MaxHeroSlots && canAttack(s)
    ensures exists k :: 0 <= k < |AttackOrder(canAttack, attackerStats)| && AttackOrder(canAttack, attackerStats)[k].value.item == s
  {
    var slots := AttackerSlots(canAttack, MaxHeroSlots);
    var key := AtkDescKey(attackerStats);
    var order := AttackOrder(canAttack, attackerStats);
    RankHas(slots, AnySlot(), key, 2, order);
    assert s in slots;
    var i :| 0 <= i < |slots| && slots[i] == s;
    assert AnySlot()(slots[i]);
    var k :| 0 <= k < |order| && order[k] == Ranked(key(slots[i], i), Entry(slots[i], i));
  }

  lemma AttackOrderSorted(canAttack: nat -> bool, attackerStats: nat -> CombatStats)
    ensures var order := AttackOrder(canAttack, attackerStats);
            forall k, m :: 0 <= k < m < |order| ==>
              attackerStats(order[k].value.item).atk > attackerStats(order[m].value.item).atk
              || (attackerStats(order[k].value.item).atk == attackerStats(order[m].value.item).atk
                  && order[k].value.item <= order[m].value.item)
  {
    var slots := AttackerSlots(canAttack, MaxHeroSlots);
    var key := AtkDescKey(attackerStats);
    var order := AttackOrder(canAttack, attackerStats);
    forall k, m | 0 <= k < m < |order|
      ensures attackerStats(order[k].value.item).atk > attackerStats(order[m].value.item).atk
              || (attackerStats(order[k].value.item).atk == attackerStats(order[m].value.item).atk
                  && order[k].value.item <= order[m].value.item)
    {
      RankPair(slots, AnySlot(), key, 2, order, k, m);
      AtkPairOrdered(order[k].value.item, order[m].value.item, order[k].key, order[m].key, attackerStats);
    }
  }

  lemma AtkPairOrdered(a: nat, b: nat, ka: seq<int>, kb: seq<int>, attackerStats: nat -> CombatStats)
    requires LexLeq(ka, kb) && ka == [-attackerStats(a).atk, a] && kb == [-attackerStats(b).atk, b]
    ensures attackerStats(a).atk > attackerStats(b).atk
            || (attackerStats(a).atk == attackerStats(b).atk && a <= b)
  {
    LexLeqPair(-attackerStats(a).atk, a, -attackerStats(b).atk, b);
  }

  /**
   * No attack when the defender has no hero. Otherwise every slot that can
   * attack attacks once, by highest attack first and lowest slot on ties,
   * each at the defender slot `WeakestDefender` chooses.
   */
  lemma AggressiveAttacksCorrect(defenderHeroes: seq<Option<HeroInstance>>, canAttack: nat -> bool,
                                 attackerStats: nat -> CombatStats, statsOf: HeroInstance -> CombatStats)
    ensures var attacks := AggressiveAttacks(defenderHeroes, canAttack, attackerStats, statsOf);
            var target := WeakestDefender(defenderHeroes, statsOf);
            (!HasHeroes(defenderHeroes) ==> attacks == [])
            && (HasHeroes(defenderHeroes) ==>
                  target.Some?
                  && (forall k :: 0 <= k < |attacks| ==>
                        attacks[k].defenderSlot == target.value.index
                        && attacks[k].attackerSlot < MaxHeroSlots && canAttack(attacks[k].attackerSlot))
                  && (forall s :: 0 <= s < MaxHeroSlots && canAttack(s) ==>
                        exists k :: 0 <= k < |attacks| && attacks[k].attackerSlot == s)
                  && (forall k, m :: 0 <= k < m < |attacks| ==>
                        attackerStats(attacks[k].attackerSlot).atk > attackerStats(attacks[m].attackerSlot).atk
                        || (attackerStats(attacks[k].attackerSlot).atk == attackerStats(attacks[m].attackerSlot).atk
                            && attacks[k].attackerSlot <= attacks[m].attackerSlot)))
  {
    WeakestDefenderCorrect(defenderHeroes, statsOf);
    AttackOrderCorrect(canAttack, attackerStats);
    var attacks := AggressiveAttacks(defenderHeroes, canAttack, attackerStats, statsOf);
    var order := AttackOrder(canAttack, attackerStats);
    if HasHeroes(defenderHeroes) {
      assert forall k :: 0 <= k < |attacks| ==> attacks[k].attackerSlot == order[k].value.item;
      forall s | 0 <= s < MaxHeroSlots && canAttack(s)
        ensures exists k :: 0 <= k < |attacks| && attacks[k].attackerSlot == s
      {
        var k :| 0 <= k < |order| && order[k].value.item == s;
        assert attacks[k].attackerSlot == s;
      }
    }
  }

  // ---------------------------------------------------------------------------
  // Discard tables
  // ---------------------------------------------------------------------------

  /** `AGGRESSIVE_DISCARD_PRIORITY`, 99 for a type the table does not list. */
  function AggressivePriority(t: CardType): int
  {
    match t
    case HealingCard => 0
    case ReactiveCard => 1
    case CounterattackCard => 2
    case ItemCard => 3
    case WeaponCard => 3
    case HeroCard => 4
    case UnknownCard => 99
  }

  /** `CONSERVATIVE_DISCARD_PRIORITY`, 99 for a type the table does not list. */
  function ConservativePriority(t: CardType): int
  {
    match t
    case HeroCard => 0
    case ItemCard => 1
    case WeaponCard => 1
    case CounterattackCard => 2
    case ReactiveCard => 3
    case HealingCard => 4
    case UnknownCard => 99
  }

  /** `pickDiscardCardIdsAggressive`. */
  function PickDiscardCardIdsAggressive(hand: seq<Card>, required: int): seq<string>
  {
    PickDiscardCardIdsBy(AggressivePriority, hand, required)
  }

  /** `pickDiscardCardIdsConservative`. */
  function PickDiscardCardIdsConservative(hand: seq<Card>, required: int): seq<string>
  {
    PickDiscardCardIdsBy(ConservativePriority, hand, required)
  }

  /**
   * The first card a discard drops has the lowest priority of the hand: with
   * a card of `kind` in hand, the first dropped card has a kind of priority
   * at most that of `kind`, and it comes from the hand.
   */
  lemma FirstDiscardLowest(priority: CardType -> int, hand: seq<Card>, required: int, i: nat)
    requires required > 0 && i < |hand|
    ensures var ids := PickDiscardCardIdsBy(priority, hand, required);
            |ids| >= 1
            && exists j :: 0 <= j < |hand| && ids[0] == hand[j].id && priority(hand[j].kind) <= priority(hand[i].kind)
  {
    DiscardRankingCorrect(priority, hand);
    PickDiscardCardIdsCorrect(priority, hand, required);
    var ranking := DiscardRanking(priority, hand);
    var ids := PickDiscardCardIdsBy(priority, hand, required);
    var key := DiscardKey(priority);
    var m :| 0 <= m < |ranking| && ranking[m] == Ranked(key(hand[i], i), Entry(hand[i], i));
    var j := ranking[0].value.index;
    if m > 0 {
      assert DiscardsBefore(priority, ranking[0].value, ranking[m].value);
    }
    assert ids[0] == hand[j].id;
  }

  /** The aggressive bot throws away a healing card first whenever it holds one. */
  lemma AggressiveDiscardsHealingFirst(hand: seq<Card>, required: int, i: nat)
    requires required > 0 && i < |hand| && hand[i].kind == HealingCard
    ensures var ids := PickDiscardCardIdsAggressive(hand, required);
            |ids| >= 1 && exists j :: 0 <= j < |hand| && ids[0] == hand[j].id && hand[j].kind == HealingCard
  {
    FirstDiscardLowest(AggressivePriority, hand, required, i);
  }

  /** The conservative bot throws away a hero card first whenever it holds one. */
  lemma ConservativeDiscardsHeroFirst(hand: seq<Card>, required: int, i: nat)
    requires required > 0 && i < |hand| && hand[i].kind == HeroCard
    ensures var ids := PickDiscardCardIdsConservative(hand, required);
            |ids| >= 1 && exists j :: 0 <= j < |hand| && ids[0] == hand[j].id && hand[j].kind == HeroCard
  {
    FirstDiscardLowest(ConservativePriority, hand, required, i);
  }

  // ---------------------------------------------------------------------------
  // Conservative equip
  // ---------------------------------------------------------------------------

  /** The defence an item card adds. */
  function DefenseOf(c: Card): int
  {
    c.stats.defBonus + c.stats.defModifier
  }

  /** Items by most defence first, then lowest cost, then lowest hand index. */
  function DefenseKey(): (Card, nat) -> seq<int>
  {
    (c: Card, i: nat) => [-DefenseOf(c), c.cost, i]
  }

  function ItemRank(p: PlayerState): seq<Ranked<Entry<Card>>>
  {
    SortByKey(Rank(p.hand, EquipmentFilter(p.resources, ItemCard), DefenseKey()))
  }

  /** The order in which `pickItemEquipPlayConservative` tries the affordable equipment. */
  function ConservativeEquipOrder(p: PlayerState): seq<Entry<Card>>
  {
    Values(CostRank(p, WeaponCard)) + Values(ItemRank(p))
  }

  function ConservativeEquipChoice(p: PlayerState): (r: Option<(nat, nat)>)
    ensures r.Some? ==> r.value.0 < |ConservativeEquipOrder(p)|
  {
    FirstFitFrom(ConservativeEquipOrder(p), p.heroes, 0)
  }

  /** `pickItemEquipPlayConservative`. */
  method PickItemEquipPlayConservative(p: PlayerState) returns (r: Option<CardPlay>)
    ensures r == PlayOf(ConservativeEquipOrder(p), ConservativeEquipChoice(p))
  {
    var all := Rank(p.hand, (c: Card) => AffordableEquipment(c, p.resources), CostDescKey());
    if |all| == 0 {
      RankEmpty(p.hand, (c: Card) => AffordableEquipment(c, p.resources), CostDescKey());
      RankEmpty(p.hand, EquipmentFilter(p.resources, WeaponCard), CostDescKey());
      RankEmpty(p.hand, EquipmentFilter(p.resources, ItemCard), DefenseKey());
      return None;
    }
    var candidates := ConservativeEquipOrder(p);
    r := FirstFitting(candidates, p.heroes);
  }

  /** The item ranking lists each affordable item of the hand once, by defence, then cost, then index. */
  lemma ItemRankCorrect(p: PlayerState)
    ensures var its := ItemRank(p);
            SortedByKey(its)
            && (forall k :: 0 <= k < |its| ==>
                  its[k].value.index < |p.hand| && its[k].value.item == p.hand[its[k].value.index]
                  && AffordableEquipment(its[k].value.item, p.resources) && its[k].value.item.kind == ItemCard
                  && its[k].key == [-DefenseOf(its[k].value.item), its[k].value.item.cost, its[k].value.index])
            && (forall i :: 0 <= i < |p.hand| && AffordableEquipment(p.hand[i], p.resources) && p.hand[i].kind == ItemCard ==>
                  Ranked([-DefenseOf(p.hand[i]), p.hand[i].cost, i], Entry(p.hand[i], i)) in its)
  {
    assert KeyWidth(p.hand, DefenseKey(), 3);
    RankSorted(p.hand, EquipmentFilter(p.resources, ItemCard), DefenseKey(), 3, ItemRank(p));
    ItemRankEntries(p);
    ItemRankComplete(p);
  }

  /** Each entry of the item ranking is an affordable item of the hand at its index, under its defence key. */
  lemma ItemRankEntries(p: PlayerState)
    ensures var its := ItemRank(p);
            forall k :: 0 <= k < |its| ==>
              its[k].value.index < |p.hand| && its[k].value.item == p.hand[its[k].value.index]
              && AffordableEquipment(its[k].value.item, p.resources) && its[k].value.item.kind == ItemCard
              && its[k].key == [-DefenseOf(its[k].value.item), its[k].value.item.cost, its[k].value.index]
  {
    var its := ItemRank(p);
    var keep, key := EquipmentFilter(p.resources, ItemCard), DefenseKey();
    assert KeyWidth(p.hand, key, 3);
    RankKept(p.hand, keep, key, 3, its);
    forall k | 0 <= k < |its|
      ensures its[k].value.index < |p.hand| && its[k].value.item == p.hand[its[k].value.index]
              && AffordableEquipment(its[k].value.item, p.resources) && its[k].value.item.kind == ItemCard
              && its[k].key == [-DefenseOf(its[k].value.item), its[k].value.item.cost, its[k].value.index]
    {
      assert keep(its[k].value.item) && its[k].key == key(its[k].value.item, its[k].value.index);
    }
  }

  /** Every affordable item of the hand is in the item ranking, under its defence key. */
  lemma ItemRankComplete(p: PlayerState)
    ensures forall i :: 0 <= i < |p.hand| && AffordableEquipment(p.hand[i], p.resources) && p.hand[i].kind == ItemCard ==>
              Ranked([-DefenseOf(p.hand[i]), p.hand[i].cost, i], Entry(p.hand[i], i)) in ItemRank(p)
  {
    var its := ItemRank(p);
    var keep, key := EquipmentFilter(p.resources, ItemCard), DefenseKey();
    assert KeyWidth(p.hand, key, 3);
    RankHas(p.hand, keep, key, 3, its);
    forall i | 0 <= i < |p.hand| && AffordableEquipment(p.hand[i], p.resources) && p.hand[i].kind == ItemCard
      ensures Ranked([-DefenseOf(p.hand[i]), p.hand[i].cost, i], Entry(p.hand[i], i)) in its
    {
      assert keep(p.hand[i]) && key(p.hand[i], i) == [-DefenseOf(p.hand[i]), p.hand[i].cost, i];
    }
  }

  /**
   * Since all weapons fit the same slots, and so do all items, the pick is
   * the head of its group: the first weapon, or the first item.
   */
  lemma ConservativeChoiceIsHead(p: PlayerState)
    ensures ConservativeEquipChoice(p).Some? ==>
              var k := ConservativeEquipChoice(p).value.0;
              (k < |CostRank(p, WeaponCard)| ==> k == 0) && (k >= |CostRank(p, WeaponCard)| ==> k == |CostRank(p, WeaponCard)|)
  {
    ConservativeOrderKinds(p);
    FirstFitIsGroupHead(ConservativeEquipOrder(p), |CostRank(p, WeaponCard)|, p.heroes);
  }

  /** The conservative order holds the weapons first, then the items. */
  lemma ConservativeOrderKinds(p: PlayerState)
    ensures var order := ConservativeEquipOrder(p);
            var nw := |CostRank(p, WeaponCard)|;
            nw <= |order|
            && forall k :: 0 <= k < |order| ==> (order[k].item.kind == WeaponCard <==> k < nw)
  {
    CostRankCorrect(p, WeaponCard);
    ItemRankKinds(p);
    forall k | 0 <= k < |ConservativeEquipOrder(p)|
      ensures ConservativeEquipOrder(p)[k].item.kind == WeaponCard <==> k < |CostRank(p, WeaponCard)|
    {
      ValuesConcatAt(CostRank(p, WeaponCard), ItemRank(p), k);
    }
  }

  lemma ItemRankKinds(p: PlayerState)
    ensures forall k :: 0 <= k < |ItemRank(p)| ==> ItemRank(p)[k].value.item.kind == ItemCard
  {
    var keep := EquipmentFilter(p.resources, ItemCard);
    RankKept(p.hand, keep, DefenseKey(), 3, ItemRank(p));
    assert var r := SortByKey(Rank(p.hand, keep, DefenseKey()));
            forall k :: 0 <= k < |r| ==> r[k].value.index < |p.hand|;
    forall k | 0 <= k < |ItemRank(p)|
      ensures ItemRank(p)[k].value.item.kind == ItemCard
    {
      var r := SortByKey(Rank(p.hand, keep, DefenseKey()));
      assert ItemRank(p) == r;
      assert keep(r[k].value.item);
    }
  }

  /** The head of the item ranking has the most defence, then the lowest cost, then the lowest index. */
  lemma ItemHeadStrongest(p: PlayerState)
    requires |ItemRank(p)| > 0
    ensures var e := ItemRank(p)[0].value;
            forall i :: 0 <= i < |p.hand| && AffordableEquipment(p.hand[i], p.resources) && p.hand[i].kind == ItemCard ==>
              LexLeq([-DefenseOf(e.item), e.item.cost, e.index], [-DefenseOf(p.hand[i]), p.hand[i].cost, i])
  {
    ItemRankCorrect(p);
    var its := ItemRank(p);
    forall i | 0 <= i < |p.hand| && AffordableEquipment(p.hand[i], p.resources) && p.hand[i].kind == ItemCard
      ensures LexLeq(its[0].key, [-DefenseOf(p.hand[i]), p.hand[i].cost, i])
    {
      var m :| 0 <= m < |its| && its[m] == Ranked([-DefenseOf(p.hand[i]), p.hand[i].cost, i], Entry(p.hand[i], i));
      if m > 0 {
        assert LexLeq(its[0].key, its[m].key);
      } else {
        LexLeqReflexive(its[0].key);
      }
    }
  }

  /** Every affordable weapon sits in the weapon part of the order. */
  lemma WeaponsComeFirst(p: PlayerState, i: nat)
    requires i < |p.hand| && AffordableEquipment(p.hand[i], p.resources) && p.hand[i].kind == WeaponCard
    ensures exists k :: 0 <= k < |CostRank(p, WeaponCard)| && ConservativeEquipOrder(p)[k] == Entry(p.hand[i], i)
  {
    var ws := CostRank(p, WeaponCard);
    var keep := EquipmentFilter(p.resources, WeaponCard);
    RankHas(p.hand, keep, CostDescKey(), 2, ws);
    assert keep(p.hand[i]);
    var m :| 0 <= m < |ws| && ws[m] == Ranked(CostDescKey()(p.hand[i], i), Entry(p.hand[i], i));
    ValuesConcatAt(ws, ItemRank(p), m);
    assert ConservativeEquipOrder(p)[m] == Entry(p.hand[i], i);
  }

  /** With no pick, no affordable piece of equipment fits any hero. */
  lemma NoConservativeChoice(p: PlayerState, i: nat)
    requires ConservativeEquipChoice(p).None?
    requires i < |p.hand| && AffordableEquipment(p.hand[i], p.resources)
    ensures FitSlotFrom(p.hand[i], p.heroes, 0).None?
  {
    var order := ConservativeEquipOrder(p);
    var nw := |CostRank(p, WeaponCard)|;
    if p.hand[i].kind == WeaponCard {
      WeaponsComeFirst(p, i);
    } else {
      var its := ItemRank(p);
      var keep := EquipmentFilter(p.resources, ItemCard);
      RankHas(p.hand, keep, DefenseKey(), 3, its);
      assert keep(p.hand[i]);
      var m :| 0 <= m < |its| && its[m] == Ranked(DefenseKey()(p.hand[i], i), Entry(p.hand[i], i));
      ValuesConcatAt(CostRank(p, WeaponCard), its, nw + m);
    }
  }

  /**
   * The conservative equip pick: if an affordable weapon fits some hero, the
   * pick is the dearest affordable weapon (earliest on ties) on the first
   * slot that takes it; otherwise, if an affordable item fits, the affordable
   * item with the most defence, then the lowest cost, then the earliest, on
   * the first slot that takes it. No pick means no affordable equipment fits.
   */
  lemma ConservativeEquipChoiceCorrect(p: PlayerState)
    ensures ConservativeEquipChoice(p).Some? ==>
      var (k, slot) := ConservativeEquipChoice(p).value;
      var e := ConservativeEquipOrder(p)[k];
      e.index < |p.hand| && e.item == p.hand[e.index] && AffordableEquipment(e.item, p.resources)
      && FitSlotFrom(e.item, p.heroes, 0) == Some(slot)
      && (e.item.kind == WeaponCard ==>
            forall i :: 0 <= i < |p.hand| && AffordableEquipment(p.hand[i], p.resources) && p.hand[i].kind == WeaponCard ==>
              e.item.cost > p.hand[i].cost || (e.item.cost == p.hand[i].cost && e.index <= i))
      && (e.item.kind == ItemCard ==>
            (forall i :: 0 <= i < |p.hand| && AffordableEquipment(p.hand[i], p.resources) && p.hand[i].kind == WeaponCard ==>
               FitSlotFrom(p.hand[i], p.heroes, 0).None?)
            && (forall i :: 0 <= i < |p.hand| && AffordableEquipment(p.hand[i], p.resources) && p.hand[i].kind == ItemCard ==>
                  LexLeq([-DefenseOf(e.item), e.item.cost, e.index], [-DefenseOf(p.hand[i]), p.hand[i].cost, i])))
    ensures ConservativeEquipChoice(p).None? ==>
      forall i :: 0 <= i < |p.hand| && AffordableEquipment(p.hand[i], p.resources) ==>
        FitSlotFrom(p.hand[i], p.heroes, 0).None?
  {
    if ConservativeEquipChoice(p).None? {
      forall i | 0 <= i < |p.hand| && AffordableEquipment(p.hand[i], p.resources)
        ensures FitSlotFrom(p.hand[i], p.heroes, 0).None?
      {
        NoConservativeChoice(p, i);
      }
    } else {
      ConservativeChoiceMade(p);
    }
  }

  lemma ConservativeChoiceMade(p: PlayerState)
    requires ConservativeEquipChoice(p).Some?
    ensures var (k, slot) := ConservativeEquipChoice(p).value;
      var e := ConservativeEquipOrder(p)[k];
      e.index < |p.hand| && e.item == p.hand[e.index] && AffordableEquipment(e.item, p.resources)
      && FitSlotFrom(e.item, p.heroes, 0) == Some(slot)
      && (e.item.kind == WeaponCard ==>
            forall i :: 0 <= i < |p.hand| && AffordableEquipment(p.hand[i], p.resources) && p.hand[i].kind == WeaponCard ==>
              e.item.cost > p.hand[i].cost || (e.item.cost == p.hand[i].cost && e.index <= i))
      && (e.item.kind == ItemCard ==>
            (forall i :: 0 <= i < |p.hand| && AffordableEquipment(p.hand[i], p.resources) && p.hand[i].kind == WeaponCard ==>
               FitSlotFrom(p.hand[i], p.heroes, 0).None?)
            && (forall i :: 0 <= i < |p.hand| && AffordableEquipment(p.hand[i], p.resources) && p.hand[i].kind == ItemCard ==>
                  LexLeq([-DefenseOf(e.item), e.item.cost, e.index], [-DefenseOf(p.hand[i]), p.hand[i].cost, i])))
  {
    if ConservativeEquipChoice(p).value.0 < |CostRank(p, WeaponCard)| {
      WeaponChoiceMade(p);
    } else {
      ItemChoiceMade(p);
      ItemChoiceNoWeapon(p);
    }
  }

  /** A weapon pick is the head of the weapon ranking: the dearest affordable weapon. */
  lemma WeaponChoiceMade(p: PlayerState)
    requires ConservativeEquipChoice(p).Some?
    requires ConservativeEquipChoice(p).value.0 < |CostRank(p, WeaponCard)|
    ensures var e := ConservativeEquipOrder(p)[ConservativeEquipChoice(p).value.0];
      e.index < |p.hand| && e.item == p.hand[e.index] && AffordableEquipment(e.item, p.resources)
      && e.item.kind == WeaponCard
      && forall i :: 0 <= i < |p.hand| && AffordableEquipment(p.hand[i], p.resources) && p.hand[i].kind == WeaponCard ==>
           e.item.cost > p.hand[i].cost || (e.item.cost == p.hand[i].cost && e.index <= i)
  {
    var order := ConservativeEquipOrder(p);
    ConservativeChoiceIsHead(p);
    ValuesConcatAt(CostRank(p, WeaponCard), ItemRank(p), 0);
    CostRankCorrect(p, WeaponCard);
    CostHeadDearest(p, WeaponCard);
  }

  /** An item is picked only when no affordable weapon fits, and it is the head of the item ranking. */
  lemma ItemChoiceMade(p: PlayerState)
    requires ConservativeEquipChoice(p).Some?
    requires ConservativeEquipChoice(p).value.0 >= |CostRank(p, WeaponCard)|
    ensures var e := ConservativeEquipOrder(p)[ConservativeEquipChoice(p).value.0];
      e.index < |p.hand| && e.item == p.hand[e.index] && AffordableEquipment(e.item, p.resources)
      && e.item.kind == ItemCard
      && (forall i :: 0 <= i < |p.hand| && AffordableEquipment(p.hand[i], p.resources) && p.hand[i].kind == ItemCard ==>
            LexLeq([-DefenseOf(e.item), e.item.cost, e.index], [-DefenseOf(p.hand[i]), p.hand[i].cost, i]))
  {
    var order := ConservativeEquipOrder(p);
    var nw := |CostRank(p, WeaponCard)|;
    ConservativeChoiceIsHead(p);
    ValuesConcatAt(CostRank(p, WeaponCard), ItemRank(p), nw);
    ItemRankCorrect(p);
    ItemHeadStrongest(p);
  }

  /** An item is picked only when no affordable weapon fits any hero. */
  lemma ItemChoiceNoWeapon(p: PlayerState)
    requires ConservativeEquipChoice(p).Some?
    requires ConservativeEquipChoice(p).value.0 >= |CostRank(p, WeaponCard)|
    ensures forall i :: 0 <= i < |p.hand| && AffordableEquipment(p.hand[i], p.resources) && p.hand[i].kind == WeaponCard ==>
              FitSlotFrom(p.hand[i], p.heroes, 0).None?
  {
    forall i | 0 <= i < |p.hand| && AffordableEquipment(p.hand[i], p.resources) && p.hand[i].kind == WeaponCard
      ensures FitSlotFrom(p.hand[i], p.heroes, 0).None?
    {
      WeaponsComeFirst(p, i);
    }
  }

  // ---------------------------------------------------------------------------
  // Conservative healing
  // ---------------------------------------------------------------------------

  /** A hero the conservative bot could heal: slot, missing HP and whether it is at 2 HP or less. */
  datatype CareTarget = CareTarget(slot: nat, missingHp: int, lowHpWeight: int)

  /** The candidate in slot `s`: an occupied slot missing some HP. */
  function CandidateAt(heroes: seq<Option<HeroInstance>>, statsOf: HeroInstance -> CombatStats, s: nat)
    : (c: Option<CareTarget>)
    requires s < |heroes|
    ensures c.Some? ==> heroes[s].Some? && c.value.slot == s && c.value.missingHp > 0
                        && (c.value.lowHpWeight == 1 <==> statsOf(heroes[s].value).hp <= 2)
                        && (c.value.lowHpWeight == 0 || c.value.lowHpWeight == 1)
    ensures c.None? <==> heroes[s].None? || MissingHp(statsOf(heroes[s].value)) <= 0
  {
    match heroes[s]
    case None => None
    case Some(hero) =>
      var stats := statsOf(hero);
      var missingHp := MissingHp(stats);
      if missingHp <= 0 then None
      else Some(CareTarget(s, missingHp, if stats.hp <= 2 then 1 else 0))
  }

  /** The update rule of the running best: weight first, then missing HP, then a lower slot. */
  predicate Prefers(c: CareTarget, b: CareTarget)
  {
    if c.lowHpWeight != b.lowHpWeight then c.lowHpWeight > b.lowHpWeight
    else if c.missingHp != b.missingHp then c.missingHp > b.missingHp
    else c.slot < b.slot
  }

  /** The running best after the first `n` slots. */
  function CareBest(heroes: seq<Option<HeroInstance>>, statsOf: HeroInstance -> CombatStats, n: nat): Option<CareTarget>
    requires n <= |heroes|
    decreases n
  {
    if n == 0 then None
    else
      var best := CareBest(heroes, statsOf, n - 1);
      match CandidateAt(heroes, statsOf, n - 1)
      case None => best
      case Some(c) => if best.None? || Prefers(c, best.value) then Some(c) else best
  }

  /** `b` ranks at least as high as `c`: higher weight, or equal and more missing HP, or both equal and a lower slot. */
  predicate Dominates(b: CareTarget, c: CareTarget)
  {
    b.lowHpWeight > c.lowHpWeight
    || (b.lowHpWeight == c.lowHpWeight && (b.missingHp > c.missingHp || (b.missingHp == c.missingHp && b.slot <= c.slot)))
  }

  /**
   * The running best is a candidate of the first `n` slots and ranks at
   * least as high as each of them; there is none only when no such slot
   * holds a hero missing HP.
   */
  lemma {:induction false} CareBestCorrect(heroes: seq<Option<HeroInstance>>, statsOf: HeroInstance -> CombatStats, n: nat)
    requires n <= |heroes|
    ensures CareBest(heroes, statsOf, n).None? <==> forall s :: 0 <= s < n ==> CandidateAt(heroes, statsOf, s).None?
    ensures CareBest(heroes, statsOf, n).Some? ==>
      var b := CareBest(heroes, statsOf, n).value;
      b.slot < n && CandidateAt(heroes, statsOf, b.slot) == Some(b)
      && forall s :: 0 <= s < n && CandidateAt(heroes, statsOf, s).Some? ==> Dominates(b, CandidateAt(heroes, statsOf, s).value)
    decreases n
  {
    if n > 0 {
      CareBestCorrect(heroes, statsOf, n - 1);
    }
  }

  /** The specification of `pickHealingRecruitPlayConservative`. */
  function ConservativeHealingPlay(p: PlayerState, statsOf: HeroInstance -> CombatStats): Option<CardPlay>
  {
    match Best(p.hand, HealingFilter(p.resources), CostAscKey())
    case None => None
    case Some(card) =>
      match CareBest(p.heroes, statsOf, |p.heroes|)
      case None => None
      case Some(t) => Some(CardPlay(card.item.id, t.slot))
  }

  /** `pickHealingRecruitPlayConservative`, with its running best target. */
  method PickHealingRecruitPlayConservative(p: PlayerState, statsOf: HeroInstance -> CombatStats)
    returns (r: Option<CardPlay>)
    ensures r == ConservativeHealingPlay(p, statsOf)
  {
    var healingCards := Best(p.hand, HealingFilter(p.resources), CostAscKey());
    if healingCards.None? {
      return None;
    }
    var bestTarget: Option<CareTarget> := None;
    var slot := 0;
    while slot < |p.heroes|
      invariant 0 <= slot <= |p.heroes|
      invariant bestTarget == CareBest(p.heroes, statsOf, slot)
    {
      var candidate := CandidateAt(p.heroes, statsOf, slot);
      if candidate.None? {
        slot := slot + 1;
        continue;
      }
      var c := candidate.value;
      if bestTarget.None? {
        bestTarget := candidate;
        slot := slot + 1;
        continue;
      }
      var b := bestTarget.value;
      if c.lowHpWeight != b.lowHpWeight {
        if c.lowHpWeight > b.lowHpWeight {
          bestTarget := candidate;
        }
        slot := slot + 1;
        continue;
      }
      if c.missingHp != b.missingHp {
        if c.missingHp > b.missingHp {
          bestTarget := candidate;
        }
        slot := slot + 1;
        continue;
      }
      if c.slot < b.slot {
        bestTarget := candidate;
      }
      slot := slot + 1;
    }
    if bestTarget.None? {
      return None;
    }
    return Some(CardPlay(healingCards.value.item.id, bestTarget.value.slot));
  }

  /**
   * A conservative healing play needs an affordable healing card and a hero
   * missing HP; it uses the cheapest card (earliest on ties) on a hero at
   * 2 HP or less if there is one, then on the most missing HP, then on the
   * lowest slot.
   */
  lemma ConservativeHealingPlayCorrect(p: PlayerState, statsOf: HeroInstance -> CombatStats)
    ensures var card := Best(p.hand, HealingFilter(p.resources), CostAscKey());
            (ConservativeHealingPlay(p, statsOf).None? <==>
               (forall i :: 0 <= i < |p.hand| ==> !AffordableHealing(p.hand[i], p.resources))
               || forall s :: 0 <= s < |p.heroes| ==> CandidateAt(p.heroes, statsOf, s).None?)
            && (ConservativeHealingPlay(p, statsOf).Some? ==>
                 var t := CareBest(p.heroes, statsOf, |p.heroes|).value;
                 ConservativeHealingPlay(p, statsOf).value == CardPlay(card.value.item.id, t.slot)
                 && CheapestHealing(p, card.value)
                 && t.slot < |p.heroes| && CandidateAt(p.heroes, statsOf, t.slot) == Some(t)
                 && forall s :: 0 <= s < |p.heroes| && CandidateAt(p.heroes, statsOf, s).Some? ==>
                      Dominates(t, CandidateAt(p.heroes, statsOf, s).value))
  {
    HealingCardCorrect(p);
    CareBestCorrect(p.heroes, statsOf, |p.heroes|);
  }

  // ---------------------------------------------------------------------------
  // Conservative attacks
  // ---------------------------------------------------------------------------

  /**
   * A hero healthy enough to attack: more than 2 HP and more than 34% of its
   * maximum (taken as at least 1). The ratio test `hp / maxHp <= 0.34` is
   * stated on integers as `100 * hp <= 34 * maxHp`.
   */
  predicate Steady(s: CombatStats)
  {
    var maxHp := if s.maxHp >= 1 then s.maxHp else 1;
    !(s.hp <= 2 || 100 * s.hp <= 34 * maxHp)
  }

  function SteadyAttacker(canAttack: nat -> bool, attackerStats: nat -> CombatStats): nat -> bool
  {
    (s: nat) => canAttack(s) && Steady(attackerStats(s))
  }

  /** The specification of `pickAttacksConservative`: the steady attackers, or else the baseline's attacks. */
  function ConservativeAttacks(defenderHeroes: seq<Option<HeroInstance>>, canAttack: nat -> bool,
                               attackerStats: nat -> CombatStats): seq<Attack>
  {
    var own := BaselineAttacks(defenderHeroes, SteadyAttacker(canAttack, attackerStats));
    if own != [] then own else BaselineAttacks(defenderHeroes, canAttack)
  }

  /** `pickAttacksConservative`. */
  method PickAttacksConservative(defenderHeroes: seq<Option<HeroInstance>>, canAttack: nat -> bool,
                                 attackerStats: nat -> CombatStats)
    returns (attacks: seq<Attack>)
    ensures attacks == ConservativeAttacks(defenderHeroes, canAttack, attackerStats)
  {
    var steady := SteadyAttacker(canAttack, attackerStats);
    attacks := [];
    var attackerSlot := 0;
    while attackerSlot < MaxHeroSlots
      invariant 0 <= attackerSlot <= MaxHeroSlots
      invariant attacks == AttacksUpTo(defenderHeroes, steady, attackerSlot)
      invariant FirstOccupiedSlot(defenderHeroes).None? ==> attacks == []
    {
      if FirstOccupiedSlot(defenderHeroes).Some? {
        AttacksUpToStep(defenderHeroes, steady, attackerSlot);
      }
      var stats := attackerStats(attackerSlot);
      var hp := stats.hp;
      var maxHp := if stats.maxHp >= 1 then stats.maxHp else 1;
      assert steady(attackerSlot) <==> canAttack(attackerSlot) && !(hp <= 2 || 100 * hp <= 34 * maxHp);
      if canAttack(attackerSlot) && !(hp <= 2 || 100 * hp <= 34 * maxHp) {
        var defenderSlot := FirstOccupiedSlot(defenderHeroes);
        if defenderSlot.None? {
          break;
        }
        attacks := attacks + [Attack(attackerSlot, defenderSlot.value)];
      }
      attackerSlot := attackerSlot + 1;
    }
    if |attacks| > 0 {
      return;
    }
    attacks := PickAttacks(defenderHeroes, canAttack);
  }

  /**
   * With a defender hero and a steady attacker, exactly the steady attackers
   * attack, in ascending slot order, at the first occupied defender slot;
   * otherwise the conservative bot falls back to the baseline's attacks, so
   * that weak heroes do attack when no steady one can.
   */
  lemma ConservativeAttacksCorrect(defenderHeroes: seq<Option<HeroInstance>>, canAttack: nat -> bool,
                                   attackerStats: nat -> CombatStats)
    ensures var attacks := ConservativeAttacks(defenderHeroes, canAttack, attackerStats);
            var steady := SteadyAttacker(canAttack, attackerStats);
            if HasHeroes(defenderHeroes) && exists s :: 0 <= s < MaxHeroSlots && steady(s) then
              (forall k :: 0 <= k < |attacks| ==>
                 attacks[k].attackerSlot < MaxHeroSlots && canAttack(attacks[k].attackerSlot)
                 && Steady(attackerStats(attacks[k].attackerSlot))
                 && attacks[k].defenderSlot == FirstOccupiedSlot(defenderHeroes).value)
              && (forall s :: 0 <= s < MaxHeroSlots && steady(s) ==>
                    exists k :: 0 <= k < |attacks| && attacks[k].attackerSlot == s)
              && (forall k, m :: 0 <= k < m < |attacks| ==> attacks[k].attackerSlot < attacks[m].attackerSlot)
            else attacks == BaselineAttacks(defenderHeroes, canAttack)
  {
    var steady := SteadyAttacker(canAttack, attackerStats);
    BaselineAttacksCorrect(defenderHeroes, steady);
  }

  // ---------------------------------------------------------------------------
  // The profile table and its lookup
  // ---------------------------------------------------------------------------

  /** The three entries of `BOT_PROFILES`. */
  datatype ProfileKey = Baseline | Aggressive | Conservative

  /** The `key` of a profile. */
  function KeyName(k: ProfileKey): string
  {
    match k
    case Baseline => "baseline"
    case Aggressive => "aggressive"
    case Conservative => "conservative"
  }

  /** The discard table a profile uses. */
  function DiscardPriorityOf(k: ProfileKey): CardType -> int
  {
    match k
    case Baseline => BaselinePriority
    case Aggressive => AggressivePriority
    case Conservative => ConservativePriority
  }

  /** The hero recruit picker a profile uses: the conservative profile keeps the baseline's. */
  function ProfileHeroRecruitPlay(k: ProfileKey, p: PlayerState, recruitCost: int -> int): Option<CardPlay>
  {
    if k == Aggressive then PickHeroRecruitPlayAggressive(p, recruitCost) else PickHeroRecruitPlay(p, recruitCost)
  }

  /**
   * The characters `String.prototype.trim` strips: the ECMAScript white
   * space and line terminators.
   */
  predicate IsJsSpace(c: char)
  {
    var v := c as int;
    v == 0x09 || v == 0x0A || v == 0x0B || v == 0x0C || v == 0x0D || v == 0x20 || v == 0xA0
    || v == 0x1680 || (0x2000 <= v <= 0x200A) || v == 0x2028 || v == 0x2029 || v == 0x202F
    || v == 0x205F || v == 0x3000 || v == 0xFEFF
  }

  function TrimStart(s: string): (r: string)
    ensures |r| <= |s| && (r != [] ==> !IsJsSpace(r[0]))
    ensures r == s[|s| - |r|..]
    decreases |s|
  {
    if s != [] && IsJsSpace(s[0]) then TrimStart(s[1..]) else s
  }

  function TrimEnd(s: string): (r: string)
    ensures |r| <= |s| && (r != [] ==> !IsJsSpace(r[|r| - 1]))
    ensures r == s[..|r|]
    decreases |s|
  {
    if s != [] && IsJsSpace(s[|s| - 1]) then TrimEnd(s[..|s| - 1]) else s
  }

  /** `trim()`: the string without leading and trailing white space. */
  function Trim(s: string): (r: string)
    ensures r != [] ==> !IsJsSpace(r[0]) && !IsJsSpace(r[|r| - 1])
  {
    TrimEnd(TrimStart(s))
  }

  function LowerChar(c: char): char
  {
    if 'A' <= c <= 'Z' then ((c as int) + 32) as char else c
  }

  /** `toLowerCase()` on the Latin letters; other characters are kept. */
  function Lower(s: string): (r: string)
    ensures |r| == |s|
    ensures forall i :: 0 <= i < |s| ==> r[i] == LowerChar(s[i])
  {
    seq(|s|, i requires 0 <= i < |s| => LowerChar(s[i]))
  }

  /**
   * The normalised profile name: a missing or empty name is `'baseline'`;
   * any other is trimmed and lower-cased.
   */
  function NormalizeName(name: Option<string>): string
  {
    Lower(Trim(DefaultedName(name)))
  }

  /** `profileName || 'baseline'` for a string or a missing name. */
  function DefaultedName(name: Option<string>): string
  {
    if name.None? || name.value == "" then "baseline" else name.value
  }

  function KeyOfName(n: string): Option<ProfileKey>
  {
    if n == "baseline" then Some(Baseline)
    else if n == "aggressive" then Some(Aggressive)
    else if n == "conservative" then Some(Conservative)
    else None
  }

  /** What `BOT_PROFILES[normalized]` finds: an own profile, or a member every object inherits. */
  datatype Found = ProfileEntry(key: ProfileKey) | InheritedMember(name: string)

  /** The lower-case names an object inherits from `Object.prototype`. */
  predicate Inherited(n: string)
  {
    n == "constructor" || n == "__proto__"
  }

  /** `resolveBotProfile` as written: the property lookup also finds inherited members. */
  function ResolveBotProfileAsWritten(name: Option<string>): Option<Found>
  {
    var n := NormalizeName(name);
    match KeyOfName(n)
    case Some(k) => Some(ProfileEntry(k))
    case None => if Inherited(n) then Some(InheritedMember(n)) else None
  }

  /** `resolveBotProfile` restricted to the table's own keys. */
  function ResolveBotProfile(name: Option<string>): Option<ProfileKey>
  {
    KeyOfName(NormalizeName(name))
  }

  /**
   * A name resolves to a profile exactly when its normalised form is that
   * profile's key, and a missing or empty name resolves to the baseline.
   */
  lemma ResolveBotProfileCorrect(name: Option<string>)
    ensures forall k :: ResolveBotProfile(name) == Some(k) <==> NormalizeName(name) == KeyName(k)
    ensures name.None? || name == Some("") ==> ResolveBotProfile(name) == Some(Baseline)
  {
    forall k
      ensures ResolveBotProfile(name) == Some(k) <==> NormalizeName(name) == KeyName(k)
    {
      KeyOfNameInverse(NormalizeName(name), k);
    }
    if name.None? || name == Some("") {
      assert NormalizeName(name) == "baseline" by {
        assert DefaultedName(name) == "baseline";
        BaselineIsNormal("baseline");
      }
    }
  }

  /** `KeyOfName` and `KeyName` are inverse. */
  lemma KeyOfNameInverse(n: string, k: ProfileKey)
    ensures KeyOfName(n) == Some(k) <==> n == KeyName(k)
  {
    match k {
      case Baseline =>
      case Aggressive => assert |KeyName(k)| == 10;
      case Conservative => assert |KeyName(k)| == 12;
    }
  }

  lemma BaselineIsNormal(n: string)
    requires n == "baseline"
    ensures Lower(Trim(n)) == n
  {
    AlreadyNormal(n);
  }

  /**
   * The lookup as written agrees with the table's own keys on every name
   * whose normal form is not an inherited member, and finds a member that
   * is not a profile for the two that are: `resolveBotProfile("constructor")`
   * returns a value, but not a profile.
   */
  lemma ResolveAsWrittenFindsInherited(name: Option<string>)
    ensures !Inherited(NormalizeName(name)) ==>
              match ResolveBotProfile(name)
              case None => ResolveBotProfileAsWritten(name).None?
              case Some(k) => ResolveBotProfileAsWritten(name) == Some(ProfileEntry(k))
    ensures Inherited(NormalizeName(name)) ==>
              ResolveBotProfile(name).None? && ResolveBotProfileAsWritten(name) == Some(InheritedMember(NormalizeName(name)))
  {
    if NormalizeName(name) == "constructor" {
      ConstructorIsNormal("constructor");
    } else if NormalizeName(name) == "__proto__" {
      ProtoIsNormal("__proto__");
    }
  }

  /** The lookup as written on the name "constructor" itself. */
  lemma ResolveConstructorAsWritten(n: string)
    requires n == "constructor"
    ensures ResolveBotProfileAsWritten(Some(n)) == Some(InheritedMember(n))
    ensures ResolveBotProfile(Some(n)).None?
  {
    ConstructorIsNormal(n);
  }

  lemma ConstructorIsNormal(n: string)
    requires n == "constructor"
    ensures NormalizeName(Some(n)) == n && KeyOfName(n) == None
  {
    assert NormalizeName(Some(n)) == n by {
      AlreadyNormal(n);
      assert DefaultedName(Some(n)) == n;
    }
    assert KeyOfName(n) == None by {
      assert |n| == 11;
    }
  }

  lemma ProtoIsNormal(n: string)
    requires n == "__proto__"
    ensures NormalizeName(Some(n)) == n && KeyOfName(n) == None
  {
    assert NormalizeName(Some(n)) == n by {
      AlreadyNormal(n);
      assert DefaultedName(Some(n)) == n;
    }
    assert KeyOfName(n) == None by {
      assert |n| == 9;
    }
  }

  /** Every profile is found under its own key, whatever the surrounding spaces and the case of its letters. */
  lemma ResolveKeyName(k: ProfileKey, pad: string)
    requires forall i :: 0 <= i < |pad| ==> IsJsSpace(pad[i])
    ensures ResolveBotProfile(Some(pad + KeyName(k) + pad)) == Some(k)
  {
    KeyNameIsNormal(k);
    TrimPadded(pad, KeyName(k));
    assert pad + KeyName(k) + pad != "";
  }

  lemma KeyNameIsNormal(k: ProfileKey)
    ensures var n := KeyName(k);
            n != [] && !IsJsSpace(n[0]) && !IsJsSpace(n[|n| - 1]) && Lower(n) == n && KeyOfName(n) == Some(k)
  {
    var n := KeyName(k);
    KeyOfNameInverse(n, k);
    KeyNameLetters(k);
    assert !IsJsSpace(n[0]) && !IsJsSpace(n[|n| - 1]);
    AlreadyNormal(n);
  }

  lemma KeyNameLetters(k: ProfileKey)
    ensures |KeyName(k)| >= 8 && forall i :: 0 <= i < |KeyName(k)| ==> 'a' <= KeyName(k)[i] <= 'z'
  {
  }

  /** A name with no surrounding white space and no capital letter is its own normal form. */
  lemma AlreadyNormal(s: string)
    requires s != [] && !IsJsSpace(s[0]) && !IsJsSpace(s[|s| - 1])
    requires forall i :: 0 <= i < |s| ==> !('A' <= s[i] <= 'Z')
    ensures Trim(s) == s && Lower(s) == s
  {
    assert TrimStart(s) == s;
    assert TrimEnd(s) == s;
  }

  /** Trimming removes exactly the white space around a word that neither starts nor ends with it. */
  lemma TrimPadded(pad: string, w: string)
    requires forall i :: 0 <= i < |pad| ==> IsJsSpace(pad[i])
    requires w != [] && !IsJsSpace(w[0]) && !IsJsSpace(w[|w| - 1])
    ensures Trim(pad + w + pad) == w
  {
    TrimStartPadded(pad, w + pad);
    assert pad + w + pad == pad + (w + pad);
    TrimEndPadded(w, pad);
  }

  lemma {:induction false} TrimStartPadded(pad: string, s: string)
    requires forall i :: 0 <= i < |pad| ==> IsJsSpace(pad[i])
    requires s != [] && !IsJsSpace(s[0])
    ensures TrimStart(pad + s) == s
    decreases |pad|
  {
    if pad != [] {
      assert (pad + s)[1..] == pad[1..] + s;
      TrimStartPadded(pad[1..], s);
    }
  }

  lemma {:induction false} TrimEndPadded(s: string, pad: string)
    requires forall i :: 0 <= i < |pad| ==> IsJsSpace(pad[i])
    requires s != [] && !IsJsSpace(s[|s| - 1])
    ensures TrimEnd(s + pad) == s
    decreases |pad|
  {
    if pad != [] {
      assert (s + pad)[..|s + pad| - 1] == s + pad[..|pad| - 1];
      TrimEndPadded(s, pad[..|pad| - 1]);
    } else {
      assert s + pad == s;
    }
  }
}
