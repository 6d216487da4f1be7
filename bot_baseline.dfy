/**
 * The baseline bot (scripts/lib/botBaseline.js): decision functions over a
 * player's hand and board. Each picker filters the hand (or the slots),
 * orders the survivors by an explicit chain of tie-breaks, and takes the first
 * (or the first few). The engine drives its players with this bot.
 *
 * Callbacks the source receives (the recruit cost, whether a slot can attack,
 * a hero's combat stats) are function parameters here.
 */
module BotBaseline {
  import opened Wrappers
  import opened SimRules
  import opened Ranking

  /** `{ cardId, slotIndex }`: a card to play onto a hero slot. */
  datatype CardPlay = CardPlay(cardId: string, slot: nat)

  // ---------------------------------------------------------------------------
  // Hero recruit
  // ---------------------------------------------------------------------------

  predicate AffordableHero(c: Card, resources: int, recruitCost: int -> int)
  {
    c.kind == HeroCard && resources >= recruitCost(c.cost)
  }

  function HeroFilter(resources: int, recruitCost: int -> int): Card -> bool
  {
    (c: Card) => AffordableHero(c, resources, recruitCost)
  }

  /** Cheapest recruit cost first, then lowest hand index. */
  function CheapestRecruitKey(recruitCost: int -> int): (Card, nat) -> seq<int>
  {
    (c: Card, i: nat) => [recruitCost(c.cost), i]
  }

  /** The hero card `pickHeroRecruitPlay` chooses, with its hand index. */
  function HeroChoice(p: PlayerState, recruitCost: int -> int): Option<Entry<Card>>
  {
    Best(p.hand, HeroFilter(p.resources, recruitCost), CheapestRecruitKey(recruitCost))
  }

  /** `pickHeroRecruitPlay`: the chosen hero card into the first empty slot. */
  function PickHeroRecruitPlay(p: PlayerState, recruitCost: int -> int): Option<CardPlay>
  {
    match FirstEmptySlot(p.heroes)
    case None => None
    case Some(slot) =>
      match HeroChoice(p, recruitCost)
      case None => None
      case Some(e) => Some(CardPlay(e.item.id, slot))
  }

  /**
   * No play without an empty slot and an affordable hero; otherwise the first
   * empty slot and the affordable hero of least recruit cost, the earliest on ties.
   */
  lemma PickHeroRecruitPlayCorrect(p: PlayerState, recruitCost: int -> int)
    ensures PickHeroRecruitPlay(p, recruitCost).None? <==>
      FirstEmptySlot(p.heroes).None?
      || forall i :: 0 <= i < |p.hand| ==> !AffordableHero(p.hand[i], p.resources, recruitCost)
    ensures PickHeroRecruitPlay(p, recruitCost).Some? ==>
      var play := PickHeroRecruitPlay(p, recruitCost).value;
      var e := HeroChoice(p, recruitCost).value;
      play == CardPlay(e.item.id, FirstEmptySlot(p.heroes).value)
      && e.index < |p.hand| && p.hand[e.index] == e.item && AffordableHero(e.item, p.resources, recruitCost)
      && forall j :: 0 <= j < |p.hand| && AffordableHero(p.hand[j], p.resources, recruitCost) ==>
           recruitCost(e.item.cost) < recruitCost(p.hand[j].cost)
           || (recruitCost(e.item.cost) == recruitCost(p.hand[j].cost) && e.index <= j)
  {
    var keep := HeroFilter(p.resources, recruitCost);
    var key := CheapestRecruitKey(recruitCost);
    BestCorrect(p.hand, keep, key, 2);
    if HeroChoice(p, recruitCost).Some? {
      var e := HeroChoice(p, recruitCost).value;
      forall j | 0 <= j < |p.hand| && AffordableHero(p.hand[j], p.resources, recruitCost)
        ensures recruitCost(e.item.cost) < recruitCost(p.hand[j].cost)
                || (recruitCost(e.item.cost) == recruitCost(p.hand[j].cost) && e.index <= j)
      {
        assert keep(p.hand[j]);
        LexLeqPair(recruitCost(e.item.cost), e.index, recruitCost(p.hand[j].cost), j);
      }
    }
  }

  // ---------------------------------------------------------------------------
  // Item equip
  // ---------------------------------------------------------------------------

  /** Weapons among a hero's equipped items. */
  function WeaponCount(items: seq<ItemInstance>): (n: nat)
    ensures n <= |items|
    decreases |items|
  {
    if items == [] then 0 else (if items[0].card.kind == WeaponCard then 1 else 0) + WeaponCount(items[1..])
  }

  /** A slot can take the card: a hero with fewer than three items and, for a weapon, no weapon yet. */
  predicate Fits(card: Card, slot: Option<HeroInstance>)
  {
    slot.Some? && |slot.value.items| < MaxItemsPerHero
    && (card.kind == WeaponCard ==> WeaponCount(slot.value.items) == 0)
  }

  /** The first slot from `from` on that fits the card. */
  function FitSlotFrom(card: Card, heroes: seq<Option<HeroInstance>>, from: nat): (r: Option<nat>)
    requires from <= |heroes|
    ensures r.Some? ==> from <= r.value < |heroes| && Fits(card, heroes[r.value])
                        && forall t :: from <= t < r.value ==> !Fits(card, heroes[t])
    ensures r.None? <==> forall t :: from <= t < |heroes| ==> !Fits(card, heroes[t])
    decreases |heroes| - from
  {
    if from == |heroes| then None
    else if Fits(card, heroes[from]) then Some(from)
    else FitSlotFrom(card, heroes, from + 1)
  }

  /** The first candidate, from position `from` on, that fits some slot: its position and that slot. */
  function FirstFitFrom(cands: seq<Entry<Card>>, heroes: seq<Option<HeroInstance>>, from: nat): (r: Option<(nat, nat)>)
    requires from <= |cands|
    ensures r.Some? ==> from <= r.value.0 < |cands| && FitSlotFrom(cands[r.value.0].item, heroes, 0) == Some(r.value.1)
                        && forall k :: from <= k < r.value.0 ==> FitSlotFrom(cands[k].item, heroes, 0).None?
    ensures r.None? <==> forall k :: from <= k < |cands| ==> FitSlotFrom(cands[k].item, heroes, 0).None?
    decreases |cands| - from
  {
    if from == |cands| then None
    else
      var fit := FitSlotFrom(cands[from].item, heroes, 0);
      if fit.Some? then Some((from, fit.value)) else FirstFitFrom(cands, heroes, from + 1)
  }

  function PlayOf(cands: seq<Entry<Card>>, fit: Option<(nat, nat)>): Option<CardPlay>
    requires fit.Some? ==> fit.value.0 < |cands|
  {
    match fit
    case None => None
    case Some((k, slot)) => Some(CardPlay(cands[k].item.id, slot))
  }

  /**
   * The nested loop of `pickItemEquipPlay`: candidates in order, slots in
   * order, the first pair that fits.
   */
  method FirstFitting(cands: seq<Entry<Card>>, heroes: seq<Option<HeroInstance>>) returns (r: Option<CardPlay>)
    ensures r == PlayOf(cands, FirstFitFrom(cands, heroes, 0))
  {
    var c := 0;
    while c < |cands|
      invariant 0 <= c <= |cands|
      invariant FirstFitFrom(cands, heroes, 0) == FirstFitFrom(cands, heroes, c)
    {
      var choice := cands[c];
      var slot := 0;
      while slot < |heroes|
        invariant 0 <= slot <= |heroes|
        invariant FitSlotFrom(choice.item, heroes, 0) == FitSlotFrom(choice.item, heroes, slot)
      {
        var hero := heroes[slot];
        if hero.Some? && |hero.value.items| < MaxItemsPerHero
           && (choice.item.kind == WeaponCard ==> WeaponCount(hero.value.items) < 1) {
          return Some(CardPlay(choice.item.id, slot));
        }
        slot := slot + 1;
      }
      c := c + 1;
    }
    return None;
  }

  predicate AffordableEquipment(c: Card, resources: int)
  {
    (c.kind == ItemCard || c.kind == WeaponCard) && resources >= c.cost
  }

  function EquipmentFilter(resources: int, kind: CardType): Card -> bool
  {
    (c: Card) => AffordableEquipment(c, resources) && c.kind == kind
  }

  /** `byCostThenIndexDesc`: highest cost first, then lowest hand index. */
  function CostDescKey(): (Card, nat) -> seq<int>
  {
    (c: Card, i: nat) => [-c.cost, i]
  }

  /** The affordable cards of one kind, in the order `byCostThenIndexDesc` sorts them. */
  function CostRank(p: PlayerState, kind: CardType): seq<Ranked<Entry<Card>>>
  {
    SortByKey(Rank(p.hand, EquipmentFilter(p.resources, kind), CostDescKey()))
  }

  /** The order in which `pickItemEquipPlay` tries the affordable equipment: weapons, then items. */
  function EquipOrder(p: PlayerState): seq<Entry<Card>>
  {
    Values(CostRank(p, WeaponCard)) + Values(CostRank(p, ItemCard))
  }

  /** The (candidate position, slot) pair `pickItemEquipPlay` settles on. */
  function EquipChoice(p: PlayerState): (r: Option<(nat, nat)>)
    ensures r.Some? ==> r.value.0 < |EquipOrder(p)|
  {
    FirstFitFrom(EquipOrder(p), p.heroes, 0)
  }

  /** `pickItemEquipPlay`. */
  method PickItemEquipPlay(p: PlayerState) returns (r: Option<CardPlay>)
    ensures r == PlayOf(EquipOrder(p), EquipChoice(p))
  {
    var all := Rank(p.hand, (c: Card) => AffordableEquipment(c, p.resources), CostDescKey());
    if |all| == 0 {
      RankEmpty(p.hand, (c: Card) => AffordableEquipment(c, p.resources), CostDescKey());
      RankEmpty(p.hand, EquipmentFilter(p.resources, WeaponCard), CostDescKey());
      RankEmpty(p.hand, EquipmentFilter(p.resources, ItemCard), CostDescKey());
      return None;
    }
    var candidates := EquipOrder(p);
    r := FirstFitting(candidates, p.heroes);
  }

  /** The ranking of one kind lists each affordable card of that kind once, dearest first, earliest on ties. */
  lemma CostRankCorrect(p: PlayerState, kind: CardType)
    ensures var r := CostRank(p, kind);
            SortedByKey(r)
            && (forall k :: 0 <= k < |r| ==>
                  r[k].value.index < |p.hand| && r[k].value.item == p.hand[r[k].value.index]
                  && AffordableEquipment(r[k].value.item, p.resources) && r[k].value.item.kind == kind
                  && r[k].key == [-r[k].value.item.cost, r[k].value.index])
            && (forall i :: 0 <= i < |p.hand| && AffordableEquipment(p.hand[i], p.resources) && p.hand[i].kind == kind ==>
                  Ranked([-p.hand[i].cost, i], Entry(p.hand[i], i)) in r)
  {
    assert KeyWidth(p.hand, CostDescKey(), 2);
    RankSorted(p.hand, EquipmentFilter(p.resources, kind), CostDescKey(), 2, CostRank(p, kind));
    CostRankEntries(p, kind);
    CostRankComplete(p, kind);
  }

  /** Each entry of a kind's ranking is an affordable card of that kind at its hand index, under its cost key. */
  lemma CostRankEntries(p: PlayerState, kind: CardType)
    ensures var r := CostRank(p, kind);
            forall k :: 0 <= k < |r| ==>
              r[k].value.index < |p.hand| && r[k].value.item == p.hand[r[k].value.index]
              && AffordableEquipment(r[k].value.item, p.resources) && r[k].value.item.kind == kind
              && r[k].key == [-r[k].value.item.cost, r[k].value.index]
  {
    var r := CostRank(p, kind);
    var keep, key := EquipmentFilter(p.resources, kind), CostDescKey();
    assert KeyWidth(p.hand, key, 2);
    RankKept(p.hand, keep, key, 2, r);
    forall k | 0 <= k < |r|
      ensures r[k].value.index < |p.hand| && r[k].value.item == p.hand[r[k].value.index]
              && AffordableEquipment(r[k].value.item, p.resources) && r[k].value.item.kind == kind
              && r[k].key == [-r[k].value.item.cost, r[k].value.index]
    {
      assert keep(r[k].value.item) && r[k].key == key(r[k].value.item, r[k].value.index);
    }
  }

  /** Every affordable card of the kind is in its ranking, under its cost key. */
  lemma CostRankComplete(p: PlayerState, kind: CardType)
    ensures forall i :: 0 <= i < |p.hand| && AffordableEquipment(p.hand[i], p.resources) && p.hand[i].kind == kind ==>
              Ranked([-p.hand[i].cost, i], Entry(p.hand[i], i)) in CostRank(p, kind)
  {
    var r := CostRank(p, kind);
    var keep, key := EquipmentFilter(p.resources, kind), CostDescKey();
    assert KeyWidth(p.hand, key, 2);
    RankHas(p.hand, keep, key, 2, r);
    forall i | 0 <= i < |p.hand| && AffordableEquipment(p.hand[i], p.resources) && p.hand[i].kind == kind
      ensures Ranked([-p.hand[i].cost, i], Entry(p.hand[i], i)) in r
    {
      assert keep(p.hand[i]) && key(p.hand[i], i) == [-p.hand[i].cost, i];
    }
  }

  /** The head of a kind's ranking is the dearest affordable card of that kind, the earliest on ties. */
  lemma CostHeadDearest(p: PlayerState, kind: CardType)
    requires |CostRank(p, kind)| > 0
    ensures var e := CostRank(p, kind)[0].value;
            forall i :: 0 <= i < |p.hand| && AffordableEquipment(p.hand[i], p.resources) && p.hand[i].kind == kind ==>
              e.item.cost > p.hand[i].cost || (e.item.cost == p.hand[i].cost && e.index <= i)
  {
    CostRankCorrect(p, kind);
    var r := CostRank(p, kind);
    var e := r[0].value;
    forall i | 0 <= i < |p.hand| && AffordableEquipment(p.hand[i], p.resources) && p.hand[i].kind == kind
      ensures e.item.cost > p.hand[i].cost || (e.item.cost == p.hand[i].cost && e.index <= i)
    {
      var m :| 0 <= m < |r| && r[m] == Ranked([-p.hand[i].cost, i], Entry(p.hand[i], i));
      if m > 0 {
        assert LexLeq(r[0].key, r[m].key);
      } else {
        LexLeqReflexive(r[0].key);
      }
      LexLeqPair(-e.item.cost, e.index, -p.hand[i].cost, i);
    }
  }

  /** The k-th candidate is the hand card at its index, affordable, and a weapon exactly in the weapon part. */
  lemma EquipOrderAt(p: PlayerState, k: nat)
    requires k < |EquipOrder(p)|
    ensures var order := EquipOrder(p);
            order[k].index < |p.hand| && order[k].item == p.hand[order[k].index]
            && AffordableEquipment(order[k].item, p.resources)
            && (order[k].item.kind == WeaponCard <==> k < |CostRank(p, WeaponCard)|)
  {
    var ws := CostRank(p, WeaponCard);
    var its := CostRank(p, ItemCard);
    ValuesConcatAt(ws, its, k);
    if k < |ws| {
      CostRankCorrect(p, WeaponCard);
    } else {
      CostRankCorrect(p, ItemCard);
    }
  }

  /** Every entry of the equip order is affordable equipment of the hand, and the weapons come first. */
  lemma EquipOrderEntries(p: PlayerState)
    ensures var order := EquipOrder(p);
            var nw := |CostRank(p, WeaponCard)|;
            nw <= |order|
            && forall k :: 0 <= k < |order| ==>
                 order[k].index < |p.hand| && order[k].item == p.hand[order[k].index]
                 && AffordableEquipment(order[k].item, p.resources)
                 && (order[k].item.kind == WeaponCard <==> k < nw)
  {
    forall k | 0 <= k < |EquipOrder(p)|
      ensures var order := EquipOrder(p);
              order[k].index < |p.hand| && order[k].item == p.hand[order[k].index]
              && AffordableEquipment(order[k].item, p.resources)
              && (order[k].item.kind == WeaponCard <==> k < |CostRank(p, WeaponCard)|)
    {
      EquipOrderAt(p, k);
    }
  }

  /** Every affordable weapon or item of the hand is a candidate. */
  lemma EquipOrderComplete(p: PlayerState, i: nat)
    requires i < |p.hand| && AffordableEquipment(p.hand[i], p.resources)
    ensures exists k :: 0 <= k < |EquipOrder(p)| && EquipOrder(p)[k] == Entry(p.hand[i], i)
  {
    var ws := CostRank(p, WeaponCard);
    var its := CostRank(p, ItemCard);
    var kind := p.hand[i].kind;
    CostRankCorrect(p, kind);
    var r := CostRank(p, kind);
    var m :| 0 <= m < |r| && r[m] == Ranked([-p.hand[i].cost, i], Entry(p.hand[i], i));
    if kind == WeaponCard {
      ValuesConcatAt(ws, its, m);
      assert EquipOrder(p)[m] == Entry(p.hand[i], i);
    } else {
      ValuesConcatAt(ws, its, |ws| + m);
      assert EquipOrder(p)[|ws| + m] == Entry(p.hand[i], i);
    }
  }

  /**
   * The candidates of `pickItemEquipPlay` are exactly the affordable weapons
   * and items of the hand: the weapons first, then the items.
   */
  lemma EquipOrderShape(p: PlayerState)
    ensures var order := EquipOrder(p);
            var nw := |CostRank(p, WeaponCard)|;
            nw <= |order|
            && (forall k :: 0 <= k < |order| ==>
                  order[k].index < |p.hand| && order[k].item == p.hand[order[k].index]
                  && AffordableEquipment(order[k].item, p.resources)
                  && (order[k].item.kind == WeaponCard <==> k < nw))
            && (forall i :: 0 <= i < |p.hand| && AffordableEquipment(p.hand[i], p.resources) ==>
                  exists k :: 0 <= k < |order| && order[k] == Entry(p.hand[i], i))
  {
    EquipOrderEntries(p);
    forall i | 0 <= i < |p.hand| && AffordableEquipment(p.hand[i], p.resources)
      ensures exists k :: 0 <= k < |EquipOrder(p)| && EquipOrder(p)[k] == Entry(p.hand[i], i)
    {
      EquipOrderComplete(p, i);
    }
  }

  /** Whether a slot takes a card depends only on whether the card is a weapon. */
  lemma {:induction false} FitsByWeaponness(c: Card, d: Card, heroes: seq<Option<HeroInstance>>, from: nat)
    requires from <= |heroes|
    requires (c.kind == WeaponCard) == (d.kind == WeaponCard)
    ensures FitSlotFrom(c, heroes, from) == FitSlotFrom(d, heroes, from)
    decreases |heroes| - from
  {
    if from < |heroes| {
      assert Fits(c, heroes[from]) == Fits(d, heroes[from]);
      FitsByWeaponness(c, d, heroes, from + 1);
    }
  }

  /**
   * In an order whose first `nw` entries are the weapons, the first entry
   * that fits a slot is the first weapon or the first item: all weapons fit
   * the same slots, and so do all items.
   */
  lemma FirstFitIsGroupHead(order: seq<Entry<Card>>, nw: nat, heroes: seq<Option<HeroInstance>>)
    requires nw <= |order|
    requires forall k :: 0 <= k < |order| ==> (order[k].item.kind == WeaponCard <==> k < nw)
    ensures FirstFitFrom(order, heroes, 0).Some? ==>
              var k := FirstFitFrom(order, heroes, 0).value.0;
              (k < nw ==> k == 0) && (k >= nw ==> k == nw)
  {
    var r := FirstFitFrom(order, heroes, 0);
    if r.Some? {
      var k := r.value.0;
      if 0 < k < nw {
        FitsByWeaponness(order[0].item, order[k].item, heroes, 0);
      } else if nw < k {
        FitsByWeaponness(order[nw].item, order[k].item, heroes, 0);
      }
    }
  }

  /** With no pick, no affordable weapon or item fits any hero. */
  lemma NoEquipChoice(p: PlayerState, i: nat)
    requires EquipChoice(p).None?
    requires i < |p.hand| && AffordableEquipment(p.hand[i], p.resources)
    ensures FitSlotFrom(p.hand[i], p.heroes, 0).None?
  {
    EquipOrderComplete(p, i);
  }

  /** A pick is the head of its group: the dearest affordable card of its kind, the earliest on ties. */
  lemma EquipChoiceDearest(p: PlayerState)
    requires EquipChoice(p).Some?
    ensures var e := EquipOrder(p)[EquipChoice(p).value.0];
            forall i :: 0 <= i < |p.hand| && AffordableEquipment(p.hand[i], p.resources) && p.hand[i].kind == e.item.kind ==>
              e.item.cost > p.hand[i].cost || (e.item.cost == p.hand[i].cost && e.index <= i)
  {
    var ws := CostRank(p, WeaponCard);
    var its := CostRank(p, ItemCard);
    var k := EquipChoice(p).value.0;
    EquipOrderEntries(p);
    FirstFitIsGroupHead(EquipOrder(p), |ws|, p.heroes);
    ValuesConcatAt(ws, its, k);
    if k < |ws| {
      CostRankCorrect(p, WeaponCard);
      CostHeadDearest(p, WeaponCard);
    } else {
      CostRankCorrect(p, ItemCard);
      CostHeadDearest(p, ItemCard);
    }
  }

  /** An item is picked only when no affordable weapon fits any hero. */
  lemma ItemPickedLast(p: PlayerState, i: nat)
    requires EquipChoice(p).Some? && EquipOrder(p)[EquipChoice(p).value.0].item.kind == ItemCard
    requires i < |p.hand| && AffordableEquipment(p.hand[i], p.resources) && p.hand[i].kind == WeaponCard
    ensures FitSlotFrom(p.hand[i], p.heroes, 0).None?
  {
    EquipOrderEntries(p);
    EquipOrderComplete(p, i);
  }

  /**
   * The equip pick is affordable equipment of the hand, placed on the first
   * slot that takes it. It is the dearest affordable card of its kind (the
   * earliest on ties), and an item is picked only when no affordable weapon
   * fits any hero. No pick means no affordable weapon or item fits anywhere.
   */
  lemma EquipChoiceCorrect(p: PlayerState)
    ensures EquipChoice(p).Some? ==>
      var (k, slot) := EquipChoice(p).value;
      var e := EquipOrder(p)[k];
      e.index < |p.hand| && e.item == p.hand[e.index] && AffordableEquipment(e.item, p.resources)
      && FitSlotFrom(e.item, p.heroes, 0) == Some(slot)
      && (forall i :: 0 <= i < |p.hand| && AffordableEquipment(p.hand[i], p.resources) && p.hand[i].kind == e.item.kind ==>
            e.item.cost > p.hand[i].cost || (e.item.cost == p.hand[i].cost && e.index <= i))
      && (e.item.kind == ItemCard ==>
            forall i :: 0 <= i < |p.hand| && AffordableEquipment(p.hand[i], p.resources) && p.hand[i].kind == WeaponCard ==>
              FitSlotFrom(p.hand[i], p.heroes, 0).None?)
    ensures EquipChoice(p).None? ==>
      forall i :: 0 <= i < |p.hand| && AffordableEquipment(p.hand[i], p.resources) ==>
        FitSlotFrom(p.hand[i], p.heroes, 0).None?
  {
    if EquipChoice(p).None? {
      forall i | 0 <= i < |p.hand| && AffordableEquipment(p.hand[i], p.resources)
        ensures FitSlotFrom(p.hand[i], p.heroes, 0).None?
      {
        NoEquipChoice(p, i);
      }
    } else {
      EquipOrderEntries(p);
      EquipChoiceDearest(p);
      var e := EquipOrder(p)[EquipChoice(p).value.0];
      if e.item.kind == ItemCard {
        forall i | 0 <= i < |p.hand| && AffordableEquipment(p.hand[i], p.resources) && p.hand[i].kind == WeaponCard
          ensures FitSlotFrom(p.hand[i], p.heroes, 0).None?
        {
          ItemPickedLast(p, i);
        }
      }
    }
  }

  // ---------------------------------------------------------------------------
  // Healing
  // ---------------------------------------------------------------------------

  /** A slot a healing card could target: its index, missing HP and value (atk + def + items). */
  datatype HealTarget = HealTarget(slot: nat, missingHp: int, heroValue: int)

  function MissingHp(s: CombatStats): (m: int)
    ensures m >= 0 && m >= s.maxHp - s.hp
  {
    if s.maxHp - s.hp >= 0 then s.maxHp - s.hp else 0
  }

  function TargetOf(hero: HeroInstance, slot: nat, statsOf: HeroInstance -> CombatStats): HealTarget
  {
    var stats := statsOf(hero);
    HealTarget(slot, MissingHp(stats), stats.atk + stats.def + |hero.items|)
  }

  /** The targets among the first `n` slots: occupied slots missing at least `minMissing` HP, in slot order. */
  function HealTargets(heroes: seq<Option<HeroInstance>>, statsOf: HeroInstance -> CombatStats, minMissing: int, n: nat)
    : (ts: seq<HealTarget>)
    requires n <= |heroes|
    ensures forall k :: 0 <= k < |ts| ==>
      ts[k].slot < n && heroes[ts[k].slot].Some? && ts[k] == TargetOf(heroes[ts[k].slot].value, ts[k].slot, statsOf)
      && ts[k].missingHp >= minMissing
    ensures forall k, m :: 0 <= k < m < |ts| ==> ts[k].slot < ts[m].slot
    decreases n
  {
    if n == 0 then []
    else
      var front := HealTargets(heroes, statsOf, minMissing, n - 1);
      match heroes[n - 1]
      case None => front
      case Some(hero) =>
        var t := TargetOf(hero, n - 1, statsOf);
        if t.missingHp < minMissing then front else front + [t]
  }

  /** Every occupied slot missing enough HP is a target. */
  lemma {:induction false} HealTargetsComplete(heroes: seq<Option<HeroInstance>>, statsOf: HeroInstance -> CombatStats,
                                              minMissing: int, n: nat, s: nat)
    requires s < n <= |heroes| && heroes[s].Some?
    requires TargetOf(heroes[s].value, s, statsOf).missingHp >= minMissing
    ensures TargetOf(heroes[s].value, s, statsOf) in HealTargets(heroes, statsOf, minMissing, n)
    decreases n
  {
    if s < n - 1 {
      HealTargetsComplete(heroes, statsOf, minMissing, n - 1, s);
    }
  }

  /** The loop of `pickHealingRecruitPlay` (and of the aggressive variant) that collects the targets. */
  method CollectHealTargets(heroes: seq<Option<HeroInstance>>, statsOf: HeroInstance -> CombatStats, minMissing: int)
    returns (targets: seq<HealTarget>)
    ensures targets == HealTargets(heroes, statsOf, minMissing, |heroes|)
  {
    targets := [];
    var slot := 0;
    while slot < |heroes|
      invariant 0 <= slot <= |heroes|
      invariant targets == HealTargets(heroes, statsOf, minMissing, slot)
    {
      var hero := heroes[slot];
      if hero.None? {
        slot := slot + 1;
        continue;
      }
      var stats := statsOf(hero.value);
      var missingHp := MissingHp(stats);
      if missingHp < minMissing {
        slot := slot + 1;
        continue;
      }
      var heroValue := stats.atk + stats.def + |hero.value.items|;
      targets := targets + [HealTarget(slot, missingHp, heroValue)];
      slot := slot + 1;
    }
  }

  predicate AffordableHealing(c: Card, resources: int)
  {
    c.kind == HealingCard && resources >= c.cost
  }

  function HealingFilter(resources: int): Card -> bool
  {
    (c: Card) => AffordableHealing(c, resources)
  }

  /** Cheapest first, then lowest hand index. */
  function CostAscKey(): (Card, nat) -> seq<int>
  {
    (c: Card, i: nat) => [c.cost, i]
  }

  function AnyTarget(): HealTarget -> bool
  {
    (t: HealTarget) => true
  }

  /** Highest hero value first, then most missing HP, then lowest slot. */
  function BaselineTargetKey(): (HealTarget, nat) -> seq<int>
  {
    (t: HealTarget, i: nat) => [-t.heroValue, -t.missingHp, t.slot]
  }

  /** The specification of `pickHealingRecruitPlay`: the cheapest healing card on the best target. */
  function HealingPlay(p: PlayerState, statsOf: HeroInstance -> CombatStats): Option<CardPlay>
  {
    match Best(p.hand, HealingFilter(p.resources), CostAscKey())
    case None => None
    case Some(card) =>
      match Best(HealTargets(p.heroes, statsOf, 2, |p.heroes|), AnyTarget(), BaselineTargetKey())
      case None => None
      case Some(t) => Some(CardPlay(card.item.id, t.item.slot))
  }

  /** `pickHealingRecruitPlay`. */
  method PickHealingRecruitPlay(p: PlayerState, statsOf: HeroInstance -> CombatStats) returns (r: Option<CardPlay>)
    ensures r == HealingPlay(p, statsOf)
  {
    var healingCards := Rank(p.hand, HealingFilter(p.resources), CostAscKey());
    if |healingCards| == 0 {
      return None;
    }
    var targets := CollectHealTargets(p.heroes, statsOf, 2);
    if |targets| == 0 {
      return None;
    }
    var target := Best(targets, AnyTarget(), BaselineTargetKey());
    var card := Best(p.hand, HealingFilter(p.resources), CostAscKey());
    return Some(CardPlay(card.value.item.id, target.value.item.slot));
  }

  /** `c` is an affordable healing card of the hand, and no affordable healing card is cheaper or as cheap and earlier. */
  predicate CheapestHealing(p: PlayerState, c: Entry<Card>)
  {
    c.index < |p.hand| && c.item == p.hand[c.index] && AffordableHealing(c.item, p.resources)
    && forall j :: 0 <= j < |p.hand| && AffordableHealing(p.hand[j], p.resources) ==>
         c.item.cost < p.hand[j].cost || (c.item.cost == p.hand[j].cost && c.index <= j)
  }

  /** `t` ranks first among the targets: highest value, then most missing HP, then lowest slot. */
  predicate BestTarget(ts: seq<HealTarget>, t: HealTarget)
  {
    t in ts
    && forall u :: u in ts ==>
         t.heroValue > u.heroValue
         || (t.heroValue == u.heroValue && (t.missingHp > u.missingHp || (t.missingHp == u.missingHp && t.slot <= u.slot)))
  }

  lemma HealingCardCorrect(p: PlayerState)
    ensures var card := Best(p.hand, HealingFilter(p.resources), CostAscKey());
            (card.None? <==> forall i :: 0 <= i < |p.hand| ==> !AffordableHealing(p.hand[i], p.resources))
            && (card.Some? ==> CheapestHealing(p, card.value))
  {
    BestCorrect(p.hand, HealingFilter(p.resources), CostAscKey(), 2);
    var card := Best(p.hand, HealingFilter(p.resources), CostAscKey());
    if card.Some? {
      var c := card.value;
      forall j | 0 <= j < |p.hand| && AffordableHealing(p.hand[j], p.resources)
        ensures c.item.cost < p.hand[j].cost || (c.item.cost == p.hand[j].cost && c.index <= j)
      {
        assert HealingFilter(p.resources)(p.hand[j]);
        LexLeqPair(c.item.cost, c.index, p.hand[j].cost, j);
      }
    }
  }

  lemma HealingTargetCorrect(ts: seq<HealTarget>)
    ensures var target := Best(ts, AnyTarget(), BaselineTargetKey());
            (target.None? <==> ts == [])
            && (target.Some? ==> BestTarget(ts, target.value.item))
  {
    BestCorrect(ts, AnyTarget(), BaselineTargetKey(), 3);
    var target := Best(ts, AnyTarget(), BaselineTargetKey());
    if target.Some? {
      var t := target.value.item;
      forall u | u in ts
        ensures t.heroValue > u.heroValue
                || (t.heroValue == u.heroValue && (t.missingHp > u.missingHp || (t.missingHp == u.missingHp && t.slot <= u.slot)))
      {
        var m :| 0 <= m < |ts| && ts[m] == u;
        assert AnyTarget()(ts[m]);
        LexLeqTriple(-t.heroValue, -t.missingHp, t.slot, -u.heroValue, -u.missingHp, u.slot);
      }
    }
  }

  /**
   * A healing play needs an affordable healing card and a hero missing at
   * least 2 HP; it uses the cheapest such card (earliest on ties) on the
   * target with the highest value, then the most missing HP, then the lowest slot.
   */
  lemma HealingPlayCorrect(p: PlayerState, statsOf: HeroInstance -> CombatStats)
    ensures var ts := HealTargets(p.heroes, statsOf, 2, |p.heroes|);
            var card := Best(p.hand, HealingFilter(p.resources), CostAscKey());
            var target := Best(ts, AnyTarget(), BaselineTargetKey());
            (HealingPlay(p, statsOf).None? <==>
               (forall i :: 0 <= i < |p.hand| ==> !AffordableHealing(p.hand[i], p.resources)) || ts == [])
            && (HealingPlay(p, statsOf).Some? ==>
                 HealingPlay(p, statsOf).value == CardPlay(card.value.item.id, target.value.item.slot)
                 && CheapestHealing(p, card.value) && BestTarget(ts, target.value.item)
                 && target.value.item.slot < |p.heroes| && p.heroes[target.value.item.slot].Some?
                 && target.value.item.missingHp >= 2)
  {
    var ts := HealTargets(p.heroes, statsOf, 2, |p.heroes|);
    HealingCardCorrect(p);
    HealingTargetCorrect(ts);
  }

  // ---------------------------------------------------------------------------
  // Attacks
  // ---------------------------------------------------------------------------

  /** `{ attackerSlot, defenderSlot }`. */
  datatype Attack = Attack(attackerSlot: nat, defenderSlot: nat)

  /** The slots below `n` that can attack, in ascending order. */
  function AttackerSlots(canAttack: nat -> bool, n: nat): (ss: seq<nat>)
    ensures forall k :: 0 <= k < |ss| ==> ss[k] < n && canAttack(ss[k])
    ensures forall k, m :: 0 <= k < m < |ss| ==> ss[k] < ss[m]
    ensures forall s :: 0 <= s < n && canAttack(s) ==> s in ss
    decreases n
  {
    if n == 0 then []
    else
      var front := AttackerSlots(canAttack, n - 1);
      if canAttack(n - 1) then front + [n - 1] else front
  }

  function AimAll(slots: seq<nat>, target: nat): (attacks: seq<Attack>)
    ensures |attacks| == |slots|
    ensures forall k :: 0 <= k < |slots| ==> attacks[k] == Attack(slots[k], target)
  {
    seq(|slots|, k requires 0 <= k < |slots| => Attack(slots[k], target))
  }

  /** The attacks of the attacker slots below `n`. */
  function AttacksUpTo(defenderHeroes: seq<Option<HeroInstance>>, canAttack: nat -> bool, n: nat): seq<Attack>
  {
    match FirstOccupiedSlot(defenderHeroes)
    case None => []
    case Some(target) => AimAll(AttackerSlots(canAttack, n), target)
  }

  /** The specification of `pickAttacks` over the three attacker slots. */
  function BaselineAttacks(defenderHeroes: seq<Option<HeroInstance>>, canAttack: nat -> bool): seq<Attack>
  {
    AttacksUpTo(defenderHeroes, canAttack, MaxHeroSlots)
  }

  lemma AttacksUpToStep(defenderHeroes: seq<Option<HeroInstance>>, canAttack: nat -> bool, n: nat)
    requires FirstOccupiedSlot(defenderHeroes).Some?
    ensures AttacksUpTo(defenderHeroes, canAttack, n + 1)
            == AttacksUpTo(defenderHeroes, canAttack, n)
               + (if canAttack(n) then [Attack(n, FirstOccupiedSlot(defenderHeroes).value)] else [])
  {
    var t := FirstOccupiedSlot(defenderHeroes).value;
    var front := AttackerSlots(canAttack, n);
    if canAttack(n) {
      assert AimAll(front + [n], t) == AimAll(front, t) + [Attack(n, t)];
    }
  }

  /** `pickAttacks`. */
  method PickAttacks(defenderHeroes: seq<Option<HeroInstance>>, canAttack: nat -> bool) returns (attacks: seq<Attack>)
    ensures attacks == BaselineAttacks(defenderHeroes, canAttack)
  {
    attacks := [];
    for attackerSlot := 0 to MaxHeroSlots
      invariant attacks == AttacksUpTo(defenderHeroes, canAttack, attackerSlot)
    {
      if canAttack(attackerSlot) {
        var defenderSlot := FirstOccupiedSlot(defenderHeroes);
        if defenderSlot.None? {
          break;
        }
        AttacksUpToStep(defenderHeroes, canAttack, attackerSlot);
        attacks := attacks + [Attack(attackerSlot, defenderSlot.value)];
      } else if FirstOccupiedSlot(defenderHeroes).Some? {
        AttacksUpToStep(defenderHeroes, canAttack, attackerSlot);
      }
    }
  }

  /**
   * Every slot that can attack attacks once, in ascending slot order, each
   * aimed at the first occupied defender slot; nothing when the defender has no hero.
   */
  lemma BaselineAttacksCorrect(defenderHeroes: seq<Option<HeroInstance>>, canAttack: nat -> bool)
    ensures var attacks := BaselineAttacks(defenderHeroes, canAttack);
            (!HasHeroes(defenderHeroes) ==> attacks == [])
            && (forall k :: 0 <= k < |attacks| ==>
                  attacks[k].attackerSlot < MaxHeroSlots && canAttack(attacks[k].attackerSlot)
                  && attacks[k].defenderSlot == FirstOccupiedSlot(defenderHeroes).value)
            && (forall k, m :: 0 <= k < m < |attacks| ==> attacks[k].attackerSlot < attacks[m].attackerSlot)
            && (HasHeroes(defenderHeroes) ==>
                  forall s :: 0 <= s < MaxHeroSlots && canAttack(s) ==>
                    exists k :: 0 <= k < |attacks| && attacks[k].attackerSlot == s)
  {
    if HasHeroes(defenderHeroes) {
      var slots := AttackerSlots(canAttack, MaxHeroSlots);
      forall s | 0 <= s < MaxHeroSlots && canAttack(s)
        ensures exists k :: 0 <= k < |slots| && slots[k] == s
      {
        assert s in slots;
      }
    }
  }

  // ---------------------------------------------------------------------------
  // Discard
  // ---------------------------------------------------------------------------

  /** `DISCARD_TYPE_PRIORITY`, 99 for a type the table does not list. */
  function BaselinePriority(t: CardType): int
  {
    match t
    case ReactiveCard => 0
    case CounterattackCard => 1
    case HealingCard => 2
    case ItemCard => 3
    case WeaponCard => 3
    case HeroCard => 4
    case UnknownCard => 99
  }

  function KeepAll(): Card -> bool
  {
    (c: Card) => true
  }

  /** Lowest type priority first, then highest cost, then lowest hand index. */
  function DiscardKey(priority: CardType -> int): (Card, nat) -> seq<int>
  {
    (c: Card, i: nat) => [priority(c.kind), -c.cost, i]
  }

  /** The whole hand in discard order, under a priority table. */
  function DiscardRanking(priority: CardType -> int, hand: seq<Card>): seq<Ranked<Entry<Card>>>
  {
    SortByKey(Rank(hand, KeepAll(), DiscardKey(priority)))
  }

  function DiscardCount(hand: seq<Card>, required: int): (n: nat)
    ensures n <= |hand|
  {
    if required <= 0 then 0 else if required < |hand| then required else |hand|
  }

  function CardIds(es: seq<Ranked<Entry<Card>>>): (ids: seq<string>)
    ensures |ids| == |es|
    ensures forall k :: 0 <= k < |es| ==> ids[k] == es[k].value.item.id
  {
    seq(|es|, k requires 0 <= k < |es| => es[k].value.item.id)
  }

  /** The discard pickers of every profile: the first `required` cards of the hand in discard order. */
  function PickDiscardCardIdsBy(priority: CardType -> int, hand: seq<Card>, required: int): seq<string>
  {
    var ranking := DiscardRanking(priority, hand);
    assert |ranking| == |Rank(hand, KeepAll(), DiscardKey(priority))|;
    RankLength(hand, DiscardKey(priority));
    CardIds(ranking[..DiscardCount(hand, required)])
  }

  /** The baseline `pickDiscardCardIds`. */
  function PickDiscardCardIds(hand: seq<Card>, required: int): seq<string>
  {
    PickDiscardCardIdsBy(BaselinePriority, hand, required)
  }

  /** Ranking the whole hand keeps every card. */
  lemma RankLength(hand: seq<Card>, key: (Card, nat) -> seq<int>)
    ensures |Rank(hand, KeepAll(), key)| == |hand|
  {
    RankAllLength(hand, key, 0);
  }

  lemma {:induction false} RankAllLength(hand: seq<Card>, key: (Card, nat) -> seq<int>, start: nat)
    requires start <= |hand|
    ensures |RankFrom(hand, KeepAll(), key, start)| == |hand| - start
    decreases |hand| - start
  {
    if start < |hand| {
      RankAllLength(hand, key, start + 1);
    }
  }

  /** `d` goes before `e` in discard order: lower priority, then higher cost, then earlier index. */
  predicate DiscardsBefore(priority: CardType -> int, d: Entry<Card>, e: Entry<Card>)
  {
    priority(d.item.kind) < priority(e.item.kind)
    || (priority(d.item.kind) == priority(e.item.kind)
        && (d.item.cost > e.item.cost || (d.item.cost == e.item.cost && d.index <= e.index)))
  }

  /** The discard ranking lists every card of the hand, with its index, in discard order. */
  lemma DiscardRankingCorrect(priority: CardType -> int, hand: seq<Card>)
    ensures var ranking := DiscardRanking(priority, hand);
            |ranking| == |hand|
            && (forall k :: 0 <= k < |ranking| ==>
                  ranking[k].value.index < |hand| && ranking[k].value.item == hand[ranking[k].value.index])
            && (forall k, m :: 0 <= k < m < |ranking| ==> DiscardsBefore(priority, ranking[k].value, ranking[m].value))
            && (forall i :: 0 <= i < |hand| ==> Ranked(DiscardKey(priority)(hand[i], i), Entry(hand[i], i)) in ranking)
  {
    var key := DiscardKey(priority);
    var ranking := DiscardRanking(priority, hand);
    RankKept(hand, KeepAll(), key, 3, ranking);
    RankHas(hand, KeepAll(), key, 3, ranking);
    RankLength(hand, key);
    forall k, m | 0 <= k < m < |ranking|
      ensures DiscardsBefore(priority, ranking[k].value, ranking[m].value)
    {
      var d := ranking[k].value;
      var e := ranking[m].value;
      RankPair(hand, KeepAll(), key, 3, ranking, k, m);
      LexLeqTriple(priority(d.item.kind), -d.item.cost, d.index, priority(e.item.kind), -e.item.cost, e.index);
    }
  }

  /**
   * No ids when the required count is not positive; otherwise the ids of the
   * first min(required, |hand|) cards in discard order, each of which goes
   * before every card kept.
   */
  lemma PickDiscardCardIdsCorrect(priority: CardType -> int, hand: seq<Card>, required: int)
    ensures var ids := PickDiscardCardIdsBy(priority, hand, required);
            var ranking := DiscardRanking(priority, hand);
            |ids| == DiscardCount(hand, required) <= |ranking|
            && (required <= 0 ==> ids == [])
            && (forall k :: 0 <= k < |ids| ==> ids[k] == ranking[k].value.item.id)
            && (forall k, m :: 0 <= k < |ids| <= m < |ranking| ==> DiscardsBefore(priority, ranking[k].value, ranking[m].value))
  {
    DiscardRankingCorrect(priority, hand);
  }
}
