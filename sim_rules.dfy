/**
 * The entities of the headless match simulator (scripts/lib/simEngine.js) and
 * its pure stat helpers: recruit cost with the losses "pressure" term, hero
 * maximum HP, the HP clamp of `ensureHeroState`, combat stats, and the
 * constructors of hero and item instances.
 *
 * A card's numeric stat that the source reads with `Number(x || 0)` or guards
 * with `typeof x === 'number'` is an `int` here whose absence is 0; both
 * readings add nothing for an absent field.
 */
module SimRules {
  import opened Wrappers

  const MaxHeroSlots: nat := 3
  const MaxItemsPerHero: nat := 3
  const DefaultMaxResources: int := 5
  const CriticalBonus: int := 2
  /** The hand size above which the discard phase asks for cards. */
  const HandLimit: nat := 7

  datatype PlayerId = PlayerA | PlayerB

  /** `getOpponentPlayerId`. */
  function Opponent(p: PlayerId): (q: PlayerId)
    ensures q != p
  {
    if p == PlayerA then PlayerB else PlayerA
  }

  /** Taking the opponent twice gives back the player. */
  lemma OpponentInvolutive(p: PlayerId)
    ensures Opponent(Opponent(p)) == p
  {
  }

  /** The `type` tag of a card; `UnknownCard` stands for any other string. */
  datatype CardType = HeroCard | ItemCard | WeaponCard | HealingCard | ReactiveCard | CounterattackCard | UnknownCard

  /** The `effect` tag of a reactive card; `NoEffect` for a missing or unrecognised tag. */
  datatype Effect = ReduceDamage | CancelCritical | PreventDeath | NoEffect

  datatype CardStats = CardStats(
    hp: int, atk: int, def: int,
    hpBonus: int, hpModifier: int,
    atkBonus: int, atkModifier: int,
    defBonus: int, defModifier: int,
    durability: int,
    damageReduction: int,
    counterDamage: int,
    healAmount: int)

  datatype Card = Card(id: string, kind: CardType, cost: int, stats: CardStats, effect: Effect)

  /** An equipped item: a copy of its card and, for a card with positive durability, the turns it has left. */
  datatype ItemInstance = ItemInstance(card: Card, currentDurability: Option<int>)

  datatype HeroInstance = HeroInstance(card: Card, items: seq<ItemInstance>, currentHp: int, hasAttacked: bool)

  /** One player's part of the match: hand, three hero slots, resources and losses. */
  datatype PlayerState = PlayerState(
    hand: seq<Card>,
    heroes: seq<Option<HeroInstance>>,
    resources: int,
    maxResources: int,
    heroesLost: nat)

  /** `state.players`, keyed by player id. */
  datatype Players = Players(a: PlayerState, b: PlayerState)
  {
    function Get(id: PlayerId): PlayerState
    {
      if id == PlayerA then a else b
    }

    function Set(id: PlayerId, p: PlayerState): (r: Players)
      ensures r.Get(id) == p
      ensures r.Get(Opponent(id)) == Get(Opponent(id))
      ensures p == Get(id) ==> r == this
    {
      if id == PlayerA then this.(a := p) else this.(b := p)
    }
  }

  /** `createPlayerState`: empty hand, three empty slots, 5 of 5 resources, no losses. */
  function NewPlayer(): (p: PlayerState)
    ensures ValidPlayer(p) && HeroCount(p.heroes) == 0
  {
    PlayerState([], [None, None, None], DefaultMaxResources, DefaultMaxResources, 0)
  }

  // ---------------------------------------------------------------------------
  // Recruit cost
  // ---------------------------------------------------------------------------

  /** The surcharge after `lost` losses: lost * (lost + 1) / 2. */
  function Pressure(lost: nat): nat
  {
    lost * (lost + 1) / 2
  }

  /** 1 + 2 + ... + n, the reading of the pressure term as one more per loss. */
  function Triangle(n: nat): nat
    decreases n
  {
    if n == 0 then 0 else Triangle(n - 1) + n
  }

  /** The closed form is the running sum: the k-th lost hero adds k to every later recruit. */
  lemma {:induction false} PressureIsTriangle(n: nat)
    ensures Pressure(n) == Triangle(n)
    decreases n
  {
    if n > 0 {
      PressureIsTriangle(n - 1);
      assert n * (n + 1) == (n - 1) * n + 2 * n;
    }
  }

  /** `getRecruitCost`: the card's base cost plus the pressure of the player's losses. */
  function RecruitCost(lost: nat, baseCost: int): int
  {
    baseCost + Pressure(lost)
  }

  /** Each further loss raises every recruit cost by the new loss count. */
  lemma RecruitCostStep(lost: nat, baseCost: int)
    ensures RecruitCost(lost + 1, baseCost) == RecruitCost(lost, baseCost) + lost + 1
    ensures RecruitCost(0, baseCost) == baseCost
  {
    PressureIsTriangle(lost);
    PressureIsTriangle(lost + 1);
  }

  // ---------------------------------------------------------------------------
  // Hit points
  // ---------------------------------------------------------------------------

  /** `getCardBaseHp`: the card's hp, at least 1. */
  function BaseHp(card: Card): (hp: int)
    ensures hp >= 1 && hp >= card.stats.hp
    ensures card.stats.hp >= 1 ==> hp == card.stats.hp
  {
    if card.stats.hp >= 1 then card.stats.hp else 1
  }

  /** The hp bonus one equipped item grants. */
  function ItemHpBonus(item: ItemInstance): int
  {
    item.card.stats.hpBonus + item.card.stats.hpModifier
  }

  /** The summed hp bonuses of the equipped items, in equip order. */
  function ItemsHpBonus(items: seq<ItemInstance>): int
    decreases |items|
  {
    if items == [] then 0 else ItemHpBonus(items[0]) + ItemsHpBonus(items[1..])
  }

  lemma {:induction false} ItemsHpBonusAppend(items: seq<ItemInstance>, item: ItemInstance)
    ensures ItemsHpBonus(items + [item]) == ItemsHpBonus(items) + ItemHpBonus(item)
    decreases |items|
  {
    if items == [] {
      assert [] + [item] == [item];
    } else {
      assert (items + [item])[1..] == items[1..] + [item];
      ItemsHpBonusAppend(items[1..], item);
    }
  }

  /** `getHeroMaxHp`: base hp plus every item's hp bonuses, at least 1. */
  function HeroMaxHp(hero: HeroInstance): (m: int)
    ensures m >= 1
    ensures m >= BaseHp(hero.card) + ItemsHpBonus(hero.items)
  {
    var raw := BaseHp(hero.card) + ItemsHpBonus(hero.items);
    if raw >= 1 then raw else 1
  }

  /** Equipping one more item moves the unclamped maximum by exactly that item's bonus. */
  lemma MaxHpAfterEquip(hero: HeroInstance, item: ItemInstance)
    ensures var raw := BaseHp(hero.card) + ItemsHpBonus(hero.items) + ItemHpBonus(item);
            HeroMaxHp(hero.(items := hero.items + [item])) == if raw >= 1 then raw else 1
  {
    ItemsHpBonusAppend(hero.items, item);
  }

  /** max(0, min(hp, maxHp)), the clamp every HP update goes through. */
  function ClampHp(hp: int, maxHp: int): (r: int)
    requires maxHp >= 0
    ensures 0 <= r <= maxHp
    ensures 0 <= hp <= maxHp ==> r == hp
    ensures hp > maxHp ==> r == maxHp
    ensures hp < 0 ==> r == 0
  {
    if hp < 0 then 0 else if hp > maxHp then maxHp else hp
  }

  /** The state invariant of a hero on the board: HP within [0, maxHp] and at most three items. */
  predicate ValidHero(hero: HeroInstance)
  {
    0 <= hero.currentHp <= HeroMaxHp(hero) && |hero.items| <= MaxItemsPerHero
  }

  /**
   * `ensureHeroState(hero)`: the HP clamped into [0, maxHp]. The source also
   * fills a missing `currentHp` or `hasAttackedThisPhase`; both are always set here.
   */
  function EnsureHeroState(hero: HeroInstance): (r: HeroInstance)
    ensures 0 <= r.currentHp <= HeroMaxHp(r)
    ensures r.card == hero.card && r.items == hero.items && r.hasAttacked == hero.hasAttacked
    ensures 0 <= hero.currentHp <= HeroMaxHp(hero) ==> r == hero
  {
    hero.(currentHp := ClampHp(hero.currentHp, HeroMaxHp(hero)))
  }

  /** Clamping twice is clamping once. */
  lemma EnsureHeroStateIdempotent(hero: HeroInstance)
    ensures EnsureHeroState(EnsureHeroState(hero)) == EnsureHeroState(hero)
  {
  }

  datatype CombatStats = CombatStats(atk: int, def: int, hp: int, maxHp: int)

  function ItemsAtkBonus(items: seq<ItemInstance>): int
    decreases |items|
  {
    if items == [] then 0
    else items[0].card.stats.atkBonus + items[0].card.stats.atkModifier + ItemsAtkBonus(items[1..])
  }

  function ItemsDefBonus(items: seq<ItemInstance>): int
    decreases |items|
  {
    if items == [] then 0
    else items[0].card.stats.defBonus + items[0].card.stats.defModifier + ItemsDefBonus(items[1..])
  }

  /** `getHeroCombatStats` of a present hero: base atk/def plus item bonuses, and the clamped HP. */
  function HeroCombatStats(hero: HeroInstance): (s: CombatStats)
    ensures s.maxHp == HeroMaxHp(hero) && s.maxHp >= 1
    ensures 0 <= s.hp <= s.maxHp
    ensures s.hp == EnsureHeroState(hero).currentHp
    ensures hero.items == [] ==> s.atk == hero.card.stats.atk && s.def == hero.card.stats.def
  {
    var ready := EnsureHeroState(hero);
    CombatStats(
      ready.card.stats.atk + ItemsAtkBonus(ready.items),
      ready.card.stats.def + ItemsDefBonus(ready.items),
      ClampHp(ready.currentHp, HeroMaxHp(ready)),
      HeroMaxHp(ready))
  }

  /** `getHeroCombatStats(null)`: all zeros for an empty slot. */
  function SlotCombatStats(slot: Option<HeroInstance>): (s: CombatStats)
    ensures slot.None? ==> s == CombatStats(0, 0, 0, 0)
    ensures slot.Some? ==> s == HeroCombatStats(slot.value)
  {
    match slot
    case None => CombatStats(0, 0, 0, 0)
    case Some(h) => HeroCombatStats(h)
  }

  // ---------------------------------------------------------------------------
  // Instances
  // ---------------------------------------------------------------------------

  /** `createHeroInstance`: no items, full base HP, not yet attacked. */
  function CreateHero(card: Card): (h: HeroInstance)
    ensures ValidHero(h) && h.card == card && h.items == []
    ensures h.currentHp == HeroMaxHp(h) == BaseHp(card)
    ensures !h.hasAttacked
  {
    HeroInstance(card, [], BaseHp(card), false)
  }

  /** `createItemInstance`: durability is tracked only for a card whose durability is positive. */
  function CreateItem(card: Card): (it: ItemInstance)
    ensures it.card == card
    ensures it.currentDurability.Some? <==> card.stats.durability > 0
    ensures it.currentDurability.Some? ==> it.currentDurability.value == card.stats.durability
  {
    if card.stats.durability > 0 then ItemInstance(card, Some(card.stats.durability))
    else ItemInstance(card, None)
  }

  // ---------------------------------------------------------------------------
  // Slots, hands and the player invariant
  // ---------------------------------------------------------------------------

  /** The number of occupied slots, `heroes.filter(Boolean).length`. */
  function HeroCount(heroes: seq<Option<HeroInstance>>): (n: nat)
    ensures n <= |heroes|
    decreases |heroes|
  {
    if heroes == [] then 0
    else (if heroes[0].Some? then 1 else 0) + HeroCount(heroes[1..])
  }

  /** No hero on the board, `!heroes.some(Boolean)`, is a count of zero. */
  lemma {:induction false} HeroCountZero(heroes: seq<Option<HeroInstance>>)
    ensures HeroCount(heroes) == 0 <==> forall k :: 0 <= k < |heroes| ==> heroes[k].None?
    decreases |heroes|
  {
    if heroes != [] {
      HeroCountZero(heroes[1..]);
      assert forall k :: 1 <= k < |heroes| ==> heroes[k] == heroes[1..][k - 1];
    }
  }

  /** A slot is occupied exactly when the count is positive somewhere. */
  predicate HasHeroes(heroes: seq<Option<HeroInstance>>)
  {
    exists k :: 0 <= k < |heroes| && heroes[k].Some?
  }

  /** The invariant of a player: three slots, each empty or holding a valid hero. */
  predicate ValidPlayer(p: PlayerState)
  {
    |p.heroes| == MaxHeroSlots
    && forall k :: 0 <= k < |p.heroes| && p.heroes[k].Some? ==> ValidHero(p.heroes[k].value)
  }

  predicate ValidPlayers(ps: Players)
  {
    ValidPlayer(ps.a) && ValidPlayer(ps.b)
  }

  /** `hand.findIndex((card) => card.id === id)`. */
  function FindCard(hand: seq<Card>, id: string): (r: Option<nat>)
    ensures r.Some? ==> r.value < |hand| && hand[r.value].id == id
                        && forall j :: 0 <= j < r.value ==> hand[j].id != id
    ensures r.None? <==> forall j :: 0 <= j < |hand| ==> hand[j].id != id
    decreases |hand|
  {
    if hand == [] then None
    else if hand[0].id == id then Some(0)
    else match FindCard(hand[1..], id)
      case None => None
      case Some(k) => Some(k + 1)
  }

  /** `splice(k, 1)`: the sequence without its element at k. */
  function RemoveAt<T>(s: seq<T>, k: nat): (r: seq<T>)
    requires k < |s|
    ensures |r| == |s| - 1
    ensures multiset(r) + multiset{s[k]} == multiset(s)
  {
    assert s == s[..k] + [s[k]] + s[k + 1..];
    s[..k] + s[k + 1..]
  }

  /** `heroes.findIndex((slot) => !slot)`. */
  function FirstEmptySlot(heroes: seq<Option<HeroInstance>>): (r: Option<nat>)
    ensures r.Some? ==> r.value < |heroes| && heroes[r.value].None?
                        && forall j :: 0 <= j < r.value ==> heroes[j].Some?
    ensures r.None? <==> forall j :: 0 <= j < |heroes| ==> heroes[j].Some?
    decreases |heroes|
  {
    if heroes == [] then None
    else if heroes[0].None? then Some(0)
    else match FirstEmptySlot(heroes[1..])
      case None => None
      case Some(k) => Some(k + 1)
  }

  /** `heroes.findIndex(Boolean)`: the first occupied slot. */
  function FirstOccupiedSlot(heroes: seq<Option<HeroInstance>>): (r: Option<nat>)
    ensures r.Some? ==> r.value < |heroes| && heroes[r.value].Some?
                        && forall j :: 0 <= j < r.value ==> heroes[j].None?
    ensures r.None? <==> !HasHeroes(heroes)
    decreases |heroes|
  {
    if heroes == [] then None
    else if heroes[0].Some? then Some(0)
    else match FirstOccupiedSlot(heroes[1..])
      case None =>
        assert forall j :: 1 <= j < |heroes| ==> heroes[j] == heroes[1..][j - 1];
        None
      case Some(k) => Some(k + 1)
  }

  /** `canHeroAttack`: an occupied slot whose hero has HP left and has not attacked this phase. */
  predicate CanHeroAttack(p: PlayerState, slot: int)
  {
    0 <= slot < |p.heroes| && p.heroes[slot].Some?
    && EnsureHeroState(p.heroes[slot].value).currentHp > 0
    && !p.heroes[slot].value.hasAttacked
  }

  /** `getRequiredDiscardCount`: how far the hand is above seven cards. */
  function RequiredDiscardCount(hand: seq<Card>): (n: nat)
    ensures n > 0 <==> |hand| > HandLimit
    ensures |hand| - n <= HandLimit
    ensures n > 0 ==> |hand| - n == HandLimit
  {
    if |hand| > HandLimit then |hand| - HandLimit else 0
  }
}
