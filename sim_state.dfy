/**
 * The match state of the headless simulator and the state transitions its
 * engine performs, as functions of the old state: recruiting a hero,
 * equipping an item, resetting attacks, applying a combat result, playing a
 * reaction card, discarding, end-of-turn durability and finishing a turn.
 * The engine's methods (module SimEngine) update a match in place and are
 * proved to agree with these functions; the lemmas here state what each
 * transition promises.
 */
module SimState {
  import opened Wrappers
  import opened SimRules
  import opened SimCombat

  // ---------------------------------------------------------------------------
  // Match status and counters
  // ---------------------------------------------------------------------------

  datatype MatchPhase = Playing | Ended

  datatype TurnPhase = DrawPhase | RecruitPhase | CombatPhase | DiscardPhase | EndPhase

  /** `state.game`. */
  datatype GameStatus = GameStatus(
    phase: MatchPhase,
    turn: int,
    currentTurn: PlayerId,
    firstTurnPlayer: PlayerId,
    turnPhase: TurnPhase,
    winner: Option<PlayerId>)

  /** The counters of the per-game statistics record that the engine accumulates. */
  datatype Tally = Tally(
    heroesKilledTotal: nat,
    heroesKilledByPlayerA: nat,
    heroesKilledByPlayerB: nat,
    totalAttacks: nat,
    criticalCount: nat,
    fumbleCount: nat,
    totalDamageDealt: int,
    totalCounterDamageDealt: int,
    counterattacksUsed: nat,
    counterattackDamageDealt: int,
    attackerDeathsByCounter: nat,
    cardsDrawnTotal: nat,
    cardsRecruitedTotal: nat,
    itemsEquippedTotal: nat,
    cardsDiscardedTotal: nat,
    mulliganCount: nat)

  function ZeroTally(): Tally
  {
    Tally(0, 0, 0, 0, 0, 0, 0, 0, 0, 0, 0, 0, 0, 0, 0, 0)
  }

  /**
   * The kill counters agree with the board: every kill is counted once in the
   * total, and `heroesKilledByPlayerX` counts the heroes player X has lost.
   */
  predicate KillsConsistent(t: Tally, ps: Players)
  {
    t.heroesKilledTotal == t.heroesKilledByPlayerA + t.heroesKilledByPlayerB
    && t.heroesKilledByPlayerA == ps.a.heroesLost
    && t.heroesKilledByPlayerB == ps.b.heroesLost
  }

  /** The counters after a hero of `owner` died (or did not). */
  function Killed(t: Tally, owner: PlayerId, died: bool): Tally
  {
    if !died then t
    else if owner == PlayerA then
      t.(heroesKilledTotal := t.heroesKilledTotal + 1, heroesKilledByPlayerA := t.heroesKilledByPlayerA + 1)
    else
      t.(heroesKilledTotal := t.heroesKilledTotal + 1, heroesKilledByPlayerB := t.heroesKilledByPlayerB + 1)
  }

  // ---------------------------------------------------------------------------
  // Slot counting
  // ---------------------------------------------------------------------------

  /** Replacing one slot moves the hero count by the change at that slot. */
  lemma {:induction false} HeroCountUpdate(heroes: seq<Option<HeroInstance>>, k: nat, v: Option<HeroInstance>)
    requires k < |heroes|
    ensures HeroCount(heroes[k := v])
            == HeroCount(heroes) - (if heroes[k].Some? then 1 else 0) + (if v.Some? then 1 else 0)
    decreases |heroes|
  {
    if k == 0 {
      assert heroes[k := v][1..] == heroes[1..];
    } else {
      HeroCountUpdate(heroes[1..], k - 1, v);
      assert heroes[k := v][1..] == heroes[1..][k - 1 := v];
    }
  }

  /** A full count means every slot is occupied. */
  lemma {:induction false} HeroCountFull(heroes: seq<Option<HeroInstance>>)
    requires HeroCount(heroes) >= |heroes|
    ensures forall k :: 0 <= k < |heroes| ==> heroes[k].Some?
    decreases |heroes|
  {
    if heroes != [] {
      HeroCountFull(heroes[1..]);
      assert forall k :: 1 <= k < |heroes| ==> heroes[k] == heroes[1..][k - 1];
    }
  }

  /** Replacing one player by a valid one with the same losses keeps the invariant and the kill counters. */
  lemma SetPlayerValid(ps: Players, t: Tally, id: PlayerId, p: PlayerState)
    requires ValidPlayers(ps) && KillsConsistent(t, ps)
    requires ValidPlayer(p) && p.heroesLost == ps.Get(id).heroesLost
    ensures ValidPlayers(ps.Set(id, p)) && KillsConsistent(t, ps.Set(id, p))
  {
  }

  /** The hero in a slot, if the slot exists and is occupied. */
  function SlotHero(p: PlayerState, slot: int): (r: Option<HeroInstance>)
    ensures r.Some? ==> 0 <= slot < |p.heroes| && p.heroes[slot] == r
  {
    if 0 <= slot < |p.heroes| then p.heroes[slot] else None
  }

  // ---------------------------------------------------------------------------
  // Recruiting a hero (playHeroFromHand)
  // ---------------------------------------------------------------------------

  /** What a successful play returns: the card, what it cost and the slot. */
  datatype Played = Played(card: Card, cost: int, slot: nat)

  /**
   * `playHeroFromHand`: None when any of its guards rejects the play, otherwise
   * the player after paying, losing the card from the hand and placing a fresh hero.
   */
  function RecruitOutcome(p: PlayerState, cardId: string, slot: int): (r: Option<(PlayerState, Played)>)
    ensures r.Some? ==> |r.value.0.hand| == |p.hand| - 1
  {
    if HeroCount(p.heroes) >= MaxHeroSlots || slot < 0 || slot >= MaxHeroSlots
       || slot >= |p.heroes| || p.heroes[slot].Some? then None
    else match FindCard(p.hand, cardId)
      case None => None
      case Some(k) =>
        var card := p.hand[k];
        var cost := RecruitCost(p.heroesLost, card.cost);
        if card.kind != HeroCard || p.resources < cost then None
        else Some((p.(resources := p.resources - cost,
                       hand := RemoveAt(p.hand, k),
                       heroes := p.heroes[slot := Some(CreateHero(card))]),
                   Played(card, cost, slot)))
  }

  /**
   * A recruit succeeds exactly when the slot is one of the three and empty, the
   * hand holds a card with the id, the first such card is a hero and the
   * player can pay its recruit cost (the hero-count guard is implied by the
   * empty slot). It then keeps the player valid, adds one hero at full HP,
   * moves that card out of the hand and spends the cost.
   */
  lemma RecruitOutcomeCorrect(p: PlayerState, cardId: string, slot: int)
    requires ValidPlayer(p)
    ensures var r := RecruitOutcome(p, cardId, slot);
            r.Some? <==> 0 <= slot < MaxHeroSlots && p.heroes[slot].None? && FindCard(p.hand, cardId).Some?
                         && p.hand[FindCard(p.hand, cardId).value].kind == HeroCard
                         && p.resources >= RecruitCost(p.heroesLost, p.hand[FindCard(p.hand, cardId).value].cost)
    ensures var r := RecruitOutcome(p, cardId, slot);
            r.Some? ==>
              var (q, played) := r.value;
              ValidPlayer(q) && HeroCount(q.heroes) == HeroCount(p.heroes) + 1
              && played.card.id == cardId && played.card.kind == HeroCard
              && multiset(q.hand) + multiset{played.card} == multiset(p.hand)
              && q.resources == p.resources - played.cost && q.resources >= 0
              && played.cost == RecruitCost(p.heroesLost, played.card.cost)
              && q.heroes[slot] == Some(CreateHero(played.card))
              && (forall k :: 0 <= k < |q.heroes| && k != slot ==> q.heroes[k] == p.heroes[k])
              && q.heroesLost == p.heroesLost && q.maxResources == p.maxResources
  {
    if 0 <= slot < MaxHeroSlots && p.heroes[slot].None? {
      if HeroCount(p.heroes) >= MaxHeroSlots {
        HeroCountFull(p.heroes);
      }
    }
    if RecruitOutcome(p, cardId, slot).Some? {
      var k := FindCard(p.hand, cardId).value;
      HeroCountUpdate(p.heroes, slot, Some(CreateHero(p.hand[k])));
    }
  }

  // ---------------------------------------------------------------------------
  // Equipping an item (playItemFromHand)
  // ---------------------------------------------------------------------------

  /**
   * The hero after taking an item card: a hero whose maximum HP rises gains
   * the difference in current HP, and the HP is clamped to the new maximum.
   */
  function Equip(hero: HeroInstance, card: Card): HeroInstance
  {
    var before := HeroMaxHp(hero);
    var equipped := hero.(items := hero.items + [CreateItem(card)]);
    var after := HeroMaxHp(equipped);
    var hp := if after > before then hero.currentHp + (after - before) else hero.currentHp;
    equipped.(currentHp := ClampHp(hp, after))
  }

  /**
   * Equipping keeps a valid hero valid, appends the item, and an item that does
   * not lower the maximum HP leaves the hero's missing HP unchanged.
   */
  lemma EquipCorrect(hero: HeroInstance, card: Card)
    requires ValidHero(hero) && |hero.items| < MaxItemsPerHero
    ensures var e := Equip(hero, card);
            ValidHero(e) && e.items == hero.items + [CreateItem(card)]
            && e.card == hero.card && e.hasAttacked == hero.hasAttacked
            && (ItemHpBonus(CreateItem(card)) >= 0 ==>
                  HeroMaxHp(e) - e.currentHp == HeroMaxHp(hero) - hero.currentHp && e.currentHp >= hero.currentHp)
  {
    MaxHpAfterEquip(hero, CreateItem(card));
  }

  /**
   * `playItemFromHand`: None when a guard rejects the play (in particular for
   * any card that is not of type item, weapons included), otherwise the
   * player after paying the item's cost and equipping it.
   */
  function EquipOutcome(p: PlayerState, cardId: string, slot: int): (r: Option<(PlayerState, Played)>)
    ensures r.Some? ==> |r.value.0.hand| == |p.hand| - 1
  {
    if slot < 0 || slot >= MaxHeroSlots || slot >= |p.heroes| || p.heroes[slot].None? then None
    else
      var hero := EnsureHeroState(p.heroes[slot].value);
      if |hero.items| >= MaxItemsPerHero then None
      else match FindCard(p.hand, cardId)
        case None => None
        case Some(k) =>
          var card := p.hand[k];
          if card.kind != ItemCard || p.resources < card.cost then None
          else Some((p.(resources := p.resources - card.cost,
                         hand := RemoveAt(p.hand, k),
                         heroes := p.heroes[slot := Some(Equip(hero, card))]),
                     Played(card, card.cost, slot)))
  }

  /**
   * An equip succeeds exactly when the slot holds a hero with fewer than three
   * items and the first card with the id is an affordable item; weapons are
   * never equipped. It keeps the player valid and the board's hero count, and
   * moves the card from the hand onto the hero.
   */
  lemma EquipOutcomeCorrect(p: PlayerState, cardId: string, slot: int)
    requires ValidPlayer(p)
    ensures var r := EquipOutcome(p, cardId, slot);
            r.Some? <==> 0 <= slot < MaxHeroSlots && p.heroes[slot].Some?
                         && |p.heroes[slot].value.items| < MaxItemsPerHero
                         && FindCard(p.hand, cardId).Some?
                         && p.hand[FindCard(p.hand, cardId).value].kind == ItemCard
                         && p.resources >= p.hand[FindCard(p.hand, cardId).value].cost
    ensures var r := EquipOutcome(p, cardId, slot);
            r.Some? ==>
              var (q, played) := r.value;
              ValidPlayer(q) && HeroCount(q.heroes) == HeroCount(p.heroes)
              && played.card.id == cardId && played.card.kind == ItemCard && played.card.kind != WeaponCard
              && multiset(q.hand) + multiset{played.card} == multiset(p.hand)
              && q.resources == p.resources - played.cost >= 0
              && q.heroes[slot] == Some(Equip(p.heroes[slot].value, played.card))
              && (forall k :: 0 <= k < |q.heroes| && k != slot ==> q.heroes[k] == p.heroes[k])
              && q.heroesLost == p.heroesLost
  {
    var r := EquipOutcome(p, cardId, slot);
    if r.Some? {
      var k := FindCard(p.hand, cardId).value;
      var hero := p.heroes[slot].value;
      EquipCorrect(hero, p.hand[k]);
      HeroCountUpdate(p.heroes, slot, Some(Equip(hero, p.hand[k])));
    }
  }

  // ---------------------------------------------------------------------------
  // Resetting attacks (resetCombatActions)
  // ---------------------------------------------------------------------------

  function ResetSlot(slot: Option<HeroInstance>): Option<HeroInstance>
  {
    match slot
    case None => None
    case Some(h) => Some(EnsureHeroState(h).(hasAttacked := false))
  }

  /** Every hero on the board may attack again. */
  function ResetHeroes(heroes: seq<Option<HeroInstance>>): seq<Option<HeroInstance>>
  {
    seq(|heroes|, k requires 0 <= k < |heroes| => ResetSlot(heroes[k]))
  }

  /**
   * After the reset the board is the same and valid, and exactly the heroes
   * with HP left can attack.
   */
  lemma ResetEnablesAttacks(p: PlayerState)
    requires ValidPlayer(p)
    ensures var q := p.(heroes := ResetHeroes(p.heroes));
            ValidPlayer(q)
            && (forall k :: 0 <= k < |q.heroes| ==> (q.heroes[k].Some? <==> p.heroes[k].Some?))
            && forall k: int :: CanHeroAttack(q, k) <==>
                 0 <= k < |p.heroes| && p.heroes[k].Some? && p.heroes[k].value.currentHp > 0
  {
  }

  // ---------------------------------------------------------------------------
  // Applying a combat result (applyCombatResult)
  // ---------------------------------------------------------------------------

  /** A reaction card played during a combat, as the combat result lists it. */
  datatype ReactionRecord = ReactionRecord(
    kind: CardType,
    cardId: string,
    effect: Effect,
    cost: int,
    resourcesAfter: int,
    counterDamageAdded: int)

  /** The record `resolveCombatAsHost` builds and `applyCombatResult` reads. */
  datatype CombatResult = CombatResult(
    attackerPlayerId: PlayerId,
    attackerSlot: int,
    defenderPlayerId: PlayerId,
    defenderSlot: int,
    attackerRoll: int,
    defenderRoll: int,
    attackerTotal: int,
    defenderTotal: int,
    damage: int,
    counterDamageTotal: int,
    isCritical: bool,
    isFumble: bool,
    attackerHpBefore: int,
    attackerHpAfter: int,
    attackerDefeated: bool,
    defenderHpBefore: int,
    defenderHpAfter: int,
    defenderDefeated: bool,
    reactions: seq<ReactionRecord>)

  /** The attacker's hero, if present, is marked as having attacked. */
  function MarkAttacked(p: PlayerState, slot: int): PlayerState
  {
    match SlotHero(p, slot)
    case None => p
    case Some(h) => p.(heroes := p.heroes[slot := Some(EnsureHeroState(h).(hasAttacked := true))])
  }

  /** A hero leaves the board: its slot is emptied and the loss is counted. */
  function Vacate(p: PlayerState, slot: nat): PlayerState
    requires slot < |p.heroes|
  {
    p.(heroes := p.heroes[slot := None], heroesLost := p.heroesLost + 1)
  }

  /** The attacker's side: removed when defeated, otherwise set to the given HP (clamped). */
  function AttackerAfter(p: PlayerState, slot: int, r: CombatResult): (PlayerState, bool)
  {
    match SlotHero(p, slot)
    case None => (p, false)
    case Some(h) =>
      var ready := EnsureHeroState(h);
      if r.attackerDefeated then (Vacate(p, slot), true)
      else (p.(heroes := p.heroes[slot := Some(ready.(currentHp := ClampHp(r.attackerHpAfter, HeroMaxHp(ready))))]), false)
  }

  /** The defender's side: removed when defeated or when the given HP clamps to zero. */
  function DefenderAfter(p: PlayerState, slot: int, r: CombatResult): (PlayerState, bool)
    requires SlotHero(p, slot).Some?
  {
    var ready := EnsureHeroState(SlotHero(p, slot).value);
    if r.defenderDefeated then (Vacate(p, slot), true)
    else
      var hp := ClampHp(r.defenderHpAfter, HeroMaxHp(ready));
      if hp <= 0 then (Vacate(p, slot), true)
      else (p.(heroes := p.heroes[slot := Some(ready.(currentHp := hp))]), false)
  }

  /**
   * `applyCombatResult` on the two players and the counters: whether the
   * result was applied (false when the defender's slot is empty), and the new
   * players and counters.
   */
  function ApplyCombat(ps: Players, t: Tally, r: CombatResult): (Players, Tally, bool)
    requires r.attackerPlayerId != r.defenderPlayerId
  {
    var marked := ps.Set(r.attackerPlayerId, MarkAttacked(ps.Get(r.attackerPlayerId), r.attackerSlot));
    var dp := marked.Get(r.defenderPlayerId);
    if SlotHero(dp, r.defenderSlot).None? then (marked, t, false)
    else
      var (ap, attackerDied) := AttackerAfter(marked.Get(r.attackerPlayerId), r.attackerSlot, r);
      var (dp2, defenderDied) := DefenderAfter(dp, r.defenderSlot, r);
      (marked.Set(r.attackerPlayerId, ap).Set(r.defenderPlayerId, dp2),
       Killed(Killed(t, r.attackerPlayerId, attackerDied), r.defenderPlayerId, defenderDied),
       true)
  }

  lemma MarkAttackedValid(p: PlayerState, slot: int)
    requires ValidPlayer(p)
    ensures ValidPlayer(MarkAttacked(p, slot)) && MarkAttacked(p, slot).heroesLost == p.heroesLost
    ensures forall k :: 0 <= k < |p.heroes| ==> (MarkAttacked(p, slot).heroes[k].Some? <==> p.heroes[k].Some?)
  {
  }

  lemma AttackerAfterCorrect(p: PlayerState, slot: int, r: CombatResult)
    requires ValidPlayer(p)
    ensures var (q, died) := AttackerAfter(p, slot, r);
            ValidPlayer(q)
            && (died <==> SlotHero(p, slot).Some? && r.attackerDefeated)
            && (died ==> SlotHero(q, slot).None? && q.heroesLost == p.heroesLost + 1)
            && (!died ==> q.heroesLost == p.heroesLost)
  {
  }

  lemma DefenderAfterCorrect(p: PlayerState, slot: int, r: CombatResult)
    requires ValidPlayer(p) && SlotHero(p, slot).Some?
    ensures var (q, died) := DefenderAfter(p, slot, r);
            ValidPlayer(q)
            && (r.defenderDefeated ==> died)
            && (died ==> SlotHero(q, slot).None? && q.heroesLost == p.heroesLost + 1)
            && (!died ==> q.heroesLost == p.heroesLost && SlotHero(q, slot).Some?
                          && SlotHero(q, slot).value.currentHp > 0
                          && SlotHero(q, slot).value.currentHp <= Max0(r.defenderHpAfter))
  {
  }

  /**
   * Applying a combat result keeps both players valid and keeps the kill
   * counters consistent with the losses on the board; a defeated defender
   * leaves its slot, a surviving one is left with HP above zero, and both
   * heroes can die in the same exchange.
   */
  lemma ApplyCombatCorrect(ps: Players, t: Tally, r: CombatResult)
    requires r.attackerPlayerId != r.defenderPlayerId
    requires ValidPlayers(ps) && KillsConsistent(t, ps)
    ensures var (ps2, t2, applied) := ApplyCombat(ps, t, r);
            ValidPlayers(ps2) && KillsConsistent(t2, ps2)
            && (applied <==> SlotHero(ps.Get(r.defenderPlayerId), r.defenderSlot).Some?)
            && (applied && r.defenderDefeated ==> SlotHero(ps2.Get(r.defenderPlayerId), r.defenderSlot).None?)
            && ((applied && r.attackerDefeated && SlotHero(ps.Get(r.attackerPlayerId), r.attackerSlot).Some?)
                  ==> SlotHero(ps2.Get(r.attackerPlayerId), r.attackerSlot).None?)
            && ((applied && SlotHero(ps2.Get(r.defenderPlayerId), r.defenderSlot).Some?)
                  ==> SlotHero(ps2.Get(r.defenderPlayerId), r.defenderSlot).value.currentHp > 0)
            && t2.heroesKilledTotal - t.heroesKilledTotal <= 2
            && t2.(heroesKilledTotal := t.heroesKilledTotal, heroesKilledByPlayerA := t.heroesKilledByPlayerA,
                   heroesKilledByPlayerB := t.heroesKilledByPlayerB) == t
  {
    var aId := r.attackerPlayerId;
    var dId := r.defenderPlayerId;
    OpponentInvolutive(aId);
    assert dId == Opponent(aId);
    var a := ps.Get(aId);
    MarkAttackedValid(a, r.attackerSlot);
    var marked := ps.Set(aId, MarkAttacked(a, r.attackerSlot));
    var dp := marked.Get(dId);
    assert dp == ps.Get(dId);
    if SlotHero(dp, r.defenderSlot).Some? {
      AttackerAfterCorrect(marked.Get(aId), r.attackerSlot, r);
      DefenderAfterCorrect(dp, r.defenderSlot, r);
    }
  }

  // ---------------------------------------------------------------------------
  // Playing a reaction (resolveDefenderReactions)
  // ---------------------------------------------------------------------------

  /** `hand.filter((entry) => entry.id !== id)`: every card with the id goes. */
  function WithoutId(hand: seq<Card>, id: string): (r: seq<Card>)
    ensures |r| <= |hand|
    ensures forall c :: c in r ==> c in hand && c.id != id
    ensures forall c :: c in hand && c.id != id ==> c in r
    ensures (exists k :: 0 <= k < |hand| && hand[k].id == id) ==> |r| < |hand|
    decreases |hand|
  {
    if hand == [] then []
    else
      var front := WithoutId(hand[..|hand| - 1], id);
      var last := hand[|hand| - 1];
      assert hand == hand[..|hand| - 1] + [last];
      assert forall k :: 0 <= k < |hand| - 1 ==> hand[k] == hand[..|hand| - 1][k];
      if last.id == id then front else front + [last]
  }

  /** The defender after playing `card`: its id leaves the hand and its cost is paid, down to zero. */
  function ReactedPlayer(p: PlayerState, card: Card): PlayerState
  {
    p.(hand := WithoutId(p.hand, card.id), resources := Max0(p.resources - card.cost))
  }

  /** The context after the chosen outcome: its damage, critical flag and counter totals take over. */
  function ReactedContext(ctx: ReactionContext, a: Applied): ReactionContext
  {
    ctx.(damage := a.nextDamage,
         isCritical := a.nextIsCritical,
         counterDamage := a.counterDamage,
         counterCriticalCount := a.counterCriticalCount,
         counterFumbleCount := a.counterFumbleCount,
         counterattackUsed := a.counterattackUsed || ctx.counterattackUsed)
  }

  /** A played counterattack is counted with the damage it added. */
  function ReactedTally(t: Tally, card: Card, a: Applied): Tally
  {
    if card.kind == CounterattackCard then
      t.(counterattacksUsed := t.counterattacksUsed + 1,
         counterattackDamageDealt := t.counterattackDamageDealt + a.counterDamageAdded)
    else t
  }

  /**
   * `resolveDefenderReactions` from RNG state `s`: the new context, the played
   * reactions (none or one), the defender after paying, the counters and the
   * RNG state after every candidate was evaluated.
   */
  function ReactionOutcome(p: PlayerState, t: Tally, ctx: ReactionContext, s: bv32)
    : (ReactionContext, seq<ReactionRecord>, PlayerState, Tally, bv32)
  {
    var cs := Candidates(p.hand, p.resources);
    var (rs, s1) := EvaluateAll(cs, ctx, s);
    match BestOf(cs, rs, ctx)
    case None => (ctx, [], p, t, s1)
    case Some(k) =>
      var a := rs[k].value;
      var card := cs[k].card;
      var q := ReactedPlayer(p, card);
      (ReactedContext(ctx, a),
       [ReactionRecord(card.kind, card.id, card.effect, card.cost, q.resources, a.counterDamageAdded)],
       q, ReactedTally(t, card, a), s1)
  }

  /**
   * At most one reaction is played per combat, exactly when the choice finds
   * one; without one nothing changes. The board is never touched, and the RNG
   * ends where the evaluation of every candidate left it.
   */
  lemma ReactionOutcomeCorrect(p: PlayerState, t: Tally, ctx: ReactionContext, s: bv32)
    ensures var r := ReactionOutcome(p, t, ctx, s);
            |r.1| <= 1
            && r.2.heroes == p.heroes && r.2.heroesLost == p.heroesLost && r.2.maxResources == p.maxResources
            && r.4 == Choice(p.hand, p.resources, ctx, s).1
            && (r.1 == [] <==> Choice(p.hand, p.resources, ctx, s).0.None?)
            && (r.1 == [] ==> r.0 == ctx && r.2 == p && r.3 == t)
  {
  }

  /**
   * A played reaction is an affordable reactive or counterattack card of the
   * hand; every card with its id leaves the hand, the resources drop by its
   * cost and stay non-negative, the damage never rises above the incoming
   * damage, and a counterattack once used stays used.
   */
  lemma ReactionPlayedCorrect(p: PlayerState, t: Tally, ctx: ReactionContext, s: bv32)
    requires ctx.damage >= 0
    requires Choice(p.hand, p.resources, ctx, s).0.Some?
    ensures var r := ReactionOutcome(p, t, ctx, s);
            var c := Candidates(p.hand, p.resources)[Choice(p.hand, p.resources, ctx, s).0.value];
            c.handIndex < |p.hand| && p.hand[c.handIndex] == c.card && IsReactionCard(c.card, p.resources)
            && r.1 == [ReactionRecord(c.card.kind, c.card.id, c.card.effect, c.card.cost, r.2.resources,
                                      r.1[0].counterDamageAdded)]
            && |r.2.hand| < |p.hand|
            && (forall card :: card in r.2.hand ==> card.id != c.card.id)
            && r.2.resources == Max0(p.resources - c.card.cost)
            && 0 <= r.0.damage <= ctx.damage
            && r.0.counterDamage >= ctx.counterDamage
            && (ctx.counterattackUsed ==> r.0.counterattackUsed)
  {
    var cs := Candidates(p.hand, p.resources);
    var (rs, s1) := EvaluateAll(cs, ctx, s);
    var k := BestOf(cs, rs, ctx).value;
    ChoiceIsPlayable(p.hand, p.resources, ctx, s);
    var c := cs[k];
    assert p.hand[c.handIndex].id == c.card.id;
    EvaluateAllAt(cs, ctx, s, k);
    var sk := EvaluateAll(cs[..k], ctx, s).1;
    if c.card.kind == ReactiveCard {
      assert ApplyReactiveEffect(c.card, ctx).Some?;
      ReactiveEffectNeverRaisesDamage(c.card, ctx);
    } else {
      CounterattackKeepsHit(c.card, ctx, sk);
    }
  }

  /** The k-th outcome of a full evaluation is the k-th card evaluated after the first k. */
  lemma {:induction false} EvaluateAllAt(cs: seq<Candidate>, ctx: ReactionContext, s: bv32, k: nat)
    requires k < |cs|
    ensures EvaluateAll(cs, ctx, s).0[k] == EvaluateCandidate(cs[k].card, ctx, EvaluateAll(cs[..k], ctx, s).1).0
    decreases |cs|
  {
    var n := |cs| - 1;
    if k < n {
      EvaluateAllAt(cs[..n], ctx, s, k);
      assert cs[..n][..k] == cs[..k];
    } else {
      assert cs[..n] == cs[..k];
    }
  }

  // ---------------------------------------------------------------------------
  // Discarding (discardFromHand)
  // ---------------------------------------------------------------------------

  predicate Distinct<T(==)>(s: seq<T>)
  {
    forall i, j :: 0 <= i < j < |s| ==> s[i] != s[j]
  }

  /** `[...new Set(ids)]`: each id once, at its first occurrence. */
  function Dedupe(ids: seq<string>): (r: seq<string>)
    ensures forall x :: x in r <==> x in ids
    ensures Distinct(r)
    decreases |ids|
  {
    if ids == [] then []
    else
      var front := Dedupe(ids[..|ids| - 1]);
      var last := ids[|ids| - 1];
      assert ids == ids[..|ids| - 1] + [last];
      if last in front then front else front + [last]
  }

  /** `.filter(Boolean)` on strings: the empty id is dropped. */
  function NonEmpty(ids: seq<string>): (r: seq<string>)
    ensures forall x :: x in r <==> x in ids && x != ""
    ensures Distinct(ids) ==> Distinct(r)
    decreases |ids|
  {
    if ids == [] then []
    else
      var init := ids[..|ids| - 1];
      var front := NonEmpty(init);
      var last := ids[|ids| - 1];
      assert ids == init + [last];
      assert Distinct(ids) ==> Distinct(init) && last !in init by {
        if Distinct(ids) {
          forall i, j | 0 <= i < j < |init| ensures init[i] != init[j] {
            assert init[i] == ids[i] && init[j] == ids[j];
          }
          forall i | 0 <= i < |init| ensures init[i] != last {
            assert init[i] == ids[i];
          }
        }
      }
      if last == "" then front else front + [last]
  }

  /** The ids a discard acts on. */
  function SelectedIds(cardIds: seq<string>): (r: seq<string>)
    ensures forall x :: x in r <==> x in cardIds && x != ""
    ensures Distinct(r)
  {
    NonEmpty(Dedupe(cardIds))
  }

  /** `new Map(hand.map((card) => [card.id, card]))`: a later card overwrites an earlier one with the same id. */
  function ById(hand: seq<Card>): map<string, Card>
    decreases |hand|
  {
    if hand == [] then map[]
    else ById(hand[..|hand| - 1])[hand[|hand| - 1].id := hand[|hand| - 1]]
  }

  /** The position of the last card with the id. */
  function LastIndex(hand: seq<Card>, id: string): (r: Option<nat>)
    ensures r.Some? ==> r.value < |hand| && hand[r.value].id == id
                        && forall j :: r.value < j < |hand| ==> hand[j].id != id
    ensures r.None? <==> forall j :: 0 <= j < |hand| ==> hand[j].id != id
    decreases |hand|
  {
    if hand == [] then None
    else if hand[|hand| - 1].id == id then Some(|hand| - 1)
    else
      var r := LastIndex(hand[..|hand| - 1], id);
      assert forall j :: 0 <= j < |hand| - 1 ==> hand[..|hand| - 1][j] == hand[j];
      r
  }

  /** The map holds an id exactly when a card has it, and then the last card of the hand with that id. */
  lemma {:induction false} ByIdIsLast(hand: seq<Card>, id: string)
    ensures id in ById(hand) <==> LastIndex(hand, id).Some?
    ensures id in ById(hand) ==> ById(hand)[id] == hand[LastIndex(hand, id).value]
    decreases |hand|
  {
    if hand != [] {
      var front := hand[..|hand| - 1];
      if hand[|hand| - 1].id != id {
        ByIdIsLast(front, id);
        assert LastIndex(hand, id) == LastIndex(front, id);
        if id in ById(front) {
          assert front[LastIndex(front, id).value] == hand[LastIndex(front, id).value];
        }
      }
    }
  }

  /** The cards for `ids` in order, or None as soon as one id has no card. */
  function Lookup(m: map<string, Card>, ids: seq<string>): (r: Option<seq<Card>>)
    ensures r.Some? ==> |r.value| == |ids| && forall i :: 0 <= i < |ids| ==> ids[i] in m && r.value[i] == m[ids[i]]
    ensures r.None? ==> exists i :: 0 <= i < |ids| && ids[i] !in m
    decreases |ids|
  {
    if ids == [] then Some([])
    else
      var last := ids[|ids| - 1];
      match Lookup(m, ids[..|ids| - 1])
      case None => None
      case Some(cs) => if last in m then Some(cs + [m[last]]) else None
  }

  /** One id without a card makes the whole lookup fail. */
  lemma {:induction false} LookupMissing(m: map<string, Card>, ids: seq<string>, i: nat)
    requires i < |ids| && ids[i] !in m
    ensures Lookup(m, ids).None?
    decreases |ids|
  {
    if i < |ids| - 1 {
      LookupMissing(m, ids[..|ids| - 1], i);
    }
  }

  /** `hand.filter((card) => !selected.has(card.id))`. */
  function WithoutIds(hand: seq<Card>, ids: seq<string>): (r: seq<Card>)
    ensures forall c :: c in r <==> c in hand && c.id !in ids
    decreases |hand|
  {
    if hand == [] then []
    else
      var front := hand[..|hand| - 1];
      var last := hand[|hand| - 1];
      assert hand == front + [last];
      var rest := WithoutIds(front, ids);
      if last.id in ids then rest else rest + [last]
  }

  /**
   * `discardFromHand` on a hand: None (and nothing discarded) for an empty id
   * list or when some selected id has no card; otherwise the hand that
   * remains and the discarded cards, one per selected id.
   */
  function DiscardOutcome(hand: seq<Card>, cardIds: seq<string>): Option<(seq<Card>, seq<Card>)>
  {
    if cardIds == [] then None
    else match Lookup(ById(hand), SelectedIds(cardIds))
      case None => None
      case Some(ds) => Some((WithoutIds(hand, SelectedIds(cardIds)), ds))
  }

  /** Distinct cards of the hand carry distinct ids. */
  predicate UniqueIds(hand: seq<Card>)
  {
    forall i, j :: 0 <= i < j < |hand| ==> hand[i].id != hand[j].id
  }

  /** A discard happens exactly when the list is non-empty and every non-empty id in it names a card of the hand. */
  lemma DiscardHappens(hand: seq<Card>, cardIds: seq<string>)
    ensures DiscardOutcome(hand, cardIds).Some? <==>
              cardIds != [] && forall id :: id in cardIds && id != "" ==>
                                 exists k :: 0 <= k < |hand| && hand[k].id == id
  {
    var sel := SelectedIds(cardIds);
    var m := ById(hand);
    if cardIds != [] && Lookup(m, sel).None? {
      var i :| 0 <= i < |sel| && sel[i] !in m;
      ByIdIsLast(hand, sel[i]);
      assert sel[i] in cardIds && sel[i] != "";
    }
    if cardIds != [] && Lookup(m, sel).Some? {
      forall id | id in cardIds && id != ""
        ensures exists k :: 0 <= k < |hand| && hand[k].id == id
      {
        assert id in sel;
        var i :| 0 <= i < |sel| && sel[i] == id;
        ByIdIsLast(hand, id);
        var k := LastIndex(hand, id).value;
        assert hand[k].id == id;
      }
    }
  }

  /**
   * After a discard each discarded card comes from the hand and carries one of
   * the listed ids, there is one card per distinct non-empty id, no card with
   * such an id stays in the hand, and every other card stays.
   */
  lemma DiscardShape(hand: seq<Card>, cardIds: seq<string>)
    requires DiscardOutcome(hand, cardIds).Some?
    ensures var (rest, ds) := DiscardOutcome(hand, cardIds).value;
            |ds| == |SelectedIds(cardIds)|
            && (forall i :: 0 <= i < |ds| ==> ds[i] in hand && ds[i].id in cardIds && ds[i].id != "")
            && (forall i, j :: 0 <= i < j < |ds| ==> ds[i].id != ds[j].id)
            && (forall c :: c in rest <==> c in hand && !(c.id in cardIds && c.id != ""))
  {
    var sel := SelectedIds(cardIds);
    var ds := Lookup(ById(hand), sel).value;
    forall i | 0 <= i < |ds|
      ensures ds[i] in hand && ds[i].id == sel[i]
    {
      ByIdIsLast(hand, sel[i]);
    }
  }

  /** The cards of the hand whose id is selected, in hand order. */
  function WithIds(hand: seq<Card>, ids: seq<string>): (r: seq<Card>)
    ensures forall c :: c in r <==> c in hand && c.id in ids
    decreases |hand|
  {
    if hand == [] then []
    else
      var front := hand[..|hand| - 1];
      var last := hand[|hand| - 1];
      assert hand == front + [last];
      var rest := WithIds(front, ids);
      if last.id in ids then rest + [last] else rest
  }

  /** Filtering by a list of ids and by its complement splits the hand. */
  lemma {:induction false} SplitById(hand: seq<Card>, ids: seq<string>)
    ensures multiset(WithoutIds(hand, ids)) + multiset(WithIds(hand, ids)) == multiset(hand)
    decreases |hand|
  {
    if hand != [] {
      var front := hand[..|hand| - 1];
      SplitById(front, ids);
      assert hand == front + [hand[|hand| - 1]];
    }
  }

  lemma {:induction false} WithIdsDistinct(hand: seq<Card>, ids: seq<string>)
    requires UniqueIds(hand)
    ensures Distinct(WithIds(hand, ids))
    decreases |hand|
  {
    if hand != [] {
      var front := hand[..|hand| - 1];
      var last := hand[|hand| - 1];
      assert UniqueIds(front) by {
        forall i, j | 0 <= i < j < |front| ensures front[i].id != front[j].id {
          assert front[i] == hand[i] && front[j] == hand[j];
        }
      }
      WithIdsDistinct(front, ids);
      var rest := WithIds(front, ids);
      if last.id in ids {
        forall c | c in rest
          ensures c != last
        {
          var k :| 0 <= k < |front| && front[k] == c;
          assert hand[k] == c;
        }
        var r := rest + [last];
        forall i, j | 0 <= i < j < |r|
          ensures r[i] != r[j]
        {
          if j == |r| - 1 {
            assert r[i] in rest;
          } else {
            assert r[i] == rest[i] && r[j] == rest[j];
          }
        }
      }
    }
  }

  /** In a duplicate-free sequence every element occurs once. */
  lemma {:induction false} DistinctCount<T>(a: seq<T>, y: T)
    requires Distinct(a)
    ensures multiset(a)[y] == if y in a then 1 else 0
    decreases |a|
  {
    if a != [] {
      var init := a[..|a| - 1];
      assert a == init + [a[|a| - 1]];
      assert Distinct(init) by {
        forall i, j | 0 <= i < j < |init| ensures init[i] != init[j] {
          assert init[i] == a[i] && init[j] == a[j];
        }
      }
      assert a[|a| - 1] !in init by {
        forall i | 0 <= i < |init| ensures init[i] != a[|a| - 1] {
          assert init[i] == a[i];
        }
      }
      DistinctCount(init, y);
    }
  }

  /** Two duplicate-free sequences with the same elements have the same multiset. */
  lemma DistinctSameElements<T>(a: seq<T>, b: seq<T>)
    requires Distinct(a) && Distinct(b)
    requires forall x :: x in a <==> x in b
    ensures multiset(a) == multiset(b)
  {
    forall y
      ensures multiset(a)[y] == multiset(b)[y]
    {
      DistinctCount(a, y);
      DistinctCount(b, y);
    }
  }

  /**
   * With unique ids in the hand, a discard moves cards and loses none: the
   * remaining hand and the discarded cards are together exactly the hand.
   */
  lemma DiscardPermutes(hand: seq<Card>, cardIds: seq<string>)
    requires UniqueIds(hand)
    requires DiscardOutcome(hand, cardIds).Some?
    ensures var (rest, ds) := DiscardOutcome(hand, cardIds).value;
            multiset(rest) + multiset(ds) == multiset(hand)
  {
    var sel := SelectedIds(cardIds);
    var ds := Lookup(ById(hand), sel).value;
    SplitById(hand, sel);
    var kept := WithIds(hand, sel);
    forall c
      ensures c in kept <==> c in ds
    {
      if c in ds {
        var i :| 0 <= i < |ds| && ds[i] == c;
        ByIdIsLast(hand, sel[i]);
      }
      if c in kept {
        var i :| 0 <= i < |sel| && sel[i] == c.id;
        var k2 :| 0 <= k2 < |hand| && hand[k2] == c;
        ByIdIsLast(hand, sel[i]);
        var k := LastIndex(hand, sel[i]).value;
        assert hand[k].id == hand[k2].id;
        assert k == k2;
        assert ds[i] == c;
      }
    }
    assert Distinct(ds) by {
      forall i, j | 0 <= i < j < |ds| ensures ds[i] != ds[j] {
        ByIdIsLast(hand, sel[i]);
        ByIdIsLast(hand, sel[j]);
        assert ds[i].id == sel[i] && ds[j].id == sel[j];
      }
    }
    WithIdsDistinct(hand, sel);
    DistinctSameElements(kept, ds);
  }

  // ---------------------------------------------------------------------------
  // End-of-turn durability (applyEndTurnDurability)
  // ---------------------------------------------------------------------------

  /**
   * One item at the end of its owner's turn: an item without durability is
   * kept as it is; otherwise its durability drops by one and it breaks at zero.
   */
  function DecayItem(item: ItemInstance): Option<ItemInstance>
  {
    var base := item.card.stats.durability;
    if base <= 0 then Some(item)
    else
      var current := match item.currentDurability case Some(d) => d case None => base;
      var next := Max0(current - 1);
      if next > 0 then Some(item.(currentDurability := Some(next))) else None
  }

  /** The surviving items, in their order. */
  function DecayItems(items: seq<ItemInstance>): (r: seq<ItemInstance>)
    ensures |r| <= |items|
    ensures forall it :: it in items && it.card.stats.durability <= 0 ==> it in r
    ensures forall it :: it in r ==> it.card.stats.durability <= 0
                                     || (it.currentDurability.Some? && it.currentDurability.value > 0)
    decreases |items|
  {
    if items == [] then []
    else
      var front := items[..|items| - 1];
      var last := items[|items| - 1];
      assert items == front + [last];
      var rest := DecayItems(front);
      match DecayItem(last)
      case None => rest
      case Some(it) => rest + [it]
  }

  /** A hero at the end of its owner's turn: items decay and HP is clamped to the new maximum. */
  function DecayHero(h: HeroInstance): HeroInstance
  {
    var ready := EnsureHeroState(h);
    var worn := ready.(items := DecayItems(ready.items));
    worn.(currentHp := ClampHp(worn.currentHp, HeroMaxHp(worn)))
  }

  function DecaySlots(heroes: seq<Option<HeroInstance>>): seq<Option<HeroInstance>>
  {
    seq(|heroes|, k requires 0 <= k < |heroes| =>
      match heroes[k] case None => None case Some(h) => Some(DecayHero(h)))
  }

  function DecayPlayer(p: PlayerState): PlayerState
  {
    p.(heroes := DecaySlots(p.heroes))
  }

  /**
   * A tracked item loses one point of durability and breaks when none is left;
   * an item without durability is never touched.
   */
  lemma DecayItemCorrect(item: ItemInstance)
    ensures item.card.stats.durability <= 0 ==> DecayItem(item) == Some(item)
    ensures item.card.stats.durability > 0 && item.currentDurability.Some? ==>
              (DecayItem(item).None? <==> item.currentDurability.value <= 1)
              && (DecayItem(item).Some? ==>
                    DecayItem(item).value.currentDurability == Some(item.currentDurability.value - 1))
  {
  }

  /** A decayed hero is valid again: its HP fits its new maximum and it holds no more items. */
  lemma DecayHeroValid(h: HeroInstance)
    requires |h.items| <= MaxItemsPerHero
    ensures ValidHero(DecayHero(h))
  {
    var ready := EnsureHeroState(h);
    assert |DecayItems(ready.items)| <= |ready.items|;
  }

  /** The end-of-turn pass keeps the player valid and removes no hero. */
  lemma DecayPlayerCorrect(p: PlayerState)
    requires ValidPlayer(p)
    ensures var q := DecayPlayer(p);
            ValidPlayer(q) && q.hand == p.hand && q.resources == p.resources && q.heroesLost == p.heroesLost
            && (forall k :: 0 <= k < |p.heroes| ==> (q.heroes[k].Some? <==> p.heroes[k].Some?))
            && (HasHeroes(q.heroes) <==> HasHeroes(p.heroes))
  {
    var q := DecayPlayer(p);
    assert |q.heroes| == |p.heroes|;
    forall k | 0 <= k < |p.heroes|
      ensures (q.heroes[k].Some? <==> p.heroes[k].Some?)
      ensures q.heroes[k].Some? ==> ValidHero(q.heroes[k].value)
    {
      if p.heroes[k].Some? {
        assert q.heroes[k] == Some(DecayHero(p.heroes[k].value));
        DecayHeroValid(p.heroes[k].value);
      }
    }
    if HasHeroes(p.heroes) {
      var k :| 0 <= k < |p.heroes| && p.heroes[k].Some?;
      assert q.heroes[k].Some?;
    }
    if HasHeroes(q.heroes) {
      var k :| 0 <= k < |q.heroes| && q.heroes[k].Some?;
      assert p.heroes[k].Some?;
    }
  }

  // ---------------------------------------------------------------------------
  // Finishing a turn (finishTurn)
  // ---------------------------------------------------------------------------

  /**
   * `finishTurn`: durability for the active player; a player left without a
   * hero loses, otherwise the turn passes and the next player's resources
   * refill. Returns the new status, the players and whether the match ended.
   */
  function Finish(g: GameStatus, ps: Players): (GameStatus, Players, bool)
  {
    var active := g.currentTurn;
    var worn := ps.Set(active, DecayPlayer(ps.Get(active)));
    if !HasHeroes(worn.Get(active).heroes) then
      (g.(phase := Ended, turnPhase := EndPhase, winner := Some(Opponent(active))), worn, true)
    else
      var next := Opponent(active);
      var refilled := worn.Get(next).(resources := worn.Get(next).maxResources);
      (g.(currentTurn := next,
          turn := if next == PlayerA then g.turn + 1 else g.turn,
          turnPhase := DrawPhase),
       worn.Set(next, refilled),
       false)
  }

  /**
   * The match ends exactly when the active player has no hero left, and then
   * the opponent wins; otherwise the opponent moves next with full resources
   * and the turn counter advances exactly when play returns to player A.
   * Players stay valid and no hero leaves the board.
   */
  lemma FinishCorrect(g: GameStatus, ps: Players)
    requires ValidPlayers(ps)
    ensures var (g2, ps2, ended) := Finish(g, ps);
            ValidPlayers(ps2)
            && (ended <==> !HasHeroes(ps.Get(g.currentTurn).heroes))
            && (ended ==> g2.phase == Ended && g2.winner == Some(Opponent(g.currentTurn))
                          && g2.turn == g.turn && g2.turnPhase == EndPhase)
            && (!ended ==> g2.phase == g.phase && g2.winner == g.winner
                           && g2.currentTurn == Opponent(g.currentTurn)
                           && g2.turnPhase == DrawPhase
                           && g2.turn == (if g.currentTurn == PlayerB then g.turn + 1 else g.turn)
                           && ps2.Get(g2.currentTurn).resources == ps2.Get(g2.currentTurn).maxResources)
            && g2.firstTurnPlayer == g.firstTurnPlayer
            && (ended ==> !HasHeroes(ps2.Get(g.currentTurn).heroes))
            && ps2.Get(Opponent(g.currentTurn)).heroes == ps.Get(Opponent(g.currentTurn)).heroes
            && ps2.a.heroesLost == ps.a.heroesLost && ps2.b.heroesLost == ps.b.heroesLost
  {
    var active := g.currentTurn;
    DecayPlayerCorrect(ps.Get(active));
    OpponentInvolutive(active);
  }
}
