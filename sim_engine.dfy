/**
 * The headless match engine: one match object whose deck, discard pile,
 * players, status and counters its operations update in place, the
 * simulation of a whole game between two baseline bots, and a run of many
 * games. Each operation is proved to agree with the state transition of
 * module SimState (or of this module) that specifies it.
 */
module SimEngine {
  import opened Wrappers
  import opened SimRules
  import opened SimCombat
  import opened SimState
  import opened BotBaseline
  import Rng
  import Text

  /** `hand.some((card) => card.type === 'hero')`. */
  predicate HasHeroCard(hand: seq<Card>)
  {
    exists k :: 0 <= k < |hand| && hand[k].kind == HeroCard
  }

  /** min(count, available) for a positive count, else 0: how many cards a draw takes. */
  function DrawCount(count: int, available: nat): (n: nat)
    ensures n <= available
    ensures count > 0 && count <= available ==> n == count
    ensures count > available ==> n == available
    ensures count <= 0 ==> n == 0
  {
    if count <= 0 then 0 else if count < available then count else available
  }

  /** The counters one combat adds, read off its result. */
  function CombatTally(t: Tally, r: CombatResult): Tally
  {
    t.(totalAttacks := t.totalAttacks + 1,
       totalDamageDealt := t.totalDamageDealt + r.damage,
       totalCounterDamageDealt := t.totalCounterDamageDealt + r.counterDamageTotal,
       criticalCount := t.criticalCount + (if r.isCritical then 1 else 0),
       fumbleCount := t.fumbleCount + (if r.isFumble then 1 else 0),
       attackerDeathsByCounter := t.attackerDeathsByCounter + (if r.attackerDefeated then 1 else 0))
  }

  /** The context the defender reacts to: the exchange damage and critical flag, before any reaction. */
  function OpeningContext(a: CombatStats, d: CombatStats, attackRoll: int, defenceRoll: int): ReactionContext
  {
    ReactionContext(ExchangeDamage(a.atk, d.def, attackRoll, defenceRoll), attackRoll == 20, CriticalBonus,
                    d.hp, a.def, 0, 0, 0, false)
  }

  /** The combat result after the reactions: HP after the hit and the counter damage, each floored at 0. */
  function ResultOf(aId: PlayerId, aSlot: int, dSlot: int, a: CombatStats, d: CombatStats,
                    attackRoll: int, defenceRoll: int, c: ReactionContext, reactions: seq<ReactionRecord>): CombatResult
  {
    var defenderHpAfter := Max0(d.hp - c.damage);
    var attackerHpAfter := Max0(a.hp - c.counterDamage);
    CombatResult(
      aId, aSlot, Opponent(aId), dSlot, attackRoll, defenceRoll, a.atk + attackRoll, d.def + defenceRoll,
      c.damage, c.counterDamage, c.isCritical, attackRoll == 1,
      a.hp, attackerHpAfter, attackerHpAfter <= 0, d.hp, defenderHpAfter, defenderHpAfter <= 0,
      reactions)
  }

  /**
   * `resolveCombatAsHost` from RNG state `s`: None when either slot is empty or
   * the attacker cannot attack; otherwise the combat result, the players and
   * counters after it, and the RNG state after the two rolls and the
   * reaction's evaluation.
   */
  function ExchangeOutcome(ps: Players, t: Tally, aId: PlayerId, aSlot: int, dSlot: int, s: bv32)
    : Option<(CombatResult, Players, Tally, bv32)>
  {
    var dId := Opponent(aId);
    var attacker := SlotHero(ps.Get(aId), aSlot);
    var defender := SlotHero(ps.Get(dId), dSlot);
    if attacker.None? || defender.None? || !CanHeroAttack(ps.Get(aId), aSlot) then None
    else
      var aStats := HeroCombatStats(attacker.value);
      var dStats := HeroCombatStats(defender.value);
      var roll1 := Rng.DrawInt(s, 1, 20);
      var roll2 := Rng.DrawInt(roll1.1, 1, 20);
      var ctx := OpeningContext(aStats, dStats, roll1.0, roll2.0);
      var ro := ReactionOutcome(ps.Get(dId), t, ctx, roll2.1);
      var result := ResultOf(aId, aSlot, dSlot, aStats, dStats, roll1.0, roll2.0, ro.0, ro.1);
      var applied := ApplyCombat(ps.Set(dId, ro.2), CombatTally(ro.3, result), result);
      Some((result, applied.0, applied.1, ro.4))
  }

  /**
   * A combat happens exactly when both slots hold heroes and the attacker can
   * attack. Then both rolls are d20s drawn first, attacker before defender;
   * the damage is never negative and never above the rolled damage, a fumble
   * deals none, the defender's HP after the hit is its HP before less the
   * damage (floored at 0) and it is defeated exactly at 0; at most one
   * reaction is played and one attack is counted; players stay valid and the
   * kill counters consistent.
   */
  lemma ExchangeOutcomeCorrect(ps: Players, t: Tally, aId: PlayerId, aSlot: int, dSlot: int, s: bv32)
    requires ValidPlayers(ps) && KillsConsistent(t, ps)
    ensures var x := ExchangeOutcome(ps, t, aId, aSlot, dSlot, s);
            x.Some? <==> SlotHero(ps.Get(aId), aSlot).Some? && SlotHero(ps.Get(Opponent(aId)), dSlot).Some?
                         && CanHeroAttack(ps.Get(aId), aSlot)
    ensures var x := ExchangeOutcome(ps, t, aId, aSlot, dSlot, s);
            x.Some? ==>
              var (r, ps2, t2, s2) := x.value;
              ValidPlayers(ps2) && KillsConsistent(t2, ps2)
              && r.attackerRoll == Rng.DrawInt(s, 1, 20).0 && 1 <= r.attackerRoll <= 20
              && r.defenderRoll == Rng.DrawInt(Rng.DrawInt(s, 1, 20).1, 1, 20).0 && 1 <= r.defenderRoll <= 20
              && r.damage >= 0 && (r.isFumble ==> r.damage == 0)
              && r.damage <= ExchangeDamage(HeroCombatStats(SlotHero(ps.Get(aId), aSlot).value).atk,
                                            HeroCombatStats(SlotHero(ps.Get(Opponent(aId)), dSlot).value).def,
                                            r.attackerRoll, r.defenderRoll)
              && r.defenderHpAfter == Max0(r.defenderHpBefore - r.damage)
              && (r.defenderDefeated <==> r.defenderHpAfter == 0)
              && r.counterDamageTotal >= 0 && (r.attackerDefeated <==> r.attackerHpAfter == 0)
              && |r.reactions| <= 1
              && t2.totalAttacks == t.totalAttacks + 1
  {
    ExchangeResultCorrect(ps, t, aId, aSlot, dSlot, s);
    ExchangeStateCorrect(ps, t, aId, aSlot, dSlot, s);
  }

  /** The result part of `ExchangeOutcomeCorrect`. */
  lemma ExchangeResultCorrect(ps: Players, t: Tally, aId: PlayerId, aSlot: int, dSlot: int, s: bv32)
    requires ValidPlayers(ps) && KillsConsistent(t, ps)
    ensures var x := ExchangeOutcome(ps, t, aId, aSlot, dSlot, s);
            x.Some? ==>
              var r := x.value.0;
              r.attackerRoll == Rng.DrawInt(s, 1, 20).0 && 1 <= r.attackerRoll <= 20
              && r.defenderRoll == Rng.DrawInt(Rng.DrawInt(s, 1, 20).1, 1, 20).0 && 1 <= r.defenderRoll <= 20
              && r.damage >= 0 && (r.isFumble ==> r.damage == 0)
              && r.damage <= ExchangeDamage(HeroCombatStats(SlotHero(ps.Get(aId), aSlot).value).atk,
                                            HeroCombatStats(SlotHero(ps.Get(Opponent(aId)), dSlot).value).def,
                                            r.attackerRoll, r.defenderRoll)
              && r.defenderHpAfter == Max0(r.defenderHpBefore - r.damage)
              && (r.defenderDefeated <==> r.defenderHpAfter == 0)
              && r.counterDamageTotal >= 0 && (r.attackerDefeated <==> r.attackerHpAfter == 0)
              && |r.reactions| <= 1
  {
    var x := ExchangeOutcome(ps, t, aId, aSlot, dSlot, s);
    if x.Some? {
      var dId := Opponent(aId);
      var aStats := HeroCombatStats(SlotHero(ps.Get(aId), aSlot).value);
      var dStats := HeroCombatStats(SlotHero(ps.Get(dId), dSlot).value);
      var roll1 := Rng.DrawInt(s, 1, 20);
      var roll2 := Rng.DrawInt(roll1.1, 1, 20);
      var ctx := OpeningContext(aStats, dStats, roll1.0, roll2.0);
      ReactionBounds(ps.Get(dId), t, ctx, roll2.1);
    }
  }

  /** The reaction step plays at most one card, never raises the damage and never lowers the counter damage. */
  lemma ReactionBounds(p: PlayerState, t: Tally, ctx: ReactionContext, s: bv32)
    requires ctx.damage >= 0
    ensures var ro := ReactionOutcome(p, t, ctx, s);
            |ro.1| <= 1 && 0 <= ro.0.damage <= ctx.damage && ro.0.counterDamage >= ctx.counterDamage
  {
    ReactionOutcomeCorrect(p, t, ctx, s);
    if Choice(p.hand, p.resources, ctx, s).0.Some? {
      ReactionPlayedCorrect(p, t, ctx, s);
    }
  }

  /** The state part of `ExchangeOutcomeCorrect`. */
  lemma ExchangeStateCorrect(ps: Players, t: Tally, aId: PlayerId, aSlot: int, dSlot: int, s: bv32)
    requires ValidPlayers(ps) && KillsConsistent(t, ps)
    ensures var x := ExchangeOutcome(ps, t, aId, aSlot, dSlot, s);
            x.Some? ==>
              ValidPlayers(x.value.1) && KillsConsistent(x.value.2, x.value.1)
              && x.value.2.totalAttacks == t.totalAttacks + 1
  {
    var x := ExchangeOutcome(ps, t, aId, aSlot, dSlot, s);
    if x.Some? {
      var dId := Opponent(aId);
      var aStats := HeroCombatStats(SlotHero(ps.Get(aId), aSlot).value);
      var dStats := HeroCombatStats(SlotHero(ps.Get(dId), dSlot).value);
      var roll1 := Rng.DrawInt(s, 1, 20);
      var roll2 := Rng.DrawInt(roll1.1, 1, 20);
      var ctx := OpeningContext(aStats, dStats, roll1.0, roll2.0);
      var d := ps.Get(dId);
      ReactionOutcomeCorrect(d, t, ctx, roll2.1);
      var ro := ReactionOutcome(d, t, ctx, roll2.1);
      if ro.1 != [] {
        ReactionPlayedCorrect(d, t, ctx, roll2.1);
      }
      SetPlayerValid(ps, t, dId, ro.2);
      ApplyCombatCorrect(ps.Set(dId, ro.2), CombatTally(ro.3, x.value.0), x.value.0);
    }
  }


  /** `gameRng.int(0, 1) === 0 ? 'player_a' : 'player_b'`. */
  function FirstPlayer(roll: int): PlayerId
  {
    if roll == 0 then PlayerA else PlayerB
  }

  /** The recruit cost callback the engine hands the bot, `getRecruitCost` for a player with `lost` losses. */
  function RecruitCostOf(lost: nat): int -> int
  {
    (b: int) => RecruitCost(lost, b)
  }

  /** Deck, hand and generator state after a mulligan. */
  datatype Redraw = Redraw(deck: seq<Card>, hand: seq<Card>, state: bv32)

  /** The hand is put under the deck, the deck is shuffled and seven cards (or all there are) are drawn. */
  function Mulligan(deck: seq<Card>, hand: seq<Card>, s: bv32): Redraw
  {
    var shuffled := Rng.Shuffled(deck + hand, s);
    var n := DrawCount(HandLimit, |shuffled.0|);
    Redraw(shuffled.0[n..], shuffled.0[..n], shuffled.1)
  }

  /**
   * A mulligan loses no card and creates none: the new deck and hand hold
   * exactly the cards of the old ones, and the new hand has seven cards
   * unless fewer than seven exist.
   */
  lemma MulliganPermutes(deck: seq<Card>, hand: seq<Card>, s: bv32)
    ensures var m := Mulligan(deck, hand, s);
            multiset(m.deck) + multiset(m.hand) == multiset(deck) + multiset(hand)
            && |m.hand| == (if |deck| + |hand| < HandLimit then |deck| + |hand| else HandLimit)
  {
    var shuffled := Rng.Shuffled(deck + hand, s).0;
    Rng.ShuffledProperties(deck + hand, s);
    var n := DrawCount(HandLimit, |shuffled|);
    assert shuffled == shuffled[..n] + shuffled[n..];
  }

  // ---------------------------------------------------------------------------
  // The recruit phase (runRecruitPhase)
  // ---------------------------------------------------------------------------

  /** The recruit pick of the baseline bot, priced with the player's own losses. */
  function RecruitPlay(p: PlayerState): Option<CardPlay>
  {
    PickHeroRecruitPlay(p, RecruitCostOf(p.heroesLost))
  }

  /** The hero loop stops here: the bot has no pick, or the pick is refused. */
  predicate RecruitStops(p: PlayerState)
  {
    match RecruitPlay(p)
    case None => true
    case Some(play) => RecruitOutcome(p, play.cardId, play.slot).None?
  }

  /**
   * The first loop of `runRecruitPhase`: the player after recruiting the
   * bot's picks until the bot has none or a play is refused, and how many
   * heroes were recruited.
   */
  function HeroRecruits(p: PlayerState): (PlayerState, nat)
    decreases |p.hand|
  {
    match RecruitPlay(p)
    case None => (p, 0)
    case Some(play) =>
      match RecruitOutcome(p, play.cardId, play.slot)
      case None => (p, 0)
      case Some((q, _)) => var r := HeroRecruits(q); (r.0, r.1 + 1)
  }

  /**
   * The hero loop ends where no further recruit happens; each recruit adds a
   * hero and spends a card, so there are at most as many as there were empty
   * slots, and losses and maximum resources stay as they were.
   */
  lemma {:induction false} HeroRecruitsCorrect(p: PlayerState)
    requires ValidPlayer(p)
    ensures var (q, n) := HeroRecruits(p);
            ValidPlayer(q) && RecruitStops(q)
            && (n == 0 <==> RecruitStops(p)) && (n == 0 ==> q == p)
            && HeroCount(q.heroes) == HeroCount(p.heroes) + n && n <= MaxHeroSlots - HeroCount(p.heroes)
            && |q.hand| + n == |p.hand|
            && q.heroesLost == p.heroesLost && q.maxResources == p.maxResources
    decreases |p.hand|
  {
    match RecruitPlay(p)
    case None =>
    case Some(play) =>
      RecruitOutcomeCorrect(p, play.cardId, play.slot);
      match RecruitOutcome(p, play.cardId, play.slot)
      case None =>
      case Some((q, _)) =>
        HeroRecruitsCorrect(q);
        assert HeroCount(HeroRecruits(q).0.heroes) <= MaxHeroSlots;
  }

  /** With distinct card ids the baseline never picks a recruit the engine refuses: the loop stops only when there is no pick. */
  lemma BaselineRecruitPickSucceeds(p: PlayerState)
    requires ValidPlayer(p) && UniqueIds(p.hand)
    ensures RecruitStops(p) <==> RecruitPlay(p).None?
  {
    var cost := RecruitCostOf(p.heroesLost);
    if RecruitPlay(p).Some? {
      PickHeroRecruitPlayCorrect(p, cost);
      var e := HeroChoice(p, cost).value;
      var play := RecruitPlay(p).value;
      assert p.hand[e.index].id == play.cardId;
      var k := FindCard(p.hand, play.cardId).value;
      assert k == e.index;
      RecruitOutcomeCorrect(p, play.cardId, play.slot);
    }
  }

  /** The equip pick of the baseline bot, as a value. */
  function EquipPlay(p: PlayerState): Option<CardPlay>
  {
    PlayOf(EquipOrder(p), EquipChoice(p))
  }

  /** The equip loop stops here: the bot has no pick, or the pick is refused. */
  predicate EquipStops(p: PlayerState)
  {
    match EquipPlay(p)
    case None => true
    case Some(play) => EquipOutcome(p, play.cardId, play.slot).None?
  }

  /** The second loop of `runRecruitPhase`: the player after equipping the bot's picks, and how many items went on. */
  function EquipAll(p: PlayerState): (PlayerState, nat)
    decreases |p.hand|
  {
    match EquipPlay(p)
    case None => (p, 0)
    case Some(play) =>
      match EquipOutcome(p, play.cardId, play.slot)
      case None => (p, 0)
      case Some((q, _)) => var r := EquipAll(q); (r.0, r.1 + 1)
  }

  /** The equip loop ends where no further equip happens; it keeps the heroes on the board, the losses and the maximum resources. */
  lemma {:induction false} EquipAllCorrect(p: PlayerState)
    requires ValidPlayer(p)
    ensures var (q, n) := EquipAll(p);
            ValidPlayer(q) && EquipStops(q)
            && (n == 0 <==> EquipStops(p)) && (n == 0 ==> q == p)
            && HeroCount(q.heroes) == HeroCount(p.heroes) && |q.hand| + n == |p.hand|
            && q.heroesLost == p.heroesLost && q.maxResources == p.maxResources
    decreases |p.hand|
  {
    match EquipPlay(p)
    case None =>
    case Some(play) =>
      EquipOutcomeCorrect(p, play.cardId, play.slot);
      match EquipOutcome(p, play.cardId, play.slot)
      case None =>
      case Some((q, _)) => EquipAllCorrect(q);
  }

  /**
   * With distinct card ids, an item the baseline picks is always equipped,
   * while a picked weapon is refused (only cards of type item can be played
   * onto a hero) and so ends the equip loop, even when an item would fit.
   */
  lemma BaselineEquipPickOutcome(p: PlayerState)
    requires ValidPlayer(p) && UniqueIds(p.hand) && EquipChoice(p).Some?
    ensures var e := EquipOrder(p)[EquipChoice(p).value.0];
            EquipStops(p) <==> e.item.kind == WeaponCard
  {
    EquipChoiceCorrect(p);
    var (c, slot) := EquipChoice(p).value;
    var e := EquipOrder(p)[c];
    var play := EquipPlay(p).value;
    var k := FindCard(p.hand, play.cardId).value;
    assert k == e.index;
    EquipOutcomeCorrect(p, play.cardId, play.slot);
  }

  // ---------------------------------------------------------------------------
  // The combat phase (runCombatPhase)
  // ---------------------------------------------------------------------------

  /** Players, counters and generator state carried through a run of attacks. */
  datatype Fight = Fight(players: Players, tally: Tally, state: bv32)

  /**
   * The attack loop of `runCombatPhase`: the attacks are resolved in order
   * (an attack that cannot resolve changes nothing) and the loop stops as
   * soon as the defender has no hero left.
   */
  function CombatRun(f: Fight, aId: PlayerId, attacks: seq<Attack>): Fight
    decreases |attacks|
  {
    if attacks == [] || !HasHeroes(f.players.Get(Opponent(aId)).heroes) then f
    else match ExchangeOutcome(f.players, f.tally, aId, attacks[0].attackerSlot, attacks[0].defenderSlot, f.state)
      case None => CombatRun(f, aId, attacks[1..])
      case Some((_, ps, t, s)) => CombatRun(Fight(ps, t, s), aId, attacks[1..])
  }

  /** While the defender has a hero, a run of attacks is the first exchange's outcome followed by the run of the rest. */
  lemma CombatRunStep(f: Fight, aId: PlayerId, attacks: seq<Attack>)
    requires attacks != [] && HasHeroes(f.players.Get(Opponent(aId)).heroes)
    ensures var ex := ExchangeOutcome(f.players, f.tally, aId, attacks[0].attackerSlot, attacks[0].defenderSlot, f.state);
            CombatRun(f, aId, attacks)
            == CombatRun(if ex.None? then f else Fight(ex.value.1, ex.value.2, ex.value.3), aId, attacks[1..])
  {
  }

  /** The attacks the baseline bot declares for `aId`, decided before any of them is fought. */
  function DeclaredAttacks(ps: Players, aId: PlayerId): seq<Attack>
  {
    var attacker := ps.Get(aId);
    BaselineAttacks(ps.Get(Opponent(aId)).heroes, (slot: nat) => CanHeroAttack(attacker, slot))
  }

  /**
   * A run of attacks keeps the players valid and the kill counters
   * consistent, counts at most one attack per declared attack, and leaves a
   * defender without heroes untouched.
   */
  lemma {:induction false} CombatRunCorrect(f: Fight, aId: PlayerId, attacks: seq<Attack>)
    requires ValidPlayers(f.players) && KillsConsistent(f.tally, f.players)
    ensures var g := CombatRun(f, aId, attacks);
            ValidPlayers(g.players) && KillsConsistent(g.tally, g.players)
            && f.tally.totalAttacks <= g.tally.totalAttacks <= f.tally.totalAttacks + |attacks|
            && (!HasHeroes(f.players.Get(Opponent(aId)).heroes) ==> g == f)
    decreases |attacks|
  {
    if attacks != [] && HasHeroes(f.players.Get(Opponent(aId)).heroes) {
      var at := attacks[0];
      ExchangeOutcomeCorrect(f.players, f.tally, aId, at.attackerSlot, at.defenderSlot, f.state);
      match ExchangeOutcome(f.players, f.tally, aId, at.attackerSlot, at.defenderSlot, f.state)
      case None => CombatRunCorrect(f, aId, attacks[1..]);
      case Some((_, ps, t, s)) => CombatRunCorrect(Fight(ps, t, s), aId, attacks[1..]);
    }
  }

  /** The ids `runDiscardPhase` asks to discard: none while the hand is within the limit, else the bot's pick. */
  function DiscardPick(hand: seq<Card>): (ids: seq<string>)
    ensures |hand| <= HandLimit ==> ids == []
    ensures |hand| > HandLimit ==> ids == PickDiscardCardIds(hand, |hand| - HandLimit)
  {
    var required := RequiredDiscardCount(hand);
    if required <= 0 then [] else PickDiscardCardIds(hand, required)
  }

  /** The loop of `drawCards` on values: cards are shifted off the deck and pushed onto the hand until `count` or the deck runs out. */
  method TakeCards(hand0: seq<Card>, deck0: seq<Card>, count: int) returns (drawn: nat, hand: seq<Card>, rest: seq<Card>)
    ensures drawn == DrawCount(count, |deck0|)
    ensures hand == hand0 + deck0[..drawn] && rest == deck0[drawn..]
  {
    rest := deck0;
    hand := hand0;
    drawn := 0;
    while drawn < count && rest != []
      invariant drawn <= |deck0| && (count <= 0 ==> drawn == 0) && (count > 0 ==> drawn <= count)
      invariant rest == deck0[drawn..] && hand == hand0 + deck0[..drawn]
    {
      assert deck0[..drawn + 1] == deck0[..drawn] + [rest[0]];
      hand := hand + [rest[0]];
      rest := rest[1..];
      drawn := drawn + 1;
    }
  }

  // ---------------------------------------------------------------------------
  // The phases of one game (runSingleGame)
  // ---------------------------------------------------------------------------

  /** `drawCards`: up to `count` cards leave the front of the deck and join the end of the player's hand. */
  function DrawInto(deck: seq<Card>, ps: Players, t: Tally, id: PlayerId, count: int): (seq<Card>, Players, Tally)
  {
    var n := DrawCount(count, |deck|);
    (deck[n..], ps.Set(id, ps.Get(id).(hand := ps.Get(id).hand + deck[..n])),
     t.(cardsDrawnTotal := t.cardsDrawnTotal + n))
  }

  /** `runOpeningMulliganIfNeeded`: a hand without a hero card is mulliganed once; any other hand is kept. */
  function MulliganIfNeeded(deck: seq<Card>, ps: Players, t: Tally, id: PlayerId, s: bv32): (seq<Card>, Players, Tally, bv32)
  {
    var hand := ps.Get(id).hand;
    if HasHeroCard(hand) then (deck, ps, t, s)
    else
      var m := Mulligan(deck, hand, s);
      (m.deck, ps.Set(id, ps.Get(id).(hand := m.hand)),
       t.(mulliganCount := t.mulliganCount + 1,
          cardsDiscardedTotal := t.cardsDiscardedTotal + |hand|,
          cardsDrawnTotal := t.cardsDrawnTotal + |m.hand|),
       m.state)
  }

  /** The opening of `runSingleGame`: seven cards to the first player, seven to the other, then each one's mulligan. */
  function OpeningDeal(deck: seq<Card>, ps: Players, t: Tally, first: PlayerId, s: bv32): (seq<Card>, Players, Tally, bv32)
  {
    var (d1, p1, t1) := DrawInto(deck, ps, t, first, HandLimit);
    var (d2, p2, t2) := DrawInto(d1, p1, t1, Opponent(first), HandLimit);
    var (d3, p3, t3, s3) := MulliganIfNeeded(d2, p2, t2, first, s);
    MulliganIfNeeded(d3, p3, t3, Opponent(first), s3)
  }

  /** Every card of the deck and of both hands. */
  function AllCards(deck: seq<Card>, ps: Players): multiset<Card>
  {
    multiset(deck) + multiset(ps.Get(PlayerA).hand) + multiset(ps.Get(PlayerB).hand)
  }

  /**
   * Cards only moved between the deck and the hand of player `id`: nothing
   * else of either player changed, and no card was lost or created.
   */
  predicate CardsMoved(d0: seq<Card>, p0: Players, d1: seq<Card>, p1: Players, id: PlayerId)
  {
    p1 == p0.Set(id, p0.Get(id).(hand := p1.Get(id).hand))
    && multiset(d1) + multiset(p1.Get(id).hand) == multiset(d0) + multiset(p0.Get(id).hand)
  }

  /** Moving cards between the deck and one hand keeps all the cards of the game. */
  lemma CardsMovedKeepsAll(d0: seq<Card>, p0: Players, d1: seq<Card>, p1: Players, id: PlayerId)
    requires CardsMoved(d0, p0, d1, p1, id)
    ensures AllCards(d1, p1) == AllCards(d0, p0)
    ensures p1.Get(Opponent(id)) == p0.Get(Opponent(id))
  {
    assert p1.Get(Opponent(id)) == p0.Get(Opponent(id));
    if id == PlayerA {
      calc {
        AllCards(d1, p1);
        (multiset(d1) + multiset(p1.Get(PlayerA).hand)) + multiset(p1.Get(PlayerB).hand);
        (multiset(d0) + multiset(p0.Get(PlayerA).hand)) + multiset(p0.Get(PlayerB).hand);
      }
    } else {
      calc {
        AllCards(d1, p1);
        (multiset(d1) + multiset(p1.Get(PlayerB).hand)) + multiset(p1.Get(PlayerA).hand);
        (multiset(d0) + multiset(p0.Get(PlayerB).hand)) + multiset(p0.Get(PlayerA).hand);
      }
    }
  }

  /**
   * Drawing moves exactly the first `DrawCount(count, |deck|)` cards of the
   * deck to the end of the hand and counts them as drawn.
   */
  lemma DrawIntoCorrect(deck: seq<Card>, ps: Players, t: Tally, id: PlayerId, count: int)
    ensures var (d, q, t2) := DrawInto(deck, ps, t, id, count);
            var n := DrawCount(count, |deck|);
            CardsMoved(deck, ps, d, q, id)
            && q.Get(id).hand == ps.Get(id).hand + deck[..n] && d == deck[n..]
            && |q.Get(id).hand| == |ps.Get(id).hand| + n && |d| == |deck| - n
            && t2.cardsDrawnTotal == t.cardsDrawnTotal + n
  {
    var n := DrawCount(count, |deck|);
    assert deck == deck[..n] + deck[n..];
  }

  /**
   * A hand with a hero card is kept as it is. Otherwise it becomes seven
   * cards (or all there are) of the reshuffled deck and hand, and the
   * mulligan is counted.
   */
  lemma MulliganIfNeededCorrect(deck: seq<Card>, ps: Players, t: Tally, id: PlayerId, s: bv32)
    ensures var (d, q, t2, s2) := MulliganIfNeeded(deck, ps, t, id, s);
            var h := ps.Get(id).hand;
            CardsMoved(deck, ps, d, q, id)
            && (HasHeroCard(h) ==> d == deck && q == ps && t2 == t && s2 == s)
            && (!HasHeroCard(h) ==>
                  |q.Get(id).hand| == (if |deck| + |h| < HandLimit then |deck| + |h| else HandLimit)
                  && |d| == |deck| + |h| - |q.Get(id).hand|
                  && t2.mulliganCount == t.mulliganCount + 1)
  {
    var h := ps.Get(id).hand;
    if !HasHeroCard(h) {
      var m := Mulligan(deck, h, s);
      MulliganPermutes(deck, h, s);
      assert |multiset(m.deck) + multiset(m.hand)| == |multiset(deck) + multiset(h)|;
    }
  }

  /**
   * The opening deal loses no card and creates none, and changes nothing but
   * the deck and the two hands. From empty hands and a deck of at least
   * fourteen cards, each player holds seven cards after it.
   */
  lemma OpeningDealCorrect(deck: seq<Card>, ps: Players, t: Tally, first: PlayerId, s: bv32)
    ensures var (d, q, _, _) := OpeningDeal(deck, ps, t, first, s);
            AllCards(d, q) == AllCards(deck, ps)
            && q.Get(PlayerA) == ps.Get(PlayerA).(hand := q.Get(PlayerA).hand)
            && q.Get(PlayerB) == ps.Get(PlayerB).(hand := q.Get(PlayerB).hand)
            && (ps.Get(PlayerA).hand == [] && ps.Get(PlayerB).hand == [] && |deck| >= 2 * HandLimit ==>
                  |q.Get(PlayerA).hand| == HandLimit && |q.Get(PlayerB).hand| == HandLimit
                  && |d| == |deck| - 2 * HandLimit)
  {
    OpeningDealKeepsCards(deck, ps, t, first, s);
    if ps.Get(PlayerA).hand == [] && ps.Get(PlayerB).hand == [] && |deck| >= 2 * HandLimit {
      OpeningDealSizes(deck, ps, t, first, s);
    }
  }

  /** Each step of the opening deal only moves cards between the deck and one hand. */
  lemma OpeningDealKeepsCards(deck: seq<Card>, ps: Players, t: Tally, first: PlayerId, s: bv32)
    ensures var (d, q, _, _) := OpeningDeal(deck, ps, t, first, s);
            AllCards(d, q) == AllCards(deck, ps)
            && q.Get(PlayerA) == ps.Get(PlayerA).(hand := q.Get(PlayerA).hand)
            && q.Get(PlayerB) == ps.Get(PlayerB).(hand := q.Get(PlayerB).hand)
  {
    var second := Opponent(first);
    var (d1, p1, t1) := DrawInto(deck, ps, t, first, HandLimit);
    DrawIntoCorrect(deck, ps, t, first, HandLimit);
    CardsMovedKeepsAll(deck, ps, d1, p1, first);
    var (d2, p2, t2) := DrawInto(d1, p1, t1, second, HandLimit);
    DrawIntoCorrect(d1, p1, t1, second, HandLimit);
    CardsMovedKeepsAll(d1, p1, d2, p2, second);
    var (d3, p3, t3, s3) := MulliganIfNeeded(d2, p2, t2, first, s);
    MulliganIfNeededCorrect(d2, p2, t2, first, s);
    CardsMovedKeepsAll(d2, p2, d3, p3, first);
    var (d4, p4, t4, s4) := MulliganIfNeeded(d3, p3, t3, second, s3);
    MulliganIfNeededCorrect(d3, p3, t3, second, s3);
    CardsMovedKeepsAll(d3, p3, d4, p4, second);
    assert Opponent(second) == first;
    assert OpeningDeal(deck, ps, t, first, s) == (d4, p4, t4, s4);
  }

  /** From empty hands and at least fourteen cards, the opening deal leaves seven cards in each hand. */
  lemma OpeningDealSizes(deck: seq<Card>, ps: Players, t: Tally, first: PlayerId, s: bv32)
    requires ps.Get(PlayerA).hand == [] && ps.Get(PlayerB).hand == [] && |deck| >= 2 * HandLimit
    ensures var (d, q, _, _) := OpeningDeal(deck, ps, t, first, s);
            |q.Get(PlayerA).hand| == HandLimit && |q.Get(PlayerB).hand| == HandLimit
            && |d| == |deck| - 2 * HandLimit
  {
    var second := Opponent(first);
    assert Opponent(second) == first;
    var (d1, p1, t1) := DrawInto(deck, ps, t, first, HandLimit);
    DrawIntoCorrect(deck, ps, t, first, HandLimit);
    assert |p1.Get(first).hand| == HandLimit && p1.Get(second).hand == [] && |d1| == |deck| - HandLimit;
    var (d2, p2, t2) := DrawInto(d1, p1, t1, second, HandLimit);
    DrawIntoCorrect(d1, p1, t1, second, HandLimit);
    assert |p2.Get(first).hand| == HandLimit && |p2.Get(second).hand| == HandLimit && |d2| == |deck| - 2 * HandLimit;
    var (d3, p3, t3, s3) := MulliganIfNeeded(d2, p2, t2, first, s);
    MulliganIfNeededCorrect(d2, p2, t2, first, s);
    assert |p3.Get(first).hand| == HandLimit && |p3.Get(second).hand| == HandLimit && |d3| == |deck| - 2 * HandLimit;
    var (d4, p4, t4, s4) := MulliganIfNeeded(d3, p3, t3, second, s3);
    MulliganIfNeededCorrect(d3, p3, t3, second, s3);
    assert OpeningDeal(deck, ps, t, first, s) == (d4, p4, t4, s4);
  }

  /** `runRecruitPhase`: the hero loop, then the equip loop on its result; the tally counts both. */
  function RecruitTurn(ps: Players, t: Tally, id: PlayerId): (Players, Tally)
  {
    var h := HeroRecruits(ps.Get(id));
    var e := EquipAll(h.0);
    (ps.Set(id, e.0), t.(cardsRecruitedTotal := t.cardsRecruitedTotal + h.1,
                         itemsEquippedTotal := t.itemsEquippedTotal + e.1))
  }

  /**
   * The recruit phase changes only the active player: as many heroes join the
   * board as the tally counts recruited, every recruited or equipped card
   * leaves the hand, and the equip loop has run until it stops.
   */
  lemma RecruitTurnCorrect(ps: Players, t: Tally, id: PlayerId)
    requires ValidPlayers(ps)
    ensures var (q, t2) := RecruitTurn(ps, t, id);
            var p, p2 := ps.Get(id), q.Get(id);
            ValidPlayers(q) && q.Get(Opponent(id)) == ps.Get(Opponent(id)) && EquipStops(p2)
            && HeroCount(p2.heroes) == HeroCount(p.heroes) + (t2.cardsRecruitedTotal - t.cardsRecruitedTotal)
            && |p2.hand| + (t2.cardsRecruitedTotal - t.cardsRecruitedTotal)
                         + (t2.itemsEquippedTotal - t.itemsEquippedTotal) == |p.hand|
            && p2.heroesLost == p.heroesLost && p2.maxResources == p.maxResources
  {
    var h := HeroRecruits(ps.Get(id));
    HeroRecruitsCorrect(ps.Get(id));
    EquipAllCorrect(h.0);
  }

  /** The discard phase while the active player's hand is above seven, else `finishTurn`. */
  function DiscardOrFinish(g: GameStatus, ps: Players): (GameStatus, Players, bool)
  {
    if RequiredDiscardCount(ps.Get(g.currentTurn).hand) > 0 then (g.(turnPhase := DiscardPhase), ps, false)
    else Finish(g, ps)
  }

  /**
   * Leaving the recruit phase: on the first player's first turn, the discard
   * phase or `finishTurn` (that turn has no combat); on every other turn,
   * combat with the active player's attacks reset.
   */
  function LeaveRecruit(g: GameStatus, ps: Players): (GameStatus, Players, bool)
  {
    var active := g.currentTurn;
    if g.turn == 1 && active == g.firstTurnPlayer then DiscardOrFinish(g, ps)
    else (g.(turnPhase := CombatPhase), ps.Set(active, ps.Get(active).(heroes := ResetHeroes(ps.Get(active).heroes))), false)
  }

  /** `runDiscardPhase` on the players, the discard pile and the tally. */
  function DiscardTurn(ps: Players, pile: seq<Card>, t: Tally, id: PlayerId): (Players, seq<Card>, Tally)
  {
    var hand := ps.Get(id).hand;
    match DiscardOutcome(hand, DiscardPick(hand))
    case None => (ps, pile, t)
    case Some((rest, ds)) =>
      (ps.Set(id, ps.Get(id).(hand := rest)), pile + ds, t.(cardsDiscardedTotal := t.cardsDiscardedTotal + |ds|))
  }

  /**
   * The first player's first turn never reaches combat, and every other turn
   * enters combat from the recruit phase without ending the game.
   */
  lemma LeaveRecruitCombat(g: GameStatus, ps: Players)
    ensures var (g2, _, ended) := LeaveRecruit(g, ps);
            (g.turn == 1 && g.currentTurn == g.firstTurnPlayer ==> g2.turnPhase != CombatPhase)
            && (!(g.turn == 1 && g.currentTurn == g.firstTurnPlayer) ==> g2 == g.(turnPhase := CombatPhase) && !ended)
  {
  }

  /**
   * After recruiting or fighting, the turn moves on to the discard phase or
   * is handed over; a game that ends leaves the active player without heroes.
   */
  lemma DiscardOrFinishPasses(g: GameStatus, ps: Players)
    requires ValidPlayers(ps) && PhaseRank(DiscardPhase) < PhaseRank(g.turnPhase)
    ensures var (g2, ps2, ended) := DiscardOrFinish(g, ps);
            ValidPlayers(ps2) && PhasePassed(g, g2, ended)
            && (ended ==> !HasHeroes(ps2.Get(g2.currentTurn).heroes))
  {
    if RequiredDiscardCount(ps.Get(g.currentTurn).hand) == 0 {
      FinishCorrect(g, ps);
    }
  }

  /**
   * When the hand's ids are distinct, the discard phase keeps every card: the
   * hand loses exactly the cards the pile gains. A hand within the limit is untouched.
   */
  lemma DiscardPhaseKeepsCards(ps: Players, pile: seq<Card>, t: Tally, id: PlayerId)
    requires UniqueIds(ps.Get(id).hand)
    ensures var (q, pile2, _) := DiscardTurn(ps, pile, t, id);
            multiset(q.Get(id).hand) + multiset(pile2) == multiset(ps.Get(id).hand) + multiset(pile)
            && q.Get(Opponent(id)) == ps.Get(Opponent(id))
            && q.Get(id) == ps.Get(id).(hand := q.Get(id).hand)
            && (|ps.Get(id).hand| <= HandLimit ==> q == ps && pile2 == pile)
  {
    var hand := ps.Get(id).hand;
    if DiscardOutcome(hand, DiscardPick(hand)).Some? {
      DiscardPermutes(hand, DiscardPick(hand));
    }
  }

  // ---------------------------------------------------------------------------
  // The match state
  // ---------------------------------------------------------------------------

  /**
   * The `state` object of a simulated match (`game`, `deck.cards`,
   * `deck.discardPile`, `players`) together with the game's `stats` counters.
   */
  class Match {
    var game: GameStatus
    var deck: seq<Card>
    var discardPile: seq<Card>
    var players: Players
    var stats: Tally

    /** Both players are well formed and the kill counters match their losses. */
    predicate Valid()
      reads this
    {
      ValidPlayers(players) && KillsConsistent(stats, players)
    }

    /**
     * `createInitialState` with the game's counters: the batch is copied and
     * shuffled into the deck, one draw decides the first player, both players
     * start with full resources and play begins in the recruit phase of turn 1.
     */
    constructor (batchCards: seq<Card>, rng: Rng.Rng)
      modifies rng
      ensures var (shuffled, s1) := Rng.Shuffled(batchCards, old(rng.state));
              deck == shuffled && rng.state == Rng.DrawInt(s1, 0, 1).1
              && game == GameStatus(Playing, 1, FirstPlayer(Rng.DrawInt(s1, 0, 1).0),
                                    FirstPlayer(Rng.DrawInt(s1, 0, 1).0), RecruitPhase, None)
      ensures multiset(deck) == multiset(batchCards)
      ensures discardPile == [] && players == Players(NewPlayer(), NewPlayer()) && stats == ZeroTally()
      ensures Valid()
    {
      var cards := new Card[|batchCards|](i requires 0 <= i < |batchCards| => batchCards[i]);
      assert cards[..] == batchCards;
      Rng.ShuffledProperties(batchCards, rng.state);
      var _ := rng.Shuffle(cards);
      var roll := rng.Int(0, 1);
      var first := FirstPlayer(roll.value);
      game := GameStatus(Playing, 1, first, first, RecruitPhase, None);
      deck := cards[..];
      discardPile := [];
      // createPlayerState already starts at resources == maxResources, so the
      // refill of both players leaves them unchanged
      players := Players(NewPlayer(), NewPlayer());
      stats := ZeroTally();
    }

    /**
     * `drawCards`: up to `count` cards move from the front of the deck to
     * the end of the player's hand, fewer when the deck runs out.
     */
    method DrawCards(id: PlayerId, count: int) returns (drawn: nat)
      requires Valid()
      modifies this
      ensures Valid()
      ensures drawn == DrawCount(count, |old(deck)|)
      ensures deck == old(deck)[drawn..]
      ensures players == old(players).Set(id, old(players.Get(id)).(hand := old(players.Get(id)).hand + old(deck)[..drawn]))
      ensures multiset(deck) + multiset(players.Get(id).hand) == old(multiset(deck) + multiset(players.Get(id).hand))
      ensures stats == old(stats).(cardsDrawnTotal := old(stats).cardsDrawnTotal + drawn)
      ensures game == old(game) && discardPile == old(discardPile)
    {
      var p0 := players.Get(id);
      var hand, rest;
      drawn, hand, rest := TakeCards(p0.hand, deck, count);
      assert multiset(deck) == multiset(deck[..drawn]) + multiset(rest) by {
        assert deck == deck[..drawn] + rest;
      }
      SetPlayerValid(players, stats, id, p0.(hand := hand));
      players := players.Set(id, p0.(hand := hand));
      deck := rest;
      stats := stats.(cardsDrawnTotal := stats.cardsDrawnTotal + drawn);
    }

    /** The first steps of a mulligan: the hand goes to the end of the deck and the deck is shuffled. */
    method ReturnHandToDeck(id: PlayerId, rng: Rng.Rng)
      requires Valid()
      modifies this, rng
      ensures Valid()
      ensures var (pool, s1) := Rng.Shuffled(old(deck) + old(players.Get(id).hand), old(rng.state));
              deck == pool && rng.state == s1
      ensures players == old(players).Set(id, old(players.Get(id)).(hand := []))
      ensures multiset(deck) == old(multiset(deck) + multiset(players.Get(id).hand))
      ensures stats == old(stats) && game == old(game) && discardPile == old(discardPile)
    {
      var player := players.Get(id);
      var openingHand := player.hand;
      SetPlayerValid(players, stats, id, player.(hand := []));
      players := players.Set(id, player.(hand := []));
      var pool := deck + openingHand;
      var cards := new Card[|pool|](i requires 0 <= i < |pool| => pool[i]);
      assert cards[..] == pool;
      Rng.ShuffledProperties(pool, rng.state);
      var _ := rng.Shuffle(cards);
      deck := cards[..];
    }

    /** The hand goes back into the deck, the deck is shuffled and seven cards (or all there are) are drawn. */
    method RedealHand(id: PlayerId, rng: Rng.Rng)
      requires Valid()
      modifies this, rng
      ensures Valid()
      ensures var m := Mulligan(old(deck), old(players.Get(id).hand), old(rng.state));
              deck == m.deck && rng.state == m.state
              && players == old(players).Set(id, old(players.Get(id)).(hand := m.hand))
              && stats == old(stats).(cardsDrawnTotal := old(stats).cardsDrawnTotal + |m.hand|)
      ensures game == old(game) && discardPile == old(discardPile)
    {
      var player := players.Get(id);
      ghost var ps0 := players;
      ghost var m := Mulligan(deck, player.hand, rng.state);
      ReturnHandToDeck(id, rng);
      ghost var shuffled := deck;
      var n := DrawCards(id, HandLimit);
      assert [] + shuffled[..n] == shuffled[..n];
      assert players == ps0.Set(id, player.(hand := m.hand));
    }

    /**
     * `runOpeningMulliganIfNeeded`: nothing happens when the hand holds a
     * hero; otherwise the hand goes back into the deck, the deck is shuffled
     * and seven cards are drawn again, once.
     */
    method RunOpeningMulliganIfNeeded(id: PlayerId, rng: Rng.Rng) returns (mulliganed: bool)
      requires Valid()
      modifies this, rng
      ensures Valid()
      ensures mulliganed <==> !HasHeroCard(old(players.Get(id).hand))
      ensures !mulliganed ==> deck == old(deck) && players == old(players) && stats == old(stats)
                              && rng.state == old(rng.state)
      ensures mulliganed ==>
                var m := Mulligan(old(deck), old(players.Get(id).hand), old(rng.state));
                deck == m.deck && rng.state == m.state
                && players == old(players).Set(id, old(players.Get(id)).(hand := m.hand))
                && stats == old(stats).(mulliganCount := old(stats).mulliganCount + 1,
                                        cardsDiscardedTotal := old(stats).cardsDiscardedTotal + |old(players.Get(id).hand)|,
                                        cardsDrawnTotal := old(stats).cardsDrawnTotal + |m.hand|)
      ensures game == old(game) && discardPile == old(discardPile)
    {
      var player := players.Get(id);
      if HasHeroCard(player.hand) {
        return false;
      }
      RedealHand(id, rng);
      stats := stats.(mulliganCount := stats.mulliganCount + 1,
                      cardsDiscardedTotal := stats.cardsDiscardedTotal + |player.hand|);
      return true;
    }

    /**
     * `playHeroFromHand`: the guards in the source's order; on success the
     * cost is paid, the card leaves the hand and a fresh hero takes the slot.
     * On failure nothing changes.
     */
    method PlayHeroFromHand(id: PlayerId, cardId: string, slot: int) returns (r: Option<Played>)
      requires Valid()
      modifies this
      ensures Valid()
      ensures match RecruitOutcome(old(players.Get(id)), cardId, slot)
              case None => r == None && players == old(players) && stats == old(stats)
              case Some((p, played)) =>
                r == Some(played) && players == old(players).Set(id, p)
                && stats == old(stats).(cardsRecruitedTotal := old(stats).cardsRecruitedTotal + 1)
      ensures game == old(game) && deck == old(deck) && discardPile == old(discardPile)
    {
      var player := players.Get(id);
      RecruitOutcomeCorrect(player, cardId, slot);
      if HeroCount(player.heroes) >= MaxHeroSlots {
        return None;
      }
      if slot < 0 || slot >= MaxHeroSlots || slot >= |player.heroes| {
        return None;
      }
      if player.heroes[slot].Some? {
        return None;
      }
      var handIndex := FindCard(player.hand, cardId);
      if handIndex.None? {
        return None;
      }
      var card := player.hand[handIndex.value];
      if card.kind != HeroCard {
        return None;
      }
      var cost := RecruitCost(player.heroesLost, card.cost);
      if player.resources < cost {
        return None;
      }
      var q := player.(resources := player.resources - cost,
                       hand := RemoveAt(player.hand, handIndex.value),
                       heroes := player.heroes[slot := Some(CreateHero(card))]);
      SetPlayerValid(players, stats, id, q);
      players := players.Set(id, q);
      stats := stats.(cardsRecruitedTotal := stats.cardsRecruitedTotal + 1);
      r := Some(Played(card, cost, slot));
    }

    /**
     * `playItemFromHand`: the guards in the source's order (only cards of
     * type item pass); on success the cost is paid, the card leaves the hand
     * and the hero takes the item. On failure nothing changes.
     */
    method PlayItemFromHand(id: PlayerId, cardId: string, slot: int) returns (r: Option<Played>)
      requires Valid()
      modifies this
      ensures Valid()
      ensures EquipOutcome(old(players.Get(id)), cardId, slot).None? ==>
                r == None && players == old(players) && stats == old(stats)
      ensures EquipOutcome(old(players.Get(id)), cardId, slot).Some? ==>
                r == Some(EquipOutcome(old(players.Get(id)), cardId, slot).value.1)
                && players == old(players).Set(id, EquipOutcome(old(players.Get(id)), cardId, slot).value.0)
                && stats == old(stats).(itemsEquippedTotal := old(stats).itemsEquippedTotal + 1)
      ensures game == old(game) && deck == old(deck) && discardPile == old(discardPile)
    {
      var player := players.Get(id);
      r := None;
      if 0 <= slot < MaxHeroSlots && slot < |player.heroes| && player.heroes[slot].Some? {
        var hero := EnsureHeroState(player.heroes[slot].value);
        var handIndex := FindCard(player.hand, cardId);
        if |hero.items| < MaxItemsPerHero && handIndex.Some? {
          var card := player.hand[handIndex.value];
          var cost := card.cost;
          if card.kind == ItemCard && player.resources >= cost {
            var equipped := EquipHero(hero, card);
            var q := player.(resources := player.resources - cost,
                             hand := RemoveAt(player.hand, handIndex.value),
                             heroes := player.heroes[slot := Some(equipped)]);
            assert EquipOutcome(player, cardId, slot) == Some((q, Played(card, cost, slot)));
            EquipOutcomeCorrect(player, cardId, slot);
            SetPlayerValid(players, stats, id, q);
            players := players.Set(id, q);
            stats := stats.(itemsEquippedTotal := stats.itemsEquippedTotal + 1);
            r := Some(Played(card, cost, slot));
          }
        }
      }
    }

    /** The hero taking the item: its maximum HP rise is added to its HP, which is then clamped. */
    static method EquipHero(hero: HeroInstance, card: Card) returns (equipped: HeroInstance)
      ensures equipped == Equip(hero, card)
    {
      var maxHpBefore := HeroMaxHp(hero);
      equipped := hero.(items := hero.items + [CreateItem(card)]);
      var maxHpAfter := HeroMaxHp(equipped);
      if maxHpAfter > maxHpBefore {
        equipped := equipped.(currentHp := equipped.currentHp + (maxHpAfter - maxHpBefore));
      }
      equipped := equipped.(currentHp := ClampHp(equipped.currentHp, maxHpAfter));
    }

    /** `resetCombatActions`: every hero of the player may attack again. */
    method ResetCombatActions(id: PlayerId)
      requires Valid()
      modifies this
      ensures Valid()
      ensures players == old(players).Set(id, old(players.Get(id)).(heroes := ResetHeroes(old(players.Get(id)).heroes)))
      ensures game == old(game) && deck == old(deck) && discardPile == old(discardPile) && stats == old(stats)
    {
      var player := players.Get(id);
      var heroes := player.heroes;
      var k := 0;
      while k < |heroes|
        invariant 0 <= k <= |heroes| == |player.heroes|
        invariant forall j :: 0 <= j < k ==> heroes[j] == ResetSlot(player.heroes[j])
        invariant forall j :: k <= j < |heroes| ==> heroes[j] == player.heroes[j]
      {
        if heroes[k].Some? {
          heroes := heroes[k := Some(EnsureHeroState(heroes[k].value).(hasAttacked := false))];
        }
        k := k + 1;
      }
      assert heroes == ResetHeroes(player.heroes);
      ResetEnablesAttacks(player);
      SetPlayerValid(players, stats, id, player.(heroes := heroes));
      players := players.Set(id, player.(heroes := heroes));
    }
  
    /**
     * `applyCombatResult`: the attacker is marked as having attacked; unless
     * the defender's slot is empty, each side then loses its hero when
     * defeated (counting the loss) or takes its HP after the exchange.
     */
    method ApplyCombatResult(r: CombatResult) returns (applied: bool)
      requires Valid() && r.attackerPlayerId != r.defenderPlayerId
      modifies this
      ensures Valid()
      ensures players == ApplyCombat(old(players), old(stats), r).0
      ensures stats == ApplyCombat(old(players), old(stats), r).1
      ensures applied == ApplyCombat(old(players), old(stats), r).2
      ensures game == old(game) && deck == old(deck) && discardPile == old(discardPile)
    {
      ApplyCombatCorrect(players, stats, r);
      var aId := r.attackerPlayerId;
      var dId := r.defenderPlayerId;
      var marked := players.Set(aId, MarkAttacked(players.Get(aId), r.attackerSlot));
      var defenderPlayer := marked.Get(dId);
      applied := SlotHero(defenderPlayer, r.defenderSlot).Some?;
      if applied {
        var attackerPlayer, attackerDied := AttackerSide(marked.Get(aId), r.attackerSlot, r);
        var defenderAfter, defenderDied := DefenderSide(defenderPlayer, r.defenderSlot, r);
        stats := Killed(Killed(stats, aId, attackerDied), dId, defenderDied);
        players := marked.Set(aId, attackerPlayer).Set(dId, defenderAfter);
      } else {
        players := marked;
      }
    }

    /** The attacker's side of `applyCombatResult`: removed when defeated, otherwise its HP is clamped. */
    static method AttackerSide(p: PlayerState, slot: int, r: CombatResult) returns (q: PlayerState, died: bool)
      ensures q == AttackerAfter(p, slot, r).0 && died == AttackerAfter(p, slot, r).1
    {
      q, died := p, false;
      var hero := SlotHero(p, slot);
      if hero.Some? {
        var ready := EnsureHeroState(hero.value);
        if r.attackerDefeated {
          q, died := Vacate(p, slot), true;
        } else {
          var hp := ClampHp(r.attackerHpAfter, HeroMaxHp(ready));
          q := p.(heroes := p.heroes[slot := Some(ready.(currentHp := hp))]);
        }
      }
    }

    /** The defender's side of `applyCombatResult`: removed when defeated or when its clamped HP is zero. */
    static method DefenderSide(p: PlayerState, slot: int, r: CombatResult) returns (q: PlayerState, died: bool)
      requires SlotHero(p, slot).Some?
      ensures q == DefenderAfter(p, slot, r).0 && died == DefenderAfter(p, slot, r).1
    {
      var ready := EnsureHeroState(SlotHero(p, slot).value);
      q, died := Vacate(p, slot), true;
      if !r.defenderDefeated {
        var hp := ClampHp(r.defenderHpAfter, HeroMaxHp(ready));
        if hp > 0 {
          q, died := p.(heroes := p.heroes[slot := Some(ready.(currentHp := hp))]), false;
        }
      }
    }

    /**
     * `resolveDefenderReactions`: the defender's best reaction is chosen
     * (every candidate drawing from the generator); when there is one, its
     * outcome becomes the context, its card leaves the hand, its cost is paid
     * and a played counterattack is counted.
     */
    method ResolveDefenderReactions(dId: PlayerId, ctx: ReactionContext, rng: Rng.Rng)
      returns (next: ReactionContext, reactions: seq<ReactionRecord>)
      requires Valid()
      modifies this, rng
      ensures Valid()
      ensures var ro := ReactionOutcome(old(players.Get(dId)), old(stats), ctx, old(rng.state));
              next == ro.0 && reactions == ro.1 && players == old(players).Set(dId, ro.2) && stats == ro.3 && rng.state == ro.4
      ensures game == old(game) && deck == old(deck) && discardPile == old(discardPile)
    {
      var defender := players.Get(dId);
      ghost var ro := ReactionOutcome(defender, stats, ctx, rng.state);
      ghost var cs := Candidates(defender.hand, defender.resources);
      ghost var rs := EvaluateAll(cs, ctx, rng.state).0;
      ReactionOutcomeCorrect(defender, stats, ctx, rng.state);
      var best := ChooseDefenderReactionCard(defender.hand, defender.resources, ctx, rng);
      next, reactions := ctx, [];
      if best.None? {
        return;
      }
      var card := best.value.candidate.card;
      var applied := best.value.applied;
      ghost var k := BestOf(cs, rs, ctx).value;
      assert card == cs[k].card && applied == rs[k].value;
      next := ReactedContext(ctx, applied);
      defender := ReactedPlayer(defender, card);
      SetPlayerValid(players, stats, dId, defender);
      players := players.Set(dId, defender);
      reactions := [ReactionRecord(card.kind, card.id, card.effect, card.cost, defender.resources,
                                   applied.counterDamageAdded)];
      stats := ReactedTally(stats, card, applied);
    }
  
    /** The two d20 rolls of an exchange, attacker first, and the context they give the defender. */
    static method RollExchange(attackerStats: CombatStats, defenderStats: CombatStats, rng: Rng.Rng)
      returns (attackerRoll: int, defenderRoll: int, ctx: ReactionContext)
      modifies rng
      ensures (attackerRoll, Rng.DrawInt(old(rng.state), 1, 20).1) == Rng.DrawInt(old(rng.state), 1, 20)
      ensures (defenderRoll, rng.state) == Rng.DrawInt(Rng.DrawInt(old(rng.state), 1, 20).1, 1, 20)
      ensures ctx == OpeningContext(attackerStats, defenderStats, attackerRoll, defenderRoll)
    {
      var aRoll := rng.Int(1, 20);
      var dRoll := rng.Int(1, 20);
      attackerRoll, defenderRoll := aRoll.value, dRoll.value;
      var damage := Max0(attackerStats.atk + attackerRoll - (defenderStats.def + defenderRoll));
      var isFumble := attackerRoll == 1;
      var isCritical := attackerRoll == 20;
      if isFumble {
        damage := 0;
      } else if isCritical {
        damage := damage + CriticalBonus;
      }
      ctx := ReactionContext(damage, isCritical, CriticalBonus, defenderStats.hp, attackerStats.def, 0, 0, 0, false);
    }

    /**
     * `resolveCombatAsHost`: nothing happens (and nothing is drawn) unless
     * both slots hold heroes and the attacker can attack; otherwise the
     * attacker's d20 then the defender's d20 are rolled, the defender may
     * react, the counters are updated and the result is applied.
     */
    method ResolveCombatAsHost(aId: PlayerId, aSlot: int, dSlot: int, rng: Rng.Rng) returns (r: Option<CombatResult>)
      requires Valid()
      modifies this, rng
      ensures Valid()
      ensures ExchangeOutcome(old(players), old(stats), aId, aSlot, dSlot, old(rng.state)).None? ==>
                r == None && players == old(players) && stats == old(stats) && rng.state == old(rng.state)
      ensures ExchangeOutcome(old(players), old(stats), aId, aSlot, dSlot, old(rng.state)).Some? ==>
                var x := ExchangeOutcome(old(players), old(stats), aId, aSlot, dSlot, old(rng.state)).value;
                r == Some(x.0) && players == x.1 && stats == x.2 && rng.state == x.3
      ensures game == old(game) && deck == old(deck) && discardPile == old(discardPile)
    {
      r := None;
      if SlotHero(players.Get(aId), aSlot).Some? && SlotHero(players.Get(Opponent(aId)), dSlot).Some?
         && CanHeroAttack(players.Get(aId), aSlot) {
        var result := Exchange(aId, aSlot, dSlot, rng);
        r := Some(result);
      }
    }

    /** The exchange itself, once both heroes are known to be there and the attacker may attack. */
    method Exchange(aId: PlayerId, aSlot: int, dSlot: int, rng: Rng.Rng) returns (result: CombatResult)
      requires Valid()
      requires SlotHero(players.Get(aId), aSlot).Some? && SlotHero(players.Get(Opponent(aId)), dSlot).Some?
      requires CanHeroAttack(players.Get(aId), aSlot)
      modifies this, rng
      ensures Valid()
      ensures ExchangeOutcome(old(players), old(stats), aId, aSlot, dSlot, old(rng.state)).Some?
      ensures var x := ExchangeOutcome(old(players), old(stats), aId, aSlot, dSlot, old(rng.state)).value;
              result == x.0 && players == x.1 && stats == x.2 && rng.state == x.3
      ensures game == old(game) && deck == old(deck) && discardPile == old(discardPile)
    {
      var dId := Opponent(aId);
      var attackerStats := HeroCombatStats(SlotHero(players.Get(aId), aSlot).value);
      var defenderStats := HeroCombatStats(SlotHero(players.Get(dId), dSlot).value);
      var ar, dr, ctx := RollExchange(attackerStats, defenderStats, rng);
      var next, reactions := ResolveDefenderReactions(dId, ctx, rng);
      result := ResultOf(aId, aSlot, dSlot, attackerStats, defenderStats, ar, dr, next, reactions);
      stats := CombatTally(stats, result);
      var _ := ApplyCombatResult(result);
    }

    /** The lookup loop of `discardFromHand`: the cards for the ids in order, or None at the first id missing. */
    static method LookupCards(handById: map<string, Card>, ids: seq<string>) returns (found: Option<seq<Card>>)
      ensures found == Lookup(handById, ids)
    {
      var cards := [];
      var i := 0;
      while i < |ids|
        invariant 0 <= i <= |ids|
        invariant Lookup(handById, ids[..i]) == Some(cards)
      {
        if ids[i] !in handById {
          LookupMissing(handById, ids, i);
          return None;
        }
        assert ids[..i + 1][..i] == ids[..i];
        cards := cards + [handById[ids[i]]];
        i := i + 1;
      }
      assert ids[..i] == ids;
      return Some(cards);
    }

    /** The push loop of `discardFromHand`: the cards go onto the discard pile in order. */
    method PushDiscards(cards: seq<Card>)
      modifies this
      ensures discardPile == old(discardPile) + cards
      ensures game == old(game) && deck == old(deck) && players == old(players) && stats == old(stats)
    {
      var j := 0;
      while j < |cards|
        invariant 0 <= j <= |cards|
        invariant discardPile == old(discardPile) + cards[..j]
        invariant game == old(game) && deck == old(deck) && players == old(players) && stats == old(stats)
      {
        assert cards[..j + 1] == cards[..j] + [cards[j]];
        discardPile := discardPile + [cards[j]];
        j := j + 1;
      }
      assert cards[..j] == cards;
    }

    /**
     * `discardFromHand`: the selected ids (duplicates and empty ids dropped)
     * are looked up in the hand; if one has no card nothing is discarded,
     * otherwise every card carrying a selected id leaves the hand and the
     * looked-up cards go onto the discard pile, in the order of the ids.
     */
    method DiscardFromHand(id: PlayerId, cardIds: seq<string>) returns (discarded: seq<Card>)
      requires Valid()
      modifies this
      ensures Valid()
      ensures match DiscardOutcome(old(players.Get(id).hand), cardIds)
              case None => discarded == [] && players == old(players) && discardPile == old(discardPile)
                           && stats == old(stats)
              case Some((rest, ds)) =>
                discarded == ds && players == old(players).Set(id, old(players.Get(id)).(hand := rest))
                && discardPile == old(discardPile) + ds
                && stats == old(stats).(cardsDiscardedTotal := old(stats).cardsDiscardedTotal + |ds|)
      ensures game == old(game) && deck == old(deck)
    {
      var player := players.Get(id);
      if cardIds == [] {
        return [];
      }
      var ids := SelectedIds(cardIds);
      var found := LookupCards(ById(player.hand), ids);
      if found.None? {
        return [];
      }
      var rest := WithoutIds(player.hand, ids);
      SetPlayerValid(players, stats, id, player.(hand := rest));
      players := players.Set(id, player.(hand := rest));
      PushDiscards(found.value);
      stats := stats.(cardsDiscardedTotal := stats.cardsDiscardedTotal + |found.value|);
      discarded := found.value;
    }

    /** The item loop of `applyEndTurnDurability` for one hero. */
    static method WearItems(items: seq<ItemInstance>) returns (kept: seq<ItemInstance>)
      ensures kept == DecayItems(items)
    {
      kept := [];
      var j := 0;
      while j < |items|
        invariant 0 <= j <= |items|
        invariant kept == DecayItems(items[..j])
      {
        assert items[..j + 1][..j] == items[..j];
        var item := items[j];
        var baseDurability := item.card.stats.durability;
        if baseDurability <= 0 {
          kept := kept + [item];
        } else {
          var current := if item.currentDurability.Some? then item.currentDurability.value else baseDurability;
          var nextDurability := Max0(current - 1);
          if nextDurability > 0 {
            kept := kept + [item.(currentDurability := Some(nextDurability))];
          }
        }
        j := j + 1;
      }
      assert items[..j] == items;
    }

    /**
     * `applyEndTurnDurability`: every hero of the player wears its items
     * (an item with durability loses one point and breaks at zero) and has
     * its HP clamped to the maximum its remaining items allow.
     */
    method ApplyEndTurnDurability(id: PlayerId)
      requires Valid()
      modifies this
      ensures Valid()
      ensures players == old(players).Set(id, DecayPlayer(old(players.Get(id))))
      ensures game == old(game) && deck == old(deck) && discardPile == old(discardPile) && stats == old(stats)
    {
      var player := players.Get(id);
      ghost var h0 := player.heroes;
      var heroes := player.heroes;
      var k := 0;
      while k < |heroes|
        invariant 0 <= k <= |heroes| == |h0|
        invariant forall j :: 0 <= j < k ==> heroes[j] == DecaySlots(h0)[j]
        invariant forall j :: k <= j < |h0| ==> heroes[j] == h0[j]
        invariant unchanged(this)
      {
        if heroes[k].Some? {
          var readyHero := EnsureHeroState(heroes[k].value);
          var nextItems := WearItems(readyHero.items);
          readyHero := readyHero.(items := nextItems);
          var maxHp := HeroMaxHp(readyHero);
          readyHero := readyHero.(currentHp := ClampHp(readyHero.currentHp, maxHp));
          heroes := heroes[k := Some(readyHero)];
        }
        k := k + 1;
      }
      assert heroes == DecaySlots(h0);
      DecayPlayerCorrect(player);
      SetPlayerValid(players, stats, id, player.(heroes := heroes));
      players := players.Set(id, player.(heroes := heroes));
    }

    /**
     * `finishTurn`: the active player's items wear; a player left without a
     * hero loses and the match ends, otherwise the opponent moves next (the
     * turn counter advancing when play returns to player A) with full resources.
     */
    method FinishTurn() returns (ended: bool)
      requires Valid()
      modifies this
      ensures Valid()
      ensures game == Finish(old(game), old(players)).0 && players == Finish(old(game), old(players)).1
      ensures ended == Finish(old(game), old(players)).2
      ensures Handover(old(game), game, ended) && (ended ==> !HasHeroes(players.Get(game.currentTurn).heroes))
      ensures deck == old(deck) && discardPile == old(discardPile) && stats == old(stats)
    {
      FinishCorrect(game, players);
      var activePlayer := game.currentTurn;
      ApplyEndTurnDurability(activePlayer);
      if !HasHeroes(players.Get(activePlayer).heroes) {
        game := game.(phase := Ended, turnPhase := EndPhase, winner := Some(Opponent(activePlayer)));
        return true;
      }
      var nextPlayer := Opponent(activePlayer);
      game := game.(currentTurn := nextPlayer);
      if nextPlayer == PlayerA {
        game := game.(turn := game.turn + 1);
      }
      game := game.(turnPhase := DrawPhase);
      var np := players.Get(nextPlayer);
      SetPlayerValid(players, stats, nextPlayer, np.(resources := np.maxResources));
      players := players.Set(nextPlayer, np.(resources := np.maxResources));
      return false;
    }

    /** The first loop of `runRecruitPhase`: recruit while the bot has a pick the engine accepts. */
    method RecruitHeroes(id: PlayerId) returns (recruited: nat)
      requires Valid()
      modifies this
      ensures Valid()
      ensures players.Get(id) == HeroRecruits(old(players.Get(id))).0
      ensures recruited == HeroRecruits(old(players.Get(id))).1
      ensures players == old(players).Set(id, players.Get(id))
      ensures stats == old(stats).(cardsRecruitedTotal := old(stats).cardsRecruitedTotal + recruited)
      ensures game == old(game) && deck == old(deck) && discardPile == old(discardPile)
    {
      ghost var p0 := players.Get(id);
      recruited := 0;
      while true
        invariant Valid()
        invariant players == old(players).Set(id, players.Get(id))
        invariant HeroRecruits(players.Get(id)).0 == HeroRecruits(p0).0
        invariant HeroRecruits(players.Get(id)).1 + recruited == HeroRecruits(p0).1
        invariant stats == old(stats).(cardsRecruitedTotal := old(stats).cardsRecruitedTotal + recruited)
        invariant game == old(game) && deck == old(deck) && discardPile == old(discardPile)
        decreases |players.Get(id).hand|
      {
        var play := RecruitPlay(players.Get(id));
        if play.None? {
          break;
        }
        var done := PlayHeroFromHand(id, play.value.cardId, play.value.slot);
        if done.None? {
          break;
        }
        recruited := recruited + 1;
      }
    }

    /** The second loop of `runRecruitPhase`: equip while the bot has a pick the engine accepts. */
    method EquipItems(id: PlayerId) returns (equipped: nat)
      requires Valid()
      modifies this
      ensures Valid()
      ensures players.Get(id) == EquipAll(old(players.Get(id))).0
      ensures equipped == EquipAll(old(players.Get(id))).1
      ensures players == old(players).Set(id, players.Get(id))
      ensures stats == old(stats).(itemsEquippedTotal := old(stats).itemsEquippedTotal + equipped)
      ensures game == old(game) && deck == old(deck) && discardPile == old(discardPile)
    {
      ghost var p0 := players.Get(id);
      equipped := 0;
      while true
        invariant Valid()
        invariant players == old(players).Set(id, players.Get(id))
        invariant EquipAll(players.Get(id)).0 == EquipAll(p0).0
        invariant EquipAll(players.Get(id)).1 + equipped == EquipAll(p0).1
        invariant stats == old(stats).(itemsEquippedTotal := old(stats).itemsEquippedTotal + equipped)
        invariant game == old(game) && deck == old(deck) && discardPile == old(discardPile)
        decreases |players.Get(id).hand|
      {
        var play := PickItemEquipPlay(players.Get(id));
        if play.None? {
          break;
        }
        var done := PlayItemFromHand(id, play.value.cardId, play.value.slot);
        if done.None? {
          break;
        }
        equipped := equipped + 1;
      }
    }

    /**
     * `runRecruitPhase`: the bot recruits heroes while it has a pick the
     * engine accepts, then equips items the same way.
     */
    method RunRecruitPhase(id: PlayerId)
      requires Valid()
      modifies this
      ensures Valid()
      ensures var h := HeroRecruits(old(players.Get(id)));
              var e := EquipAll(h.0);
              players == old(players).Set(id, e.0)
              && stats == old(stats).(cardsRecruitedTotal := old(stats).cardsRecruitedTotal + h.1,
                                      itemsEquippedTotal := old(stats).itemsEquippedTotal + e.1)
      ensures game == old(game) && deck == old(deck) && discardPile == old(discardPile)
    {
      var _ := RecruitHeroes(id);
      var _ := EquipItems(id);
    }

    /**
     * `runCombatPhase`: the bot declares its attacks, then each is resolved
     * in order until the defender has no hero left.
     */
    method RunCombatPhase(id: PlayerId, rng: Rng.Rng)
      requires Valid()
      modifies this, rng
      ensures Valid()
      ensures var f := CombatRun(Fight(old(players), old(stats), old(rng.state)), id, DeclaredAttacks(old(players), id));
              players == f.players && stats == f.tally && rng.state == f.state
      ensures game == old(game) && deck == old(deck) && discardPile == old(discardPile)
    {
      var attacker := players.Get(id);
      var attacks := PickAttacks(players.Get(Opponent(id)).heroes, (slot: nat) => CanHeroAttack(attacker, slot));
      assert attacks == DeclaredAttacks(players, id);
      ghost var goal := CombatRun(Fight(players, stats, rng.state), id, attacks);
      var i := 0;
      while i < |attacks|
        invariant 0 <= i <= |attacks|
        invariant Valid()
        invariant CombatRun(Fight(players, stats, rng.state), id, attacks[i..]) == goal
        invariant game == old(game) && deck == old(deck) && discardPile == old(discardPile)
      {
        var defenderPlayerId := Opponent(id);
        if !HasHeroes(players.Get(defenderPlayerId).heroes) {
          break;
        }
        ghost var f0 := Fight(players, stats, rng.state);
        ghost var ex := ExchangeOutcome(players, stats, id, attacks[i].attackerSlot, attacks[i].defenderSlot, rng.state);
        assert attacks[i..][1..] == attacks[i + 1..];
        CombatRunStep(f0, id, attacks[i..]);
        var _ := ResolveCombatAsHost(id, attacks[i].attackerSlot, attacks[i].defenderSlot, rng);
        assert Fight(players, stats, rng.state) == (if ex.None? then f0 else Fight(ex.value.1, ex.value.2, ex.value.3));
        i := i + 1;
      }
    }

    /**
     * `runDiscardPhase`: above seven cards the bot picks the surplus and it
     * is discarded; within the limit nothing happens.
     */
    method RunDiscardPhase(id: PlayerId)
      requires Valid()
      modifies this
      ensures Valid()
      ensures match DiscardOutcome(old(players.Get(id).hand), DiscardPick(old(players.Get(id).hand)))
              case None => players == old(players) && discardPile == old(discardPile) && stats == old(stats)
              case Some((rest, ds)) =>
                players == old(players).Set(id, old(players.Get(id)).(hand := rest))
                && discardPile == old(discardPile) + ds
                && stats == old(stats).(cardsDiscardedTotal := old(stats).cardsDiscardedTotal + |ds|)
      ensures game == old(game) && deck == old(deck)
    {
      var hand := players.Get(id).hand;
      var required := RequiredDiscardCount(hand);
      if required <= 0 {
        return;
      }
      var cardIds := PickDiscardCardIds(hand, required);
      var _ := DiscardFromHand(id, cardIds);
    }

    /** The opening of `runSingleGame`: seven cards each, the first player first, then each player's mulligan. */
    method DealOpeningHands(rng: Rng.Rng)
      requires Valid()
      modifies this, rng
      ensures Valid() && game == old(game) && discardPile == old(discardPile)
      ensures (deck, players, stats, rng.state)
              == OpeningDeal(old(deck), old(players), old(stats), old(game.firstTurnPlayer), old(rng.state))
    {
      var start := game.firstTurnPlayer;
      var _ := DrawCards(start, HandLimit);
      var _ := DrawCards(Opponent(start), HandLimit);
      var _ := RunOpeningMulliganIfNeeded(start, rng);
      var _ := RunOpeningMulliganIfNeeded(Opponent(start), rng);
    }

    /** The draw phase of `runSingleGame`: one card, then the recruit phase. */
    method DrawStep()
      requires Valid() && game.turnPhase == DrawPhase
      modifies this
      ensures Valid() && game == old(game).(turnPhase := RecruitPhase) && discardPile == old(discardPile)
      ensures (deck, players, stats) == DrawInto(old(deck), old(players), old(stats), old(game.currentTurn), 1)
    {
      var _ := DrawCards(game.currentTurn, 1);
      game := game.(turnPhase := RecruitPhase);
    }

    /**
     * The recruit phase of `runSingleGame`: the first player's first turn
     * skips combat (discarding if needed, else ending the turn); every other
     * turn goes on to combat with the heroes' attacks reset.
     */
    method RecruitStep() returns (ended: bool)
      requires Valid() && game.turnPhase == RecruitPhase
      modifies this
      ensures Valid()
      ensures var (ps, t) := RecruitTurn(old(players), old(stats), old(game.currentTurn));
              (game, players, ended) == LeaveRecruit(old(game), ps) && stats == t
      ensures deck == old(deck) && discardPile == old(discardPile)
      ensures PhasePassed(old(game), game, ended)
      ensures ended ==> !HasHeroes(players.Get(game.currentTurn).heroes)
    {
      RunRecruitPhase(game.currentTurn);
      ended := LeaveRecruitPhase();
    }

    /** After recruiting: the discard phase or the end of the turn on the first turn, else combat. */
    method LeaveRecruitPhase() returns (ended: bool)
      requires Valid() && game.turnPhase == RecruitPhase
      modifies this
      ensures Valid()
      ensures (game, players, ended) == LeaveRecruit(old(game), old(players))
      ensures deck == old(deck) && discardPile == old(discardPile) && stats == old(stats)
      ensures PhasePassed(old(game), game, ended)
      ensures ended ==> !HasHeroes(players.Get(game.currentTurn).heroes)
    {
      var activePlayer := game.currentTurn;
      ended := false;
      ghost var g0 := game;
      if game.turn == 1 && activePlayer == game.firstTurnPlayer {
        if RequiredDiscardCount(players.Get(activePlayer).hand) > 0 {
          game := game.(turnPhase := DiscardPhase);
          PhaseMovedOn(g0, DiscardPhase);
        } else {
          ended := FinishTurn();
        }
      } else {
        game := game.(turnPhase := CombatPhase);
        PhaseMovedOn(g0, CombatPhase);
        ResetCombatActions(activePlayer);
      }
    }

    /** The combat phase of `runSingleGame`: the attacks, then the discard phase or the end of the turn. */
    method CombatStep(rng: Rng.Rng) returns (ended: bool)
      requires Valid() && game.turnPhase == CombatPhase
      modifies this, rng
      ensures Valid()
      ensures var id := old(game.currentTurn);
              var f := CombatRun(Fight(old(players), old(stats), old(rng.state)), id, DeclaredAttacks(old(players), id));
              (game, players, ended) == DiscardOrFinish(old(game), f.players) && stats == f.tally && rng.state == f.state
      ensures deck == old(deck) && discardPile == old(discardPile)
      ensures PhasePassed(old(game), game, ended)
      ensures ended ==> !HasHeroes(players.Get(game.currentTurn).heroes)
    {
      var activePlayer := game.currentTurn;
      RunCombatPhase(activePlayer, rng);
      ended := false;
      if RequiredDiscardCount(players.Get(activePlayer).hand) > 0 {
        game := game.(turnPhase := DiscardPhase);
      } else {
        ended := FinishTurn();
      }
    }

    /** The discard phase of `runSingleGame`: a hand still above seven stops the game, else the turn ends. */
    method DiscardStep() returns (ended: bool, stuck: bool)
      requires Valid()
      modifies this
      ensures Valid()
      ensures var id := old(game.currentTurn);
              var (ps, pile, t) := DiscardTurn(old(players), old(discardPile), old(stats), id);
              discardPile == pile && stats == t && deck == old(deck)
              && (stuck <==> RequiredDiscardCount(ps.Get(id).hand) > 0)
              && (stuck ==> players == ps)
              && (!stuck ==> (game, players, ended) == Finish(old(game), ps))
      ensures stuck ==> !ended && game == old(game)
      ensures !stuck ==> Handover(old(game), game, ended)
      ensures ended ==> !HasHeroes(players.Get(game.currentTurn).heroes)
    {
      var activePlayer := game.currentTurn;
      RunDiscardPhase(activePlayer);
      ended, stuck := false, false;
      if RequiredDiscardCount(players.Get(activePlayer).hand) > 0 {
        stuck := true;
      } else {
        ended := FinishTurn();
      }
    }

    /**
     * One pass of the phase loop of `runSingleGame` for the active player.
     * `ended` reports that a player was left without heroes; `stuck` that the
     * hand is still above seven after the discard, which stops the game.
     */
    method PlayPhase(maxTurns: int, rng: Rng.Rng) returns (ended: bool, stuck: bool)
      requires Valid() && game.phase == Playing && game.winner == None && 1 <= game.turn <= maxTurns
      modifies this, rng
      ensures Valid()
      ensures game.firstTurnPlayer == old(game.firstTurnPlayer)
      ensures 1 <= game.turn <= maxTurns + 1
      ensures ended <==> game.phase == Ended
      ensures ended ==> game.winner == Some(Opponent(game.currentTurn)) && !HasHeroes(players.Get(game.currentTurn).heroes)
      ensures !ended ==> game.winner == None
      ensures stuck ==> !ended
      ensures !ended && !stuck ==> Progress(game, maxTurns) < Progress(old(game), maxTurns)
    {
      ghost var g0 := game;
      ended, stuck := false, false;
      match game.turnPhase {
        case DrawPhase =>
          DrawStep();
        case RecruitPhase =>
          ended := RecruitStep();
        case CombatPhase =>
          ended := CombatStep(rng);
        case DiscardPhase =>
          ended, stuck := DiscardStep();
        case EndPhase =>
          ended := FinishTurn();
      }
      if !stuck {
        PhasePassedProgress(g0, game, ended, maxTurns);
      }
    }
  }

  // ---------------------------------------------------------------------------
  // One game (runSingleGame)
  // ---------------------------------------------------------------------------

  /** The per-game statistics record `runSingleGame` returns. */
  datatype GameReport = GameReport(
    gameIndex: int,
    seedUsed: string,
    startingPlayer: PlayerId,
    winner: Option<PlayerId>,
    winnerIsStarter: bool,
    turnCount: int,
    endedByNoHeroes: bool,
    timedOutByMaxTurns: bool,
    tally: Tally,
    finalHeroesA: nat,
    finalHeroesB: nat,
    deckRemaining: nat)

  function FinalHeroes(r: GameReport, id: PlayerId): nat
  {
    if id == PlayerA then r.finalHeroesA else r.finalHeroesB
  }

  /**
   * What every report satisfies: a game either ends because a player is left
   * without heroes, and then that player's opponent wins and the loser has no
   * hero on the board, or it times out without a winner; the kill counters
   * add up.
   */
  predicate WellFormedReport(r: GameReport)
  {
    r.turnCount >= 1
    && (r.winnerIsStarter <==> r.winner == Some(r.startingPlayer))
    && (r.endedByNoHeroes <==> r.winner.Some?)
    && (r.timedOutByMaxTurns <==> !r.endedByNoHeroes)
    && r.finalHeroesA <= MaxHeroSlots && r.finalHeroesB <= MaxHeroSlots
    && (r.winner.Some? ==> FinalHeroes(r, Opponent(r.winner.value)) == 0)
    && r.tally.heroesKilledTotal == r.tally.heroesKilledByPlayerA + r.tally.heroesKilledByPlayerB
  }

  /** The order of the steps within one player's turn, for the termination argument. */
  function PhaseRank(t: TurnPhase): nat
  {
    match t
    case DrawPhase => 3
    case RecruitPhase => 2
    case CombatPhase => 1
    case DiscardPhase => 0
    case EndPhase => 0
  }

  /**
   * A measure of how far a game is from its turn limit: turns left, then
   * whether player A (who moves first in each turn number's second half) is
   * still to hand over, then the step within the turn.
   */
  function Progress(g: GameStatus, maxTurns: int): nat
  {
    var left := if g.turn > maxTurns then 0 else maxTurns + 1 - g.turn;
    left * 8 + (if g.currentTurn == PlayerA then 4 else 0) + PhaseRank(g.turnPhase)
  }

  /**
   * `finishTurn` on the status: the match ends with the opponent as the
   * winner, or the opponent moves next at the start of its turn, the turn
   * counter advancing when play returns to player A.
   */
  predicate Handover(g0: GameStatus, g: GameStatus, ended: bool)
  {
    (ended ==> g == g0.(phase := Ended, turnPhase := EndPhase, winner := Some(Opponent(g0.currentTurn))))
    && (!ended ==> g == g0.(currentTurn := Opponent(g0.currentTurn),
                            turn := if g0.currentTurn == PlayerB then g0.turn + 1 else g0.turn,
                            turnPhase := DrawPhase))
  }

  /** Moving on to a later phase of the same turn is a pass of the phase loop. */
  lemma PhaseMovedOn(g0: GameStatus, t: TurnPhase)
    requires PhaseRank(t) < PhaseRank(g0.turnPhase)
    ensures PhasePassed(g0, g0.(turnPhase := t), false)
  {
  }

  /** One pass of the phase loop: the turn is handed over, or play moves on to a later phase of the same turn. */
  predicate PhasePassed(g0: GameStatus, g: GameStatus, ended: bool)
  {
    Handover(g0, g, ended)
    || (!ended && g == g0.(turnPhase := g.turnPhase) && PhaseRank(g.turnPhase) < PhaseRank(g0.turnPhase))
  }

  /**
   * Every pass of the phase loop that does not end the match brings it closer
   * to the turn limit; the turn counter passes the limit by at most one and
   * the first player never changes.
   */
  lemma PhasePassedProgress(g0: GameStatus, g: GameStatus, ended: bool, maxTurns: int)
    requires PhasePassed(g0, g, ended) && 1 <= g0.turn <= maxTurns
    requires g0.phase == Playing && g0.winner == None
    ensures g.firstTurnPlayer == g0.firstTurnPlayer && 1 <= g.turn <= maxTurns + 1
    ensures ended <==> g.phase == Ended
    ensures ended ==> g.winner == Some(Opponent(g.currentTurn))
    ensures !ended ==> g.winner == None && Progress(g, maxTurns) < Progress(g0, maxTurns)
  {
  }

  /** The player who starts a game played from this seed on this batch. */
  function StartingPlayer(batchCards: seq<Card>, seed: string): PlayerId
  {
    var s0 := Rng.InitialState(Rng.Text(Text.Utf16(seed)));
    FirstPlayer(Rng.DrawInt(Rng.Shuffled(batchCards, s0).1, 0, 1).0)
  }

  /** `createRng(seed)` and `createInitialState`: a fresh match in the recruit phase of turn 1. */
  method StartMatch(batchCards: seq<Card>, seed: string) returns (m: Match, rng: Rng.Rng)
    ensures fresh(m) && fresh(rng)
    ensures m.Valid()
    ensures m.game.phase == Playing && m.game.turn == 1 && m.game.winner == None
    ensures m.game.firstTurnPlayer == StartingPlayer(batchCards, seed)
  {
    rng := new Rng.Rng(Rng.Text(Text.Utf16(seed)));
    m := new Match(batchCards, rng);
  }

  /**
   * `runSingleGame`: set up the match, deal seven cards to each player (the
   * first player first), give each a mulligan, then run the phases until a
   * player is left without heroes or the turn limit (or a failed discard)
   * stops the game.
   */
  method RunSingleGame(batchCards: seq<Card>, gameIndex: int, seed: string, maxTurns: int) returns (report: GameReport)
    ensures WellFormedReport(report)
    ensures report.gameIndex == gameIndex && report.seedUsed == seed
    ensures report.startingPlayer == StartingPlayer(batchCards, seed)
    ensures 1 <= report.turnCount <= (if maxTurns >= 1 then maxTurns + 1 else 1)
    ensures maxTurns < 1 ==> report.timedOutByMaxTurns
  {
    var m, rng := StartMatch(batchCards, seed);
    var start := m.game.firstTurnPlayer;
    m.DealOpeningHands(rng);
    var endedByNoHeroes := false;
    var timedOut := false;
    while m.game.phase == Playing
      invariant m.Valid()
      invariant m.game.firstTurnPlayer == start
      invariant 1 <= m.game.turn <= (if maxTurns >= 1 then maxTurns + 1 else 1)
      invariant m.game.phase == Ended ==> m.game.winner == Some(Opponent(m.game.currentTurn))
                                          && !HasHeroes(m.players.Get(m.game.currentTurn).heroes)
      invariant m.game.phase == Playing ==> m.game.winner == None
      invariant endedByNoHeroes <==> m.game.phase == Ended
      invariant !timedOut
      invariant maxTurns < 1 ==> m.game.phase == Playing
      decreases if m.game.phase == Playing then 1 else 0, Progress(m.game, maxTurns)
    {
      if m.game.turn > maxTurns {
        timedOut := true;
        break;
      }
      var ended, stuck := m.PlayPhase(maxTurns, rng);
      if stuck {
        timedOut := true;
        break;
      }
      if ended {
        endedByNoHeroes := true;
      }
    }
    var winner := m.game.winner;
    var finalA := HeroCount(m.players.a.heroes);
    var finalB := HeroCount(m.players.b.heroes);
    if winner.Some? {
      HeroCountZero(m.players.Get(Opponent(winner.value)).heroes);
      OpponentInvolutive(m.game.currentTurn);
    }
    report := GameReport(gameIndex, seed, start, winner, winner.Some? && winner.value == start,
                         if m.game.turn >= 1 then m.game.turn else 1, endedByNoHeroes, timedOut,
                         m.stats, finalA, finalB, |m.deck|);
  }
}
