/**
 * Combat arithmetic and the defender-reaction evaluator of the match simulator
 * (scripts/lib/simEngine.js): the d20 damage rule with fumble and critical,
 * the three reactive effects, the evaluation of one reaction card (a
 * counterattack rolls two dice), and the choice of the best reaction by a
 * lexicographic score.
 *
 * Reaction evaluation draws from the match RNG, so the specification
 * functions thread the generator's `bv32` state and the methods take the
 * `Rng` object itself.
 */
module SimCombat {
  import opened Wrappers
  import opened SimRules
  import Rng

  // ---------------------------------------------------------------------------
  // The damage rule
  // ---------------------------------------------------------------------------

  function Max0(x: int): (r: int)
    ensures r >= 0 && r >= x
    ensures x >= 0 ==> r == x
  {
    if x >= 0 then x else 0
  }

  /**
   * The damage of a d20 exchange: the margin of attack total over defence
   * total, floored at 0; an attack roll of 1 (fumble) deals nothing and a
   * roll of 20 (critical) adds the critical bonus.
   */
  function ExchangeDamage(attack: int, defence: int, attackRoll: int, defenceRoll: int): (d: int)
    ensures d >= 0
    ensures attackRoll == 1 ==> d == 0
    ensures attackRoll == 20 ==> d == Max0(attack + 20 - (defence + defenceRoll)) + CriticalBonus
    ensures attackRoll != 1 && attackRoll != 20 ==> d == Max0(attack + attackRoll - (defence + defenceRoll))
  {
    var margin := Max0(attack + attackRoll - (defence + defenceRoll));
    if attackRoll == 1 then 0
    else if attackRoll == 20 then margin + CriticalBonus
    else margin
  }

  /** More attack never lowers the damage, and more defence never raises it. */
  lemma ExchangeDamageMonotone(atk1: int, atk2: int, def1: int, def2: int, aRoll: int, dRoll: int)
    requires atk1 <= atk2 && def2 <= def1
    ensures ExchangeDamage(atk1, def1, aRoll, dRoll) <= ExchangeDamage(atk2, def2, aRoll, dRoll)
  {
  }

  /**
   * The counterattack's own arithmetic, as the source writes it: the counter
   * damage stat (floored at 0) plus its roll against the attacker's defence
   * (floored at 0) plus the second roll, zeroed on a 1, plus the bonus on a 20.
   */
  function CounterDamage(counterStat: int, attackerDef: int, attackRoll: int, defenceRoll: int): int
  {
    var stat := Max0(counterStat);
    var def := Max0(attackerDef);
    var margin := Max0((stat + attackRoll) - (def + defenceRoll));
    var afterFumble := if attackRoll == 1 then 0 else margin;
    if attackRoll == 20 then afterFumble + CriticalBonus else afterFumble
  }

  /** The counterattack follows the attack rule, with both stats floored at 0. */
  lemma CounterFollowsExchangeRule(counterStat: int, attackerDef: int, attackRoll: int, defenceRoll: int)
    ensures CounterDamage(counterStat, attackerDef, attackRoll, defenceRoll)
            == ExchangeDamage(Max0(counterStat), Max0(attackerDef), attackRoll, defenceRoll)
  {
  }

  // ---------------------------------------------------------------------------
  // Reactive effects
  // ---------------------------------------------------------------------------

  /** The damage context a reaction is evaluated against. */
  datatype ReactionContext = ReactionContext(
    damage: int,
    isCritical: bool,
    criticalBonus: int,
    defenderHpBefore: int,
    attackerDef: int,
    counterDamage: int,
    counterCriticalCount: int,
    counterFumbleCount: int,
    counterattackUsed: bool)

  /** What a reactive effect leaves of the hit: the new damage and critical flag. */
  datatype Hit = Hit(damage: int, isCritical: bool)

  /**
   * `applyReactiveEffect`: None when the effect does not apply.
   */
  function ApplyReactiveEffect(card: Card, ctx: ReactionContext): (r: Option<Hit>)
    ensures card.effect == ReduceDamage ==>
      (r.None? <==> Max0(card.stats.damageReduction) <= 0 || ctx.damage <= 0)
      && (r.Some? ==> r.value == Hit(Max0(ctx.damage - card.stats.damageReduction), ctx.isCritical))
    ensures card.effect == CancelCritical ==>
      (r.None? <==> !ctx.isCritical || ctx.criticalBonus <= 0 || ctx.damage <= 0)
      && (r.Some? ==> r.value == Hit(Max0(ctx.damage - ctx.criticalBonus), false))
    ensures card.effect == PreventDeath ==>
      (r.None? <==> ctx.damage < ctx.defenderHpBefore)
      && (r.Some? ==> r.value == Hit(Max0(ctx.defenderHpBefore - 1), ctx.isCritical))
    ensures card.effect == NoEffect ==> r.None?
  {
    match card.effect
    case ReduceDamage =>
      var reduction := Max0(card.stats.damageReduction);
      if reduction <= 0 || ctx.damage <= 0 then None
      else Some(Hit(Max0(ctx.damage - reduction), ctx.isCritical))
    case CancelCritical =>
      if !ctx.isCritical || ctx.criticalBonus <= 0 || ctx.damage <= 0 then None
      else Some(Hit(Max0(ctx.damage - ctx.criticalBonus), false))
    case PreventDeath =>
      if ctx.damage < ctx.defenderHpBefore then None
      else Some(Hit(Max0(ctx.defenderHpBefore - 1), ctx.isCritical))
    case NoEffect => None
  }

  /** An applicable effect never raises the damage of a hit that deals any. */
  lemma ReactiveEffectNeverRaisesDamage(card: Card, ctx: ReactionContext)
    requires ApplyReactiveEffect(card, ctx).Some?
    ensures ApplyReactiveEffect(card, ctx).value.damage <= Max0(ctx.damage)
  {
  }

  /** `prevent_death` leaves a defender with HP at least 1 alive after the hit. */
  lemma PreventDeathSurvives(card: Card, ctx: ReactionContext)
    requires card.effect == PreventDeath && ctx.defenderHpBefore >= 1
    requires ApplyReactiveEffect(card, ctx).Some?
    ensures ctx.defenderHpBefore - ApplyReactiveEffect(card, ctx).value.damage == 1
  {
  }

  // ---------------------------------------------------------------------------
  // Evaluating one reaction card
  // ---------------------------------------------------------------------------

  /** The outcome of playing one reaction card, as `evaluateReactionCandidate` builds it. */
  datatype Applied = Applied(
    kind: CardType,
    card: Card,
    nextDamage: int,
    nextIsCritical: bool,
    counterDamage: int,
    counterCriticalCount: int,
    counterFumbleCount: int,
    counterattackUsed: bool,
    counterDamageAdded: int)

  /** `evaluateReactionCandidate` from RNG state `s`: the outcome (if any) and the state after it. */
  function EvaluateCandidate(card: Card, ctx: ReactionContext, s: bv32): (r: (Option<Applied>, bv32))
    ensures card.kind != ReactiveCard && card.kind != CounterattackCard ==> r == (None, s)
    ensures card.kind == ReactiveCard ==> r.1 == s
    ensures card.kind == CounterattackCard && ctx.counterattackUsed ==> r == (None, s)
    ensures card.kind == CounterattackCard && !ctx.counterattackUsed ==> r.0.Some? && r.1 == Rng.StepN(s, 2)
    ensures r.0.Some? ==> r.0.value.card == card && r.0.value.kind == card.kind
  {
    if card.kind == ReactiveCard then
      match ApplyReactiveEffect(card, ctx)
      case None => (None, s)
      case Some(hit) =>
        (Some(Applied(ReactiveCard, card, hit.damage, hit.isCritical, ctx.counterDamage,
                      ctx.counterCriticalCount, ctx.counterFumbleCount, false, 0)), s)
    else if card.kind == CounterattackCard then
      if ctx.counterattackUsed then (None, s)
      else
        var (attackRoll, s1) := Rng.DrawInt(s, 1, 20);
        var (defenceRoll, s2) := Rng.DrawInt(s1, 1, 20);
        var final := CounterDamage(card.stats.counterDamage, ctx.attackerDef, attackRoll, defenceRoll);
        var crit := if attackRoll == 20 then 1 else 0;
        var fumble := if attackRoll == 1 then 1 else 0;
        (Some(Applied(CounterattackCard, card, ctx.damage, ctx.isCritical, ctx.counterDamage + final,
                      ctx.counterCriticalCount + crit, ctx.counterFumbleCount + fumble, true, final)), s2)
    else (None, s)
  }

  /** A counterattack leaves the hit as it was and only adds its own non-negative damage. */
  lemma CounterattackKeepsHit(card: Card, ctx: ReactionContext, s: bv32)
    requires card.kind == CounterattackCard && !ctx.counterattackUsed
    ensures var a := EvaluateCandidate(card, ctx, s).0.value;
            a.nextDamage == ctx.damage && a.nextIsCritical == ctx.isCritical
            && a.counterDamageAdded >= 0 && a.counterDamage == ctx.counterDamage + a.counterDamageAdded
            && a.counterattackUsed
  {
  }

  /** `evaluateReactionCandidate`, drawing from the generator itself. */
  method EvaluateReactionCandidate(card: Card, ctx: ReactionContext, rng: Rng.Rng) returns (r: Option<Applied>)
    modifies rng
    ensures r == EvaluateCandidate(card, ctx, old(rng.state)).0
    ensures rng.state == EvaluateCandidate(card, ctx, old(rng.state)).1
  {
    if card.kind == ReactiveCard {
      var applied := ApplyReactiveEffect(card, ctx);
      if applied.None? {
        return None;
      }
      var hit := applied.value;
      return Some(Applied(ReactiveCard, card, hit.damage, hit.isCritical, ctx.counterDamage,
                          ctx.counterCriticalCount, ctx.counterFumbleCount, false, 0));
    }
    if card.kind == CounterattackCard {
      if ctx.counterattackUsed {
        return None;
      }
      var attackRoll := rng.Int(1, 20);
      var defenceRoll := rng.Int(1, 20);
      var a, d := attackRoll.value, defenceRoll.value;
      var final := CounterDamage(card.stats.counterDamage, ctx.attackerDef, a, d);
      var crit := if a == 20 then 1 else 0;
      var fumble := if a == 1 then 1 else 0;
      return Some(Applied(CounterattackCard, card, ctx.damage, ctx.isCritical, ctx.counterDamage + final,
                          ctx.counterCriticalCount + crit, ctx.counterFumbleCount + fumble, true, final));
    }
    return None;
  }

  // ---------------------------------------------------------------------------
  // Candidates and their scores
  // ---------------------------------------------------------------------------

  /** A card of the hand together with its index there. */
  datatype Candidate = Candidate(card: Card, handIndex: nat)

  /** A hand card that can be played as a reaction: a reactive or counterattack card the defender can afford. */
  predicate IsReactionCard(card: Card, resources: int)
  {
    (card.kind == ReactiveCard || card.kind == CounterattackCard) && resources >= card.cost
  }

  /** The candidate list of `chooseDefenderReactionCard`, from hand index `start` on. */
  function CandidatesFrom(hand: seq<Card>, resources: int, start: nat): (cs: seq<Candidate>)
    requires start <= |hand|
    ensures forall k :: 0 <= k < |cs| ==>
      start <= cs[k].handIndex < |hand| && hand[cs[k].handIndex] == cs[k].card
      && IsReactionCard(cs[k].card, resources)
    ensures forall k, m :: 0 <= k < m < |cs| ==> cs[k].handIndex < cs[m].handIndex
    decreases |hand| - start
  {
    if start == |hand| then []
    else
      var rest := CandidatesFrom(hand, resources, start + 1);
      if IsReactionCard(hand[start], resources) then
        var cs := [Candidate(hand[start], start)] + rest;
        assert forall k :: 1 <= k < |cs| ==> cs[k] == rest[k - 1];
        cs
      else rest
  }

  /** Every affordable reactive or counterattack card from `start` on is a candidate. */
  lemma {:induction false} CandidatesFromComplete(hand: seq<Card>, resources: int, start: nat, i: nat)
    requires start <= i < |hand| && IsReactionCard(hand[i], resources)
    ensures exists k :: 0 <= k < |CandidatesFrom(hand, resources, start)|
                        && CandidatesFrom(hand, resources, start)[k] == Candidate(hand[i], i)
    decreases i - start
  {
    var cs := CandidatesFrom(hand, resources, start);
    var rest := CandidatesFrom(hand, resources, start + 1);
    if i == start {
      assert cs == [Candidate(hand[start], start)] + rest;
      assert cs[0] == Candidate(hand[i], i);
    } else {
      CandidatesFromComplete(hand, resources, start + 1, i);
      var k :| 0 <= k < |rest| && rest[k] == Candidate(hand[i], i);
      if IsReactionCard(hand[start], resources) {
        assert cs == [Candidate(hand[start], start)] + rest;
        assert cs[k + 1] == rest[k];
      } else {
        assert cs == rest;
      }
    }
  }

  function Candidates(hand: seq<Card>, resources: int): seq<Candidate>
  {
    CandidatesFrom(hand, resources, 0)
  }

  /** The score of `chooseDefenderReactionCard`, in comparison order. */
  datatype Score = Score(survives: int, damageSaved: int, counterDamage: int, remainingHp: int, handIndex: int)

  function ScoreOf(ctx: ReactionContext, c: Candidate, a: Applied): (sc: Score)
    ensures sc.survives == 1 <==> ctx.defenderHpBefore - a.nextDamage > 0
    ensures sc.survives == 0 || sc.survives == 1
    ensures sc.handIndex == -(c.handIndex as int)
  {
    var nextHp := Max0(ctx.defenderHpBefore - a.nextDamage);
    Score(if nextHp > 0 then 1 else 0,
          Max0(ctx.damage - a.nextDamage),
          Max0(a.counterDamage - ctx.counterDamage),
          nextHp,
          -(c.handIndex as int))
  }

  /** The source's chain of comparisons: does `s` replace the best so far, `t`? */
  predicate Beats(s: Score, t: Score)
  {
    if s.survives != t.survives then s.survives > t.survives
    else if s.damageSaved != t.damageSaved then s.damageSaved > t.damageSaved
    else if s.counterDamage != t.counterDamage then s.counterDamage > t.counterDamage
    else if s.remainingHp != t.remainingHp then s.remainingHp > t.remainingHp
    else s.handIndex > t.handIndex
  }

  /** Beats is the lexicographic order on the five components: a strict total order. */
  lemma BeatsIsStrictTotalOrder(s: Score, t: Score, u: Score)
    ensures !Beats(s, s)
    ensures Beats(s, t) ==> !Beats(t, s)
    ensures s != t ==> Beats(s, t) || Beats(t, s)
    ensures Beats(s, t) && Beats(t, u) ==> Beats(s, u)
  {
  }

  // ---------------------------------------------------------------------------
  // The choice
  // ---------------------------------------------------------------------------

  /** Evaluate the candidates in order from RNG state `s`: each outcome, and the state after the last. */
  function EvaluateAll(cs: seq<Candidate>, ctx: ReactionContext, s: bv32): (r: (seq<Option<Applied>>, bv32))
    ensures |r.0| == |cs|
    ensures forall k :: 0 <= k < |cs| && r.0[k].Some? ==> r.0[k].value.card == cs[k].card
    decreases |cs|
  {
    if cs == [] then ([], s)
    else
      var (rest, s1) := EvaluateAll(cs[..|cs| - 1], ctx, s);
      var (a, s2) := EvaluateCandidate(cs[|cs| - 1].card, ctx, s1);
      (rest + [a], s2)
  }

  /** The index of the best outcome among the first |rs| candidates, as the loop keeps it. */
  function BestOf(cs: seq<Candidate>, rs: seq<Option<Applied>>, ctx: ReactionContext): (b: Option<nat>)
    requires |rs| <= |cs|
    ensures b.Some? ==> b.value < |rs| && rs[b.value].Some?
    decreases |rs|
  {
    if rs == [] then None
    else
      var n := |rs| - 1;
      var prev := BestOf(cs, rs[..n], ctx);
      match rs[n]
      case None => prev
      case Some(a) =>
        if prev.None? then Some(n)
        else if Beats(ScoreOf(ctx, cs[n], a), ScoreOf(ctx, cs[prev.value], rs[prev.value].value)) then Some(n)
        else prev
  }

  /** The key of the k-th outcome, for an outcome that exists. */
  function KeyAt(cs: seq<Candidate>, rs: seq<Option<Applied>>, ctx: ReactionContext, k: nat): Score
    requires |rs| <= |cs| && k < |rs| && rs[k].Some?
  {
    ScoreOf(ctx, cs[k], rs[k].value)
  }

  /** The best outcome exists exactly when some outcome does, and no outcome beats it. */
  lemma {:induction false} BestOfIsMaximal(cs: seq<Candidate>, rs: seq<Option<Applied>>, ctx: ReactionContext)
    requires |rs| <= |cs|
    ensures BestOf(cs, rs, ctx).None? <==> forall k :: 0 <= k < |rs| ==> rs[k].None?
    ensures BestOf(cs, rs, ctx).Some? ==>
      forall k :: 0 <= k < |rs| && rs[k].Some? ==>
        !Beats(KeyAt(cs, rs, ctx, k), KeyAt(cs, rs, ctx, BestOf(cs, rs, ctx).value))
    decreases |rs|
  {
    if rs != [] {
      var n := |rs| - 1;
      var front := rs[..n];
      BestOfIsMaximal(cs, front, ctx);
      assert forall k :: 0 <= k < n ==> front[k] == rs[k];
      var prev := BestOf(cs, front, ctx);
      if rs[n].Some? && prev.Some? {
        var b := BestOf(cs, rs, ctx).value;
        forall k | 0 <= k < |rs| && rs[k].Some?
          ensures !Beats(KeyAt(cs, rs, ctx, k), KeyAt(cs, rs, ctx, b))
        {
          var kb := KeyAt(cs, rs, ctx, b);
          var kp := KeyAt(cs, rs, ctx, prev.value);
          var kn := KeyAt(cs, rs, ctx, n);
          BeatsIsStrictTotalOrder(KeyAt(cs, rs, ctx, k), kp, kb);
          BeatsIsStrictTotalOrder(kn, kp, kb);
          if k < n {
            assert KeyAt(cs, front, ctx, k) == KeyAt(cs, rs, ctx, k);
            assert KeyAt(cs, front, ctx, prev.value) == kp;
          }
        }
      } else if rs[n].Some? {
        assert BestOf(cs, rs, ctx) == Some(n);
      } else if prev.Some? {
        forall k | 0 <= k < |rs| && rs[k].Some?
          ensures !Beats(KeyAt(cs, rs, ctx, k), KeyAt(cs, rs, ctx, prev.value))
        {
          assert KeyAt(cs, front, ctx, k) == KeyAt(cs, rs, ctx, k);
          assert KeyAt(cs, front, ctx, prev.value) == KeyAt(cs, rs, ctx, prev.value);
        }
      }
    }
  }

  /** The source's choice from RNG state `s`: the best candidate's index, and the state after evaluation. */
  function Choice(hand: seq<Card>, resources: int, ctx: ReactionContext, s: bv32): (Option<nat>, bv32)
  {
    var cs := Candidates(hand, resources);
    var (rs, s1) := EvaluateAll(cs, ctx, s);
    (BestOf(cs, rs, ctx), s1)
  }

  /**
   * The best choice: the candidate, its outcome and its score as the source's
   * `bestChoice` holds them.
   */
  datatype BestChoice = BestChoice(candidate: Candidate, applied: Applied, score: Score)

  /** One more candidate evaluated: its outcome is appended and the state advances past it. */
  lemma EvaluateAllSnoc(cs: seq<Candidate>, i: nat, ctx: ReactionContext, s: bv32,
                        rs: seq<Option<Applied>>, s1: bv32, a: Option<Applied>, s2: bv32)
    requires i < |cs|
    requires rs == EvaluateAll(cs[..i], ctx, s).0 && s1 == EvaluateAll(cs[..i], ctx, s).1
    requires a == EvaluateCandidate(cs[i].card, ctx, s1).0 && s2 == EvaluateCandidate(cs[i].card, ctx, s1).1
    ensures EvaluateAll(cs[..i + 1], ctx, s).0 == rs + [a] && EvaluateAll(cs[..i + 1], ctx, s).1 == s2
  {
    assert cs[..i + 1][..i] == cs[..i];
  }

  /** One more outcome: the best so far is replaced exactly when the new outcome beats it. */
  lemma BestOfSnoc(cs: seq<Candidate>, rs: seq<Option<Applied>>, a: Option<Applied>, ctx: ReactionContext)
    requires |rs| < |cs|
    ensures var prev := BestOf(cs, rs, ctx);
            BestOf(cs, rs + [a], ctx)
            == if a.None? then prev
               else if prev.None? || Beats(ScoreOf(ctx, cs[|rs|], a.value), ScoreOf(ctx, cs[prev.value], rs[prev.value].value))
               then Some(|rs|)
               else prev
  {
    assert (rs + [a])[..|rs|] == rs;
  }

  /** `best` is what the source holds for the best of the outcomes `rs` so far. */
  predicate Tracks(cs: seq<Candidate>, rs: seq<Option<Applied>>, ctx: ReactionContext, best: Option<BestChoice>)
    requires |rs| <= |cs|
  {
    var b := BestOf(cs, rs, ctx);
    (best.None? <==> b.None?)
    && (best.Some? ==> b.Some? && best.value == BestChoice(cs[b.value], rs[b.value].value,
                                                           ScoreOf(ctx, cs[b.value], rs[b.value].value)))
  }

  /** The source's update of `bestChoice` after one more candidate keeps tracking the best outcome. */
  lemma TracksSnoc(cs: seq<Candidate>, rs: seq<Option<Applied>>, a: Option<Applied>, ctx: ReactionContext,
                   best: Option<BestChoice>, next: Option<BestChoice>)
    requires |rs| < |cs| && Tracks(cs, rs, ctx, best)
    requires next == if a.Some? && (best.None? || Beats(ScoreOf(ctx, cs[|rs|], a.value), best.value.score))
                     then Some(BestChoice(cs[|rs|], a.value, ScoreOf(ctx, cs[|rs|], a.value)))
                     else best
    ensures Tracks(cs, rs + [a], ctx, next)
  {
    BestOfSnoc(cs, rs, a, ctx);
    var b := BestOf(cs, rs, ctx);
    var rs' := rs + [a];
    assert rs'[|rs|] == a;
    if b.Some? {
      assert rs'[b.value] == rs[b.value];
    }
  }

  /**
   * `chooseDefenderReactionCard`: every candidate is evaluated in hand order
   * (so every affordable counterattack rolls), and the first candidate whose
   * score no later one beats is kept.
   */
  method ChooseDefenderReactionCard(hand: seq<Card>, resources: int, ctx: ReactionContext, rng: Rng.Rng)
    returns (best: Option<BestChoice>)
    modifies rng
    ensures rng.state == EvaluateAll(Candidates(hand, resources), ctx, old(rng.state)).1
    ensures best.None? <==> Choice(hand, resources, ctx, old(rng.state)).0.None?
    ensures best.Some? ==> ChoiceAgrees(hand, resources, ctx, old(rng.state), best.value)
  {
    var cs := Candidates(hand, resources);
    ghost var s0 := rng.state;
    ghost var rs: seq<Option<Applied>> := [];
    best := None;
    var i := 0;
    while i < |cs|
      invariant 0 <= i <= |cs| && |rs| == i
      invariant EvaluateAll(cs[..i], ctx, s0).0 == rs && EvaluateAll(cs[..i], ctx, s0).1 == rng.state
      invariant Tracks(cs, rs, ctx, best)
    {
      var candidate := cs[i];
      ghost var s1 := rng.state;
      var applied := EvaluateReactionCandidate(candidate.card, ctx, rng);
      EvaluateAllSnoc(cs, i, ctx, s0, rs, s1, applied, rng.state);
      var next := best;
      if applied.Some? {
        var score := ScoreOf(ctx, candidate, applied.value);
        if best.None? || Beats(score, best.value.score) {
          next := Some(BestChoice(candidate, applied.value, score));
        }
      }
      TracksSnoc(cs, rs, applied, ctx, best, next);
      rs := rs + [applied];
      best := next;
      i := i + 1;
    }
    assert cs[..i] == cs;
  }

  /** `c` is the candidate, outcome and score of the specified choice from RNG state `s`. */
  predicate ChoiceAgrees(hand: seq<Card>, resources: int, ctx: ReactionContext, s: bv32, c: BestChoice)
  {
    var cs := Candidates(hand, resources);
    var rs := EvaluateAll(cs, ctx, s).0;
    var b := BestOf(cs, rs, ctx);
    b.Some? && c.candidate == cs[b.value] && c.applied == rs[b.value].value
    && c.score == ScoreOf(ctx, cs[b.value], rs[b.value].value)
  }

  // ---------------------------------------------------------------------------
  // Properties of the choice
  // ---------------------------------------------------------------------------

  /** The chosen card is an affordable reactive or counterattack card of the hand. */
  lemma ChoiceIsPlayable(hand: seq<Card>, resources: int, ctx: ReactionContext, s: bv32)
    requires Choice(hand, resources, ctx, s).0.Some?
    ensures var cs := Candidates(hand, resources);
            var c := cs[Choice(hand, resources, ctx, s).0.value];
            c.handIndex < |hand| && hand[c.handIndex] == c.card && IsReactionCard(c.card, resources)
  {
  }

  /**
   * No applicable candidate has a lexicographically larger (survives,
   * damageSaved, counterDamage, remainingHp), and among equal ones the
   * earliest in the hand is chosen.
   */
  lemma ChoiceIsBest(hand: seq<Card>, resources: int, ctx: ReactionContext, s: bv32, k: nat)
    requires var cs := Candidates(hand, resources);
             k < |cs| && EvaluateAll(cs, ctx, s).0[k].Some?
    ensures var cs := Candidates(hand, resources);
            var rs := EvaluateAll(cs, ctx, s).0;
            var b := Choice(hand, resources, ctx, s).0;
            b.Some? && (k != b.value ==> Beats(KeyAt(cs, rs, ctx, b.value), KeyAt(cs, rs, ctx, k)))
            && (k != b.value && KeyAt(cs, rs, ctx, k).survives == KeyAt(cs, rs, ctx, b.value).survives
                && KeyAt(cs, rs, ctx, k).damageSaved == KeyAt(cs, rs, ctx, b.value).damageSaved
                && KeyAt(cs, rs, ctx, k).counterDamage == KeyAt(cs, rs, ctx, b.value).counterDamage
                && KeyAt(cs, rs, ctx, k).remainingHp == KeyAt(cs, rs, ctx, b.value).remainingHp
                ==> cs[b.value].handIndex < cs[k].handIndex)
  {
    var cs := Candidates(hand, resources);
    var rs := EvaluateAll(cs, ctx, s).0;
    BestOfIsMaximal(cs, rs, ctx);
    var b := BestOf(cs, rs, ctx).value;
    if k != b {
      var kk := KeyAt(cs, rs, ctx, k);
      var kb := KeyAt(cs, rs, ctx, b);
      assert kk.handIndex != kb.handIndex by {
        if k < b {
          assert cs[k].handIndex < cs[b].handIndex;
        } else {
          assert cs[b].handIndex < cs[k].handIndex;
        }
      }
      BeatsIsStrictTotalOrder(kb, kk, kb);
    }
  }

  /** The number of affordable counterattack cards among the candidates. */
  function CounterattackCount(cs: seq<Candidate>): nat
    decreases |cs|
  {
    if cs == [] then 0
    else CounterattackCount(cs[..|cs| - 1]) + (if cs[|cs| - 1].card.kind == CounterattackCard then 1 else 0)
  }

  /** Evaluation draws two values per affordable counterattack card, chosen or not, when none has been used yet. */
  lemma {:induction false} EvaluateAllDraws(cs: seq<Candidate>, ctx: ReactionContext, s: bv32)
    requires !ctx.counterattackUsed
    requires forall k :: 0 <= k < |cs| ==> cs[k].card.kind == ReactiveCard || cs[k].card.kind == CounterattackCard
    ensures EvaluateAll(cs, ctx, s).1 == Rng.StepN(s, 2 * CounterattackCount(cs))
    decreases |cs|
  {
    if cs != [] {
      var front := cs[..|cs| - 1];
      EvaluateAllDraws(front, ctx, s);
      var s1 := EvaluateAll(front, ctx, s).1;
      if cs[|cs| - 1].card.kind == CounterattackCard {
        Rng.StepNAdd(s, 2 * CounterattackCount(front), 2);
      }
    }
  }

  /** The choice's evaluation draws exactly two values per affordable counterattack card in the hand. */
  lemma ChoiceDraws(hand: seq<Card>, resources: int, ctx: ReactionContext, s: bv32)
    requires !ctx.counterattackUsed
    ensures Choice(hand, resources, ctx, s).1 == Rng.StepN(s, 2 * CounterattackCount(Candidates(hand, resources)))
  {
    EvaluateAllDraws(Candidates(hand, resources), ctx, s);
  }
}
