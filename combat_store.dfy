// The combat store of the client (src/stores/useCombatStore.js): the state
// machine of one combat's rolls (attacker, defender, damage, then the
// defender's reaction window) and the per-combat queues of reaction responses
// received from the other peer.
//
// Payload numbers arrive here already converted to integers; the clock
// (`Date.now()`) is the parameter `now`.

module CombatStore {
  import opened Wrappers
  import Text

  // ---------------------------------------------------------------------------
  // Values
  // ---------------------------------------------------------------------------

  /** `rollStep`. */
  datatype RollStep = Idle | AttackerPending | DefenderPending | DamagePending | ReactionPending | Resolved

  /** `payload.step`: one of the three roll steps, or anything else. */
  datatype StepName = AttackerStep | DefenderStep | DamageStep | OtherStep

  /** One entry of `reactions` as the host reports it at the end of a combat. */
  datatype ReactionLog = ReactionLog(cardId: string, playerId: string)

  /** `activeRoll`. A nullable number of the source is an `Option<int>`. */
  datatype ActiveRoll = ActiveRoll(
    combatId: string,
    attackerPlayerId: Option<string>, attackerSlot: int,
    defenderPlayerId: Option<string>, defenderSlot: int,
    attackerStat: int, defenderStat: int, defenderArmor: int, attackerDamageDieSides: int,
    attackerRoll: Option<int>, defenderRoll: Option<int>, damageRoll: Option<int>,
    rollingAttacker: bool, rollingDefender: bool, rollingDamage: bool,
    attackerTotal: Option<int>, defenderTotal: Option<int>,
    baseDamage: Option<int>, damage: Option<int>,
    hitSuccess: bool, isCritical: bool, isFumble: bool,
    defenderHpBefore: Option<int>, defenderHpAfter: Option<int>, defenderDefeated: bool,
    attackerHpBefore: Option<int>, attackerHpAfter: Option<int>, attackerDefeated: bool,
    counterDamageTotal: int, reactions: seq<ReactionLog>,
    startedAt: int, finishedAt: Option<int>)

  /** `pendingCombatContext`. */
  datatype PendingContext = PendingContext(
    combatId: string,
    attackerPlayerId: Option<string>, attackerSlot: int,
    defenderPlayerId: Option<string>, defenderSlot: int,
    attackerStat: int, defenderStat: int, defenderArmor: int, attackerDamageDieSides: int)

  /** `reactionWindow`. */
  datatype ReactionWindow = ReactionWindow(
    combatId: Option<string>, attackerPlayerId: Option<string>, defenderPlayerId: Option<string>,
    attackerRoll: int, defenderRoll: int, baseDamage: int, isCritical: bool, isFumble: bool, startedAt: int)

  /** One queued reaction response. */
  datatype ReactionResponse = ReactionResponse(cardId: Option<string>, pass: bool, targetSlot: Option<int>, receivedAt: int)

  /** The payload of `startCombatContext`; an absent string is "". */
  datatype StartPayload = StartPayload(
    combatId: string, attackerPlayerId: string, attackerSlot: int, defenderPlayerId: string, defenderSlot: int,
    attackerStat: int, defenderStat: int, defenderArmor: int,
    attackerDamageDieSides: Option<real>, startedAt: int)

  /** The payload of `setRollStepResult` and of `markRollStepStart`. */
  datatype StepPayload = StepPayload(
    combatId: string, step: StepName, roll: int, attackerTotal: int, defenderTotal: int,
    baseDamage: int, hitSuccess: bool, isCritical: bool, isFumble: bool)

  /** The payload of `openReactionWindow`. */
  datatype WindowPayload = WindowPayload(
    combatId: string, attackerPlayerId: string, defenderPlayerId: string,
    attackerRoll: int, defenderRoll: int, baseDamage: int, isCritical: bool, isFumble: bool, startedAt: int)

  /** The payload of `setReactionResponse`. */
  datatype ResponsePayload = ResponsePayload(cardId: string, pass: bool, targetSlot: Option<int>)

  /** The payload of `finishRoll`; a number the source reads with `??` is an `Option<int>`. */
  datatype FinishPayload = FinishPayload(
    combatId: string, attackerRoll: int, defenderRoll: int, damageRoll: int,
    attackerTotal: int, defenderTotal: int, baseDamage: Option<int>, damage: int, hitSuccess: bool,
    counterDamageTotal: int, isCritical: bool, isFumble: bool,
    attackerHpBefore: Option<int>, attackerHpAfter: Option<int>, attackerDefeated: bool,
    defenderHpBefore: Option<int>, defenderHpAfter: Option<int>, defenderDefeated: bool,
    reactions: Option<seq<ReactionLog>>)

  // ---------------------------------------------------------------------------
  // Pure helpers
  // ---------------------------------------------------------------------------

  /** `value || null` for a string. */
  function OrNull(s: string): (r: Option<string>)
    ensures r.None? <==> s == ""
    ensures r.Some? ==> r.value == s
  {
    if s == "" then None else Some(s)
  }

  /** `Number(value) || fallback` for an integer. */
  function OrElse(n: int, fallback: int): (r: int)
    ensures n != 0 ==> r == n
    ensures n == 0 ==> r == fallback
  {
    if n == 0 then fallback else n
  }

  /** `x ?? 0`. */
  function OrZero(x: Option<int>): (r: int)
    ensures x.Some? ==> r == x.value
    ensures x.None? ==> r == 0
  {
    match x
    case None => 0
    case Some(v) => v
  }

  /**
   * `normalizeDamageDieSides`: a value that is not a finite number (None)
   * gives a d2; otherwise the largest of 6, 4 and 2 not above the value, or
   * 2 below 4.
   */
  function NormalizeDamageDieSides(value: Option<real>): (sides: int)
    ensures sides == 2 || sides == 4 || sides == 6
    ensures value.Some? && value.value >= 6.0 ==> sides == 6
    ensures value.Some? && 4.0 <= value.value < 6.0 ==> sides == 4
    ensures value.None? || value.value < 4.0 ==> sides == 2
  {
    match value
    case None => 2
    case Some(numeric) =>
      if numeric >= 6.0 then 6
      else if numeric >= 4.0 then 4
      else 2
  }

  /** Normalising is idempotent: a normalised die size normalises to itself. */
  lemma NormalizeIdempotent(value: Option<real>)
    ensures var sides := NormalizeDamageDieSides(value);
            NormalizeDamageDieSides(Some(sides as real)) == sides
  {
  }

  /** Normalising is monotone in the given size. */
  lemma NormalizeMonotone(x: real, y: real)
    requires x <= y
    ensures NormalizeDamageDieSides(Some(x)) <= NormalizeDamageDieSides(Some(y))
  {
  }

  /** The id `combat-${Date.now()}` given to a combat started without one. */
  function FallbackCombatId(now: nat): (id: string)
    ensures |id| > 7 && id[..7] == "combat-"
  {
    "combat-" + Text.NatToString(now)
  }

  /** The order of the pending steps: each successful roll result moves exactly one step on. */
  function StepRank(s: RollStep): nat
  {
    match s
    case Idle => 0
    case AttackerPending => 1
    case DefenderPending => 2
    case DamagePending => 3
    case ReactionPending => 4
    case Resolved => 5
  }

  /** The step `setRollStepResult` moves to, when the payload's step is the pending one. */
  function NextStep(step: StepName, current: RollStep): (r: Option<RollStep>)
  {
    match (step, current)
    case (AttackerStep, AttackerPending) => Some(DefenderPending)
    case (DefenderStep, DefenderPending) => Some(DamagePending)
    case (DamageStep, DamagePending) => Some(ReactionPending)
    case _ => None
  }

  /**
   * A roll result is accepted only for the step that is pending, and then
   * moves exactly one step along attacker, defender, damage, reaction; it
   * never leaves or reaches the idle and resolved states.
   */
  lemma NextStepAdvancesByOne(step: StepName, current: RollStep)
    ensures NextStep(step, current).Some? <==>
              (step == AttackerStep && current == AttackerPending)
              || (step == DefenderStep && current == DefenderPending)
              || (step == DamageStep && current == DamagePending)
    ensures NextStep(step, current).Some? ==>
              StepRank(NextStep(step, current).value) == StepRank(current) + 1
              && NextStep(step, current).value != Idle && NextStep(step, current).value != Resolved
  {
  }

  /** The roll after an accepted `setRollStepResult`. */
  function RecordStep(r: ActiveRoll, p: StepPayload): (q: ActiveRoll)
    ensures q.combatId == r.combatId
  {
    match p.step
    case AttackerStep => r.(rollingAttacker := false, attackerRoll := Some(p.roll), attackerTotal := Some(p.attackerTotal))
    case DefenderStep => r.(rollingDefender := false, defenderRoll := Some(p.roll), defenderTotal := Some(p.defenderTotal))
    case DamageStep => r.(rollingDamage := false, damageRoll := Some(p.roll), baseDamage := Some(p.baseDamage),
                          hitSuccess := p.hitSuccess, isCritical := p.isCritical, isFumble := p.isFumble)
    case OtherStep => r
  }

  /** The roll after an accepted `markRollStepStart`: only one `rolling*` flag is raised. */
  function MarkStart(r: ActiveRoll, step: StepName): (q: ActiveRoll)
    ensures q.combatId == r.combatId
  {
    match step
    case AttackerStep => r.(rollingAttacker := true)
    case DefenderStep => r.(rollingDefender := true)
    case DamageStep => r.(rollingDamage := true)
    case OtherStep => r
  }

  /** The roll started by `startCombatContext`. */
  function StartRoll(p: StartPayload, now: nat): (r: ActiveRoll)
    ensures r.combatId != ""
    ensures r.attackerRoll.None? && r.defenderRoll.None? && r.damageRoll.None? && r.damage.None?
    ensures !r.rollingAttacker && !r.rollingDefender && !r.rollingDamage && r.reactions == []
  {
    var combatId := if p.combatId != "" then p.combatId else FallbackCombatId(now);
    ActiveRoll(combatId, OrNull(p.attackerPlayerId), p.attackerSlot, OrNull(p.defenderPlayerId), p.defenderSlot,
               p.attackerStat, p.defenderStat, p.defenderArmor, NormalizeDamageDieSides(p.attackerDamageDieSides),
               None, None, None, false, false, false, None, None, None, None, false, false, false,
               None, None, false, None, None, false, 0, [], OrElse(p.startedAt, now), None)
  }

  /** The context `startCombatContext` keeps for the host's resolution. */
  function StartContext(r: ActiveRoll): PendingContext
  {
    PendingContext(r.combatId, r.attackerPlayerId, r.attackerSlot, r.defenderPlayerId, r.defenderSlot,
                   r.attackerStat, r.defenderStat, r.defenderArmor, r.attackerDamageDieSides)
  }

  /** The roll as `finishRoll` records it from the final result. */
  function FinishedRoll(r: ActiveRoll, p: FinishPayload, now: int): (f: ActiveRoll)
    ensures f.combatId == r.combatId && f.startedAt == r.startedAt
    ensures f.damage == Some(p.damage) && f.finishedAt == Some(now)
  {
    var baseDamage := match p.baseDamage case Some(b) => b case None => OrZero(r.baseDamage);
    r.(attackerRoll := Some(p.attackerRoll), defenderRoll := Some(p.defenderRoll), damageRoll := Some(p.damageRoll),
       rollingAttacker := false, rollingDefender := false, rollingDamage := false,
       attackerTotal := Some(p.attackerTotal), defenderTotal := Some(p.defenderTotal),
       baseDamage := Some(baseDamage), damage := Some(p.damage), hitSuccess := p.hitSuccess,
       counterDamageTotal := p.counterDamageTotal, isCritical := p.isCritical, isFumble := p.isFumble,
       attackerHpBefore := Some(OrZero(p.attackerHpBefore)), attackerHpAfter := Some(OrZero(p.attackerHpAfter)),
       attackerDefeated := p.attackerDefeated,
       defenderHpBefore := Some(OrZero(p.defenderHpBefore)), defenderHpAfter := Some(OrZero(p.defenderHpAfter)),
       defenderDefeated := p.defenderDefeated,
       reactions := match p.reactions case Some(rs) => rs case None => [],
       finishedAt := Some(now))
  }

  /** A final result without a base damage keeps the one the damage roll recorded, or 0. */
  lemma FinishedKeepsBaseDamage(r: ActiveRoll, p: FinishPayload, now: int)
    requires p.baseDamage.None?
    ensures FinishedRoll(r, p, now).baseDamage == Some(if r.baseDamage.Some? then r.baseDamage.value else 0)
    ensures FinishedRoll(r, p, now).combatId == r.combatId && FinishedRoll(r, p, now).startedAt == r.startedAt
  {
  }

  // ---------------------------------------------------------------------------
  // The response queues
  // ---------------------------------------------------------------------------

  /** The queue of a combat; a missing key is an empty queue. */
  function Queue(m: map<string, seq<ReactionResponse>>, id: string): seq<ReactionResponse>
  {
    if id in m then m[id] else []
  }

  /** `setReactionResponse` on the queues: the response goes to the back of its combat's queue. */
  function Enqueue(m: map<string, seq<ReactionResponse>>, id: string, r: ReactionResponse): map<string, seq<ReactionResponse>>
  {
    m[id := Queue(m, id) + [r]]
  }

  /**
   * `consumeReactionResponse` on the queues: the front of the combat's queue
   * (None for an empty id or an empty queue); the key is deleted once the
   * queue is drained.
   */
  function Dequeue(m: map<string, seq<ReactionResponse>>, id: string): (Option<ReactionResponse>, map<string, seq<ReactionResponse>>)
  {
    if id == "" || Queue(m, id) == [] then (None, m)
    else
      var q := m[id];
      (Some(q[0]), if |q| == 1 then m - {id} else m[id := q[1..]])
  }

  /** Every key names a combat and holds a non-empty queue. */
  predicate QueuesWellFormed(m: map<string, seq<ReactionResponse>>)
  {
    forall id :: id in m ==> id != "" && |m[id]| > 0
  }

  /** Enqueueing goes to the back of one queue only and keeps the queues well formed. */
  lemma EnqueueCorrect(m: map<string, seq<ReactionResponse>>, id: string, r: ReactionResponse, other: string)
    requires QueuesWellFormed(m) && id != ""
    ensures QueuesWellFormed(Enqueue(m, id, r))
    ensures Queue(Enqueue(m, id, r), id) == Queue(m, id) + [r]
    ensures other != id ==> Queue(Enqueue(m, id, r), other) == Queue(m, other)
  {
  }

  /**
   * Dequeueing yields the front of the queue and leaves the rest (None
   * exactly when the queue is empty); no other queue changes and the queues
   * stay well formed.
   */
  lemma DequeueCorrect(m: map<string, seq<ReactionResponse>>, id: string, other: string)
    requires QueuesWellFormed(m)
    ensures var (r, m2) := Dequeue(m, id);
            QueuesWellFormed(m2)
            && (r.None? <==> id == "" || Queue(m, id) == [])
            && (r.Some? ==> r.value == Queue(m, id)[0] && Queue(m2, id) == Queue(m, id)[1..])
            && (r.None? ==> m2 == m)
            && (other != id ==> Queue(m2, other) == Queue(m, other))
  {
  }

  /** Responses enqueued one after another. */
  function EnqueueAll(m: map<string, seq<ReactionResponse>>, id: string, rs: seq<ReactionResponse>): map<string, seq<ReactionResponse>>
    decreases |rs|
  {
    if rs == [] then m else EnqueueAll(Enqueue(m, id, rs[0]), id, rs[1..])
  }

  /** `n` responses consumed one after another, in the order they came out. */
  function DequeueN(m: map<string, seq<ReactionResponse>>, id: string, n: nat): (seq<Option<ReactionResponse>>, map<string, seq<ReactionResponse>>)
  {
    if n == 0 then ([], m)
    else
      var (r, m2) := Dequeue(m, id);
      var (rest, m3) := DequeueN(m2, id, n - 1);
      ([r] + rest, m3)
  }

  lemma {:induction false} EnqueueAllQueue(m: map<string, seq<ReactionResponse>>, id: string, rs: seq<ReactionResponse>)
    ensures Queue(EnqueueAll(m, id, rs), id) == Queue(m, id) + rs
    decreases |rs|
  {
    if rs != [] {
      EnqueueAllQueue(Enqueue(m, id, rs[0]), id, rs[1..]);
      assert Queue(Enqueue(m, id, rs[0]), id) == Queue(m, id) + [rs[0]];
      assert [rs[0]] + rs[1..] == rs;
    }
  }

  lemma {:induction false} DequeueNQueue(m: map<string, seq<ReactionResponse>>, id: string, n: nat)
    requires id != "" && n <= |Queue(m, id)|
    ensures |DequeueN(m, id, n).0| == n
    ensures forall k :: 0 <= k < n ==> DequeueN(m, id, n).0[k] == Some(Queue(m, id)[k])
    ensures Queue(DequeueN(m, id, n).1, id) == Queue(m, id)[n..]
    decreases n
  {
    if n > 0 {
      var q := Queue(m, id);
      var m2 := Dequeue(m, id).1;
      assert Queue(m2, id) == q[1..];
      DequeueNQueue(m2, id, n - 1);
      var rest := DequeueN(m2, id, n - 1).0;
      assert DequeueN(m, id, n).0 == [Some(q[0])] + rest;
      forall k | 0 <= k < n
        ensures DequeueN(m, id, n).0[k] == Some(q[k])
      {
        if k > 0 {
          assert rest[k - 1] == Some(q[1..][k - 1]);
        }
      }
      assert q[1..][n - 1..] == q[n..];
    }
  }

  /**
   * The queues are first in, first out: responses received for a combat
   * whose queue is empty are consumed in the order they arrived, after which
   * the queue is empty again.
   */
  lemma FirstInFirstOut(m: map<string, seq<ReactionResponse>>, id: string, rs: seq<ReactionResponse>)
    requires id != "" && Queue(m, id) == []
    ensures var (out, m2) := DequeueN(EnqueueAll(m, id, rs), id, |rs|);
            |out| == |rs| && (forall k :: 0 <= k < |rs| ==> out[k] == Some(rs[k])) && Queue(m2, id) == []
  {
    EnqueueAllQueue(m, id, rs);
    DequeueNQueue(EnqueueAll(m, id, rs), id, |rs|);
  }

  // ---------------------------------------------------------------------------
  // The store
  // ---------------------------------------------------------------------------

  class Combat {
    var activeRoll: Option<ActiveRoll>
    var rollStep: RollStep
    var pendingCombatContext: Option<PendingContext>
    var reactionWindow: Option<ReactionWindow>
    var reactionResponses: map<string, seq<ReactionResponse>>

    /**
     * The store's invariant: a roll is active exactly when the step is not
     * idle and it has a non-empty id; the pending context and an open window
     * belong to the active roll; a window is open only while the reaction is
     * pending; every queue is keyed by a combat id and non-empty.
     */
    predicate Valid()
      reads this
    {
      (rollStep == Idle <==> activeRoll.None?)
      && (activeRoll.Some? ==> activeRoll.value.combatId != "")
      && (pendingCombatContext.Some? ==>
            activeRoll.Some? && pendingCombatContext.value.combatId == activeRoll.value.combatId)
      && (reactionWindow.Some? ==>
            activeRoll.Some? && reactionWindow.value.combatId == Some(activeRoll.value.combatId)
            && rollStep == ReactionPending)
      && QueuesWellFormed(reactionResponses)
    }

    /** The store as created, and as `clearRoll` leaves it: idle with nothing pending. */
    predicate Cleared()
      reads this
    {
      activeRoll == None && pendingCombatContext == None && reactionWindow == None
      && reactionResponses == map[] && rollStep == Idle
    }

    constructor ()
      ensures Valid() && Cleared()
    {
      activeRoll := None;
      rollStep := Idle;
      pendingCombatContext := None;
      reactionWindow := None;
      reactionResponses := map[];
    }

    /** `isActive` (and `isRolling`, which is the same test). */
    function IsActive(): (b: bool)
      requires Valid()
      reads this
      ensures b <==> activeRoll.Some?
    {
      rollStep != Idle
    }

    /** `isReactionOpen`: the reaction step is pending and the window is open. */
    function IsReactionOpen(): (b: bool)
      requires Valid()
      reads this
      ensures b <==> reactionWindow.Some?
    {
      rollStep == ReactionPending && reactionWindow.Some?
    }

    /** `startCombatContext`: a new roll waiting for the attacker's die, with no window and no responses. */
    method StartCombatContext(p: StartPayload, now: nat)
      modifies this
      ensures Valid()
      ensures activeRoll == Some(StartRoll(p, now)) && pendingCombatContext == Some(StartContext(StartRoll(p, now)))
      ensures rollStep == AttackerPending && reactionWindow == None && reactionResponses == map[]
    {
      var roll := StartRoll(p, now);
      activeRoll := Some(roll);
      pendingCombatContext := Some(StartContext(roll));
      rollStep := AttackerPending;
      reactionWindow := None;
      reactionResponses := map[];
    }

    /**
     * `setRollStepResult`: accepted only for the active combat and for the
     * step that is pending; the result is recorded and the next step becomes
     * pending. Anything else changes nothing and returns false.
     */
    method SetRollStepResult(p: StepPayload) returns (ok: bool)
      requires Valid()
      modifies this
      ensures Valid()
      ensures ok <==> old(activeRoll).Some? && old(activeRoll).value.combatId == p.combatId
                      && NextStep(p.step, old(rollStep)).Some?
      ensures ok ==> rollStep == NextStep(p.step, old(rollStep)).value
                     && activeRoll == Some(RecordStep(old(activeRoll).value, p))
      ensures !ok ==> rollStep == old(rollStep) && activeRoll == old(activeRoll)
      ensures pendingCombatContext == old(pendingCombatContext) && reactionWindow == old(reactionWindow)
      ensures reactionResponses == old(reactionResponses)
    {
      ok := false;
      if activeRoll.Some? && activeRoll.value.combatId == p.combatId {
        var next := NextStep(p.step, rollStep);
        if next.Some? {
          activeRoll := Some(RecordStep(activeRoll.value, p));
          rollStep := next.value;
          ok := true;
        }
      }
    }

    /** `markRollStepStart`: for the pending step of the active combat only the matching `rolling*` flag is raised. */
    method MarkRollStepStart(p: StepPayload) returns (ok: bool)
      requires Valid()
      modifies this
      ensures Valid()
      ensures ok <==> old(activeRoll).Some? && old(activeRoll).value.combatId == p.combatId
                      && NextStep(p.step, old(rollStep)).Some?
      ensures ok ==> activeRoll == Some(MarkStart(old(activeRoll).value, p.step))
      ensures !ok ==> activeRoll == old(activeRoll)
      ensures rollStep == old(rollStep) && pendingCombatContext == old(pendingCombatContext)
      ensures reactionWindow == old(reactionWindow) && reactionResponses == old(reactionResponses)
    {
      ok := false;
      if activeRoll.Some? && activeRoll.value.combatId == p.combatId && NextStep(p.step, rollStep).Some? {
        activeRoll := Some(MarkStart(activeRoll.value, p.step));
        ok := true;
      }
    }

    /** `openReactionWindow`: for the active combat, the window opens and the reaction becomes pending. */
    method OpenReactionWindow(p: WindowPayload, now: int) returns (ok: bool)
      requires Valid()
      modifies this
      ensures Valid()
      ensures ok <==> old(activeRoll).Some? && old(activeRoll).value.combatId == p.combatId
      ensures ok ==> rollStep == ReactionPending
                     && reactionWindow == Some(ReactionWindow(OrNull(p.combatId), OrNull(p.attackerPlayerId),
                                                              OrNull(p.defenderPlayerId), p.attackerRoll, p.defenderRoll,
                                                              p.baseDamage, p.isCritical, p.isFumble,
                                                              OrElse(p.startedAt, now)))
      ensures !ok ==> rollStep == old(rollStep) && reactionWindow == old(reactionWindow)
      ensures activeRoll == old(activeRoll) && pendingCombatContext == old(pendingCombatContext)
      ensures reactionResponses == old(reactionResponses)
    {
      ok := false;
      if activeRoll.Some? && activeRoll.value.combatId == p.combatId {
        reactionWindow := Some(ReactionWindow(OrNull(p.combatId), OrNull(p.attackerPlayerId), OrNull(p.defenderPlayerId),
                                              p.attackerRoll, p.defenderRoll, p.baseDamage, p.isCritical, p.isFumble,
                                              OrElse(p.startedAt, now)));
        rollStep := ReactionPending;
        ok := true;
      }
    }

    /** `closeReactionWindow`: the window closes unless an expected id is given ("" is none) and differs. */
    method CloseReactionWindow(expectedCombatId: string)
      requires Valid()
      modifies this
      ensures Valid()
      ensures old(reactionWindow).Some? && (expectedCombatId == "" || old(reactionWindow).value.combatId == Some(expectedCombatId))
              ==> reactionWindow == None
      ensures old(reactionWindow).Some? && expectedCombatId != "" && old(reactionWindow).value.combatId != Some(expectedCombatId)
              ==> reactionWindow == old(reactionWindow)
      ensures old(reactionWindow).None? ==> reactionWindow == None
      ensures activeRoll == old(activeRoll) && rollStep == old(rollStep)
      ensures pendingCombatContext == old(pendingCombatContext) && reactionResponses == old(reactionResponses)
    {
      if reactionWindow.Some? && (expectedCombatId == "" || reactionWindow.value.combatId == Some(expectedCombatId)) {
        reactionWindow := None;
      }
    }

    /** `setReactionResponse`: refused for an empty id; otherwise the response joins the back of its combat's queue. */
    method SetReactionResponse(combatId: string, p: ResponsePayload, now: int) returns (ok: bool)
      requires Valid()
      modifies this
      ensures Valid()
      ensures ok <==> combatId != ""
      ensures ok ==> reactionResponses == Enqueue(old(reactionResponses), combatId,
                                                  ReactionResponse(OrNull(p.cardId), p.pass, p.targetSlot, now))
      ensures !ok ==> reactionResponses == old(reactionResponses)
      ensures activeRoll == old(activeRoll) && rollStep == old(rollStep)
      ensures pendingCombatContext == old(pendingCombatContext) && reactionWindow == old(reactionWindow)
    {
      ok := false;
      if combatId != "" {
        var response := ReactionResponse(OrNull(p.cardId), p.pass, p.targetSlot, now);
        EnqueueCorrect(reactionResponses, combatId, response, combatId);
        var queue := if combatId in reactionResponses then reactionResponses[combatId] else [];
        reactionResponses := reactionResponses[combatId := queue + [response]];
        ok := true;
      }
    }

    /** `consumeReactionResponse`: the oldest response of the combat, or None when there is none. */
    method ConsumeReactionResponse(combatId: string) returns (response: Option<ReactionResponse>)
      requires Valid()
      modifies this
      ensures Valid()
      ensures response == Dequeue(old(reactionResponses), combatId).0
      ensures reactionResponses == Dequeue(old(reactionResponses), combatId).1
      ensures activeRoll == old(activeRoll) && rollStep == old(rollStep)
      ensures pendingCombatContext == old(pendingCombatContext) && reactionWindow == old(reactionWindow)
    {
      DequeueCorrect(reactionResponses, combatId, combatId);
      response := None;
      if combatId != "" && combatId in reactionResponses && |reactionResponses[combatId]| > 0 {
        var queue := reactionResponses[combatId];
        response := Some(queue[0]);
        if |queue| == 1 {
          reactionResponses := reactionResponses - {combatId};
        } else {
          reactionResponses := reactionResponses[combatId := queue[1..]];
        }
      }
    }

    /**
     * `finishRoll`: for the active combat, the final result is recorded and
     * the roll is resolved; the context, the window and every queue are
     * cleared.
     */
    method FinishRoll(p: FinishPayload, now: int) returns (ok: bool)
      requires Valid()
      modifies this
      ensures Valid()
      ensures ok <==> old(activeRoll).Some? && old(activeRoll).value.combatId == p.combatId
      ensures ok ==> activeRoll == Some(FinishedRoll(old(activeRoll).value, p, now)) && rollStep == Resolved
                     && pendingCombatContext == None && reactionWindow == None && reactionResponses == map[]
      ensures !ok ==> activeRoll == old(activeRoll) && rollStep == old(rollStep)
                      && pendingCombatContext == old(pendingCombatContext) && reactionWindow == old(reactionWindow)
                      && reactionResponses == old(reactionResponses)
    {
      ok := false;
      if activeRoll.Some? && activeRoll.value.combatId == p.combatId {
        var finished := FinishedRoll(activeRoll.value, p, now);
        activeRoll := Some(finished);
        pendingCombatContext := None;
        reactionWindow := None;
        reactionResponses := map[];
        rollStep := Resolved;
        ok := true;
      }
    }

    /**
     * `clearRoll`: back to idle with nothing pending, unless an expected id
     * is given ("" is none) and it is not the active roll's (with no active
     * roll, any expected id differs).
     */
    method ClearRoll(expectedCombatId: string)
      requires Valid()
      modifies this
      ensures Valid()
      ensures expectedCombatId == "" || (old(activeRoll).Some? && old(activeRoll).value.combatId == expectedCombatId)
              ==> Cleared()
      ensures expectedCombatId != "" && (old(activeRoll).None? || old(activeRoll).value.combatId != expectedCombatId)
              ==> activeRoll == old(activeRoll) && rollStep == old(rollStep)
                  && pendingCombatContext == old(pendingCombatContext) && reactionWindow == old(reactionWindow)
                  && reactionResponses == old(reactionResponses)
    {
      if expectedCombatId == "" || (activeRoll.Some? && activeRoll.value.combatId == expectedCombatId) {
        activeRoll := None;
        pendingCombatContext := None;
        reactionWindow := None;
        reactionResponses := map[];
        rollStep := Idle;
      }
    }

    /** `$reset`: `clearRoll()` with no expected id. */
    method Reset()
      requires Valid()
      modifies this
      ensures Valid() && Cleared()
    {
      ClearRoll("");
    }
  }

  /** The three dice of a combat recorded in order: each is accepted and the reaction becomes pending. */
  method RecordDice(store: Combat, rolls: seq<StepPayload>) returns (accepted: bool)
    requires store.Valid() && store.rollStep == AttackerPending && store.activeRoll.Some? && |rolls| == 3
    requires rolls[0].step == AttackerStep && rolls[1].step == DefenderStep && rolls[2].step == DamageStep
    requires forall k :: 0 <= k < 3 ==> rolls[k].combatId == store.activeRoll.value.combatId
    modifies store
    ensures store.Valid() && accepted && store.rollStep == ReactionPending
    ensures store.activeRoll.Some? && store.activeRoll.value.combatId == old(store.activeRoll.value.combatId)
    ensures store.reactionResponses == old(store.reactionResponses)
  {
    var a := store.SetRollStepResult(rolls[0]);
    var d := store.SetRollStepResult(rolls[1]);
    var g := store.SetRollStepResult(rolls[2]);
    accepted := a && d && g;
  }

  /**
   * A whole combat as the client drives it: started, the three dice recorded
   * in order, the window opened and the reaction's response queued and
   * consumed, then finished. Each step is accepted, the response consumed is
   * the one queued, and the roll ends resolved with nothing left pending.
   */
  method CombatRound(store: Combat, start: StartPayload, now: nat, rolls: seq<StepPayload>, window: WindowPayload,
                     response: ResponsePayload, finish: FinishPayload)
      returns (accepted: bool, consumed: Option<ReactionResponse>)
    requires store.Valid() && |rolls| == 3
    requires rolls[0].step == AttackerStep && rolls[1].step == DefenderStep && rolls[2].step == DamageStep
    requires forall k :: 0 <= k < 3 ==> rolls[k].combatId == StartRoll(start, now).combatId
    requires window.combatId == StartRoll(start, now).combatId && finish.combatId == StartRoll(start, now).combatId
    modifies store
    ensures store.Valid()
    ensures accepted && consumed == Some(ReactionResponse(OrNull(response.cardId), response.pass, response.targetSlot, now))
    ensures store.rollStep == Resolved && store.pendingCombatContext == None && store.reactionWindow == None
    ensures store.reactionResponses == map[]
  {
    store.StartCombatContext(start, now);
    var id := StartRoll(start, now).combatId;
    var dice := RecordDice(store, rolls);
    var w := store.OpenReactionWindow(window, now);
    var s := store.SetReactionResponse(id, response, now);
    consumed := store.ConsumeReactionResponse(id);
    var f := store.FinishRoll(finish, now);
    accepted := dice && w && s && f;
  }
}
