# Draw & Roll: the headless match simulator, its bots and the client stores

Draw & Roll is a two-player card game. Each player fields up to three heroes,
equips them with items and weapons, and attacks with twenty-sided dice.
Reactive and counterattack cards answer an attack. A player whose board
empties at the end of a turn loses.

This project models in Dafny:

- **the headless simulator** (`scripts/lib`): the deterministic random
  generator seeded by a string hash; the rules engine (card draws, the
  opening mulligan, recruiting, equipping, combat with reactions,
  discarding, item durability and the end of a turn); the turn loop of one
  game; and the aggregation of a batch of games;
- **the bots**: the baseline bot and the aggressive and conservative
  profiles, with the lookup of a profile by name;
- **the command line of the simulator**: argument parsing and option
  validation (`scripts/simulate-games.js`);
- **the batch generator** (`scripts/generate-batch.js`): cost rules, the
  per-type distribution, de-duplication and batch validation;
- **the client stores** (`src/stores`): deck, players, game and combat.

Each source file is one module.

- Where the source mutates an object, the model is a class with `modifies` clauses:
  - the match state `SimEngine.Match`;
  - the generator `Rng.Rng`;
  - the stores `DeckStore.Deck`, `PlayersStore.Players`, `GameStore.Game` and `CombatStore.Combat`.
- Where the source loops, the model is a method with loop invariants. Each such method is proved equal to a specification function.
- Where the source computes a value, the model is a function. The properties the game promises are proved about those functions as lemmas.
- Shared pieces:
  - `Ranking` models the comparator sorts of the bots: lexicographic keys and a stable insertion sort;
  - `Text` models decimal rendering and UTF-16 code units;
  - `Wrappers` holds `Option` and `Result`.

Inputs the source reads from its environment are parameters of the model.

- `Math.random()` in the client deck store is a sequence of draws in [0, 1).
- `Date.now()` is a timestamp, and the combat store's fallback combat id `combat-<timestamp>` is built from it.
- `crypto.randomUUID()` gives the batch id of `generateBatch`, which is left out with the rest of the batch assembly.
- A card's power from `evaluateCardPower` is a real number.
- The bots' callbacks (`getRecruitCost`, `canHeroAttack`, `getHeroCombatStats`) are function parameters.

## Model

| member | source | states |
|---|---|---|
| Rng.FnvFoldAppend | scripts/lib/rng.js:10-16 | Hashing a concatenation folds the second part from the first part's hash. So the FNV-1a hash is a left fold over UTF-16 code units. |
| Rng.HashSeed | scripts/lib/rng.js:5-17 | The loop computes exactly the seed hash: a number is truncated to uint32, and a string is hashed with FNV-1a from 2166136261 with prime 16777619. |
| Rng.DeriveSeed | scripts/lib/rng.js:19-29 | The mixing steps compute exactly the sub-seed of a base seed and an index: the golden-ratio offset and the two multiply-xorshift rounds, modulo 2^32. |
| Rng.InitialState | scripts/lib/rng.js:31-35 | The generator's first state is never zero. It is the seed's hash unless that hash is zero, in which case it is the increment 0x6d2b79f5. |
| Rng.Fraction | scripts/lib/rng.js:37-43 | `next()` as a fraction u / 2^32 always lies in [0, 1). |
| Rng.IntOfInRange | scripts/lib/rng.js:45-51 | `min + floor(u / 2^32 * span)` lies in [min, max] whenever min <= max. |
| Rng.DrawInt | scripts/lib/rng.js:45-51 | One draw of `int(min, max)` lies in [min, max] and advances the state by exactly one step. |
| Rng.StepNAdd | scripts/lib/rng.js:37-43 | Stepping the state a times and then b times equals stepping it a + b times. |
| Rng.ShuffleFromStep | scripts/lib/rng.js:58-64 | One iteration of the shuffle swaps position i with a drawn j in [0, i] and then continues at i - 1 from the next state. |
| Rng.ShuffleFromPermutes | scripts/lib/rng.js:58-64 | The swaps from any position down keep the same multiset of elements. |
| Rng.ShuffleFromDraws | scripts/lib/rng.js:58-64 | The swaps from position i consume exactly i draws. |
| Rng.ShuffledProperties | scripts/lib/rng.js:58-64 | `shuffle` is a permutation and consumes length - 1 draws (none for an empty array). |
| Rng.Rng.constructor | scripts/lib/rng.js:31-35 | `createRng(seed)` starts from the non-zero initial state of the seed. |
| Rng.Rng.Next | scripts/lib/rng.js:37-43 | `next()` adds the increment to the state modulo 2^32 and returns the mixed (tempered) value of the new state. |
| Rng.Rng.Int | scripts/lib/rng.js:45-51 | `int(min, max)` fails without drawing when max < min. Otherwise it returns the draw in [min, max] and advances the state once. |
| Rng.Rng.Pick | scripts/lib/rng.js:53-56 | `pick` of an empty array is null and draws nothing. Otherwise it is the element at `int(0, length - 1)`, after exactly one draw. |
| Rng.Rng.SwapCells | scripts/lib/rng.js:61-62 | The destructuring swap exchanges the two cells and changes nothing else. |
| Rng.Rng.Shuffle | scripts/lib/rng.js:58-64 | The in-place Fisher-Yates pass leaves the array equal to the shuffle specification and the state equal to the state after its draws. The same array is returned. |
| Text.NatToStringRoundTrip | scripts/lib/simEngine.js:857 | Reading back the decimal rendering of a natural number gives that number. |
| Text.NatToStringInjective | scripts/lib/simEngine.js:857 | Different numbers render differently. |
| Text.Utf16 | scripts/lib/rng.js:11-13 | `charCodeAt` yields at least one code unit per character (two for characters beyond the BMP). |
| SimRules.Opponent | scripts/lib/simEngine.js:29-31 | The opponent of a player is the other player. |
| SimRules.OpponentInvolutive | scripts/lib/simEngine.js:29-31 | The opponent's opponent is the player. |
| SimRules.NewPlayer | scripts/lib/simEngine.js:19-27 | A new player is well formed: three empty slots, resources 5 of 5, no losses. |
| SimRules.PressureIsTriangle | scripts/lib/simEngine.js:33-37 | The recruit pressure of n losses is the triangular number n(n+1)/2. |
| SimRules.RecruitCostStep | scripts/lib/simEngine.js:33-37 | Each lost hero raises the recruit cost by its ordinal (1, 2, 3, …). With no losses the cost is the base cost. |
| SimRules.BaseHp | scripts/lib/simEngine.js:39-41 | A card's base HP is at least 1. It equals the card's HP when that HP is at least 1. |
| SimRules.ItemsHpBonusAppend | scripts/lib/simEngine.js:43-52 | Equipping one more item adds exactly that item's HP bonus to the items' total. |
| SimRules.HeroMaxHp | scripts/lib/simEngine.js:43-52 | A hero's maximum HP is at least 1 and at least base HP plus the items' HP bonus. |
| SimRules.MaxHpAfterEquip | scripts/lib/simEngine.js:43-52 | After equipping, the maximum HP is the old raw total plus the item's bonus, floored at 1. |
| SimRules.ClampHp | scripts/lib/simEngine.js:54-65 | Current HP is clamped into [0, max]. It is unchanged inside the range, the maximum above it and 0 below it. |
| SimRules.EnsureHeroState | scripts/lib/simEngine.js:54-65 | The repaired hero has HP within [0, max HP] and keeps its card, items and attack flag. A hero already in range is unchanged. |
| SimRules.EnsureHeroStateIdempotent | scripts/lib/simEngine.js:54-65 | Repairing twice is repairing once. |
| SimRules.HeroCombatStats | scripts/lib/simEngine.js:67-85 | The combat stats' maximum is the hero's maximum HP and their HP the repaired current HP. Without items, attack and defence are the card's. |
| SimRules.SlotCombatStats | scripts/lib/simEngine.js:67-85 | An empty slot has all-zero stats. An occupied slot has its hero's stats. |
| SimRules.CreateHero | scripts/lib/simEngine.js:87-94 | A new hero instance is well formed, has no items, has current HP equal to its base HP and has not attacked. |
| SimRules.CreateItem | scripts/lib/simEngine.js:96-103 | An item tracks durability exactly when its card's durability is positive, starting from that value. |
| SimRules.HeroCountZero | scripts/lib/simEngine.js:578-584 | The board counts no heroes exactly when every slot is empty. |
| SimRules.FindCard | scripts/lib/simEngine.js:133-154 | `findIndex` by id returns an index holding that id. It finds nothing exactly when no card has the id. |
| SimRules.RemoveAt | scripts/lib/simEngine.js:133-154 | `splice(k, 1)` removes exactly that one card. |
| SimRules.FirstEmptySlot | scripts/lib/botBaseline.js:17-39 | The first empty slot is empty. None means every slot is occupied. |
| SimRules.FirstOccupiedSlot | scripts/lib/botBaseline.js:121-134 | `findIndex(Boolean)` returns an occupied slot. None means the board is empty. |
| SimRules.RequiredDiscardCount | scripts/lib/simEngine.js:567-569 | A discard is due exactly when the hand exceeds seven cards, and it brings the hand back to exactly seven. |
| SimCombat.ExchangeDamage | scripts/lib/simEngine.js:266-340 | Damage is never negative. A natural 1 deals none. A natural 20 deals the excess plus the critical bonus of 2. Otherwise the damage is attack plus roll minus defence plus roll, floored at 0. |
| SimCombat.ExchangeDamageMonotone | scripts/lib/simEngine.js:266-340 | More attack, or less defence, never deals less damage for the same rolls. |
| SimCombat.CounterFollowsExchangeRule | scripts/lib/simEngine.js:372-417 | A counterattack's damage follows the exchange rule with the roles reversed. |
| SimCombat.ApplyReactiveEffect | scripts/lib/simEngine.js:342-370 | `reduce_damage` lowers the damage by the card's value, floored at 0. `cancel_critical` removes the critical bonus only on a critical. `prevent_death` caps the damage so the defender keeps 1 HP. Any other effect does nothing. |
| SimCombat.ReactiveEffectNeverRaisesDamage | scripts/lib/simEngine.js:342-370 | A reactive card never increases the damage taken. |
| SimCombat.PreventDeathSurvives | scripts/lib/simEngine.js:342-370 | When `prevent_death` applies, the defender ends at exactly 1 HP. |
| SimCombat.EvaluateCandidate | scripts/lib/simEngine.js:372-417 | Only reactive and counterattack cards are evaluated. A reactive card draws nothing. An unused counterattack always yields an outcome after exactly two draws, and a used one yields nothing. |
| SimCombat.CounterattackKeepsHit | scripts/lib/simEngine.js:390-416 | A counterattack leaves the incoming damage unchanged and deals its own counter damage. |
| SimCombat.EvaluateReactionCandidate | scripts/lib/simEngine.js:372-417 | The method returns the candidate's outcome and leaves the generator in the state the specification predicts. |
| SimCombat.CandidatesFrom | scripts/lib/simEngine.js:419-431 | Every candidate is a playable reaction card of the hand (kind and affordable cost) at its hand index, and the candidates are in hand order. |
| SimCombat.CandidatesFromComplete | scripts/lib/simEngine.js:419-431 | Every playable reaction card of the hand is a candidate. |
| SimCombat.ScoreOf | scripts/lib/simEngine.js:432-470 | A candidate's score marks survival exactly when the defender's HP stays above the remaining damage. Its last component is the negated hand index, so earlier cards score higher on ties. |
| SimCombat.BeatsIsStrictTotalOrder | scripts/lib/simEngine.js:432-470 | The comparison of scores is irreflexive, asymmetric, total on distinct scores and transitive. |
| SimCombat.BestOfIsMaximal | scripts/lib/simEngine.js:432-470 | The chosen candidate has an outcome and beats every other candidate with an outcome. Nothing is chosen exactly when none has one. |
| SimCombat.EvaluateAllSnoc | scripts/lib/simEngine.js:432-470 | Evaluating one more candidate extends the outcomes by that candidate's outcome and threads the state. |
| SimCombat.TracksSnoc | scripts/lib/simEngine.js:432-470 | The loop's running best stays the best of the prefix seen so far. |
| SimCombat.ChooseDefenderReactionCard | scripts/lib/simEngine.js:419-474 | The loop returns the best scoring candidate (None exactly when the specification's choice is None) and consumes every candidate's draws. |
| SimCombat.ChoiceIsPlayable | scripts/lib/simEngine.js:419-474 | A chosen reaction is a reaction card of the hand that the defender can afford. |
| SimCombat.ChoiceIsBest | scripts/lib/simEngine.js:419-474 | No other candidate with an outcome beats the chosen one. |
| SimCombat.EvaluateAllDraws | scripts/lib/simEngine.js:432-470 | Evaluation draws exactly twice per counterattack candidate. |
| SimCombat.ChoiceDraws | scripts/lib/simEngine.js:419-474 | Choosing a reaction draws exactly twice per counterattack card in hand, whichever card wins. |
| SimState.HeroCountUpdate | scripts/lib/simEngine.js:205-264 | Replacing one slot changes the hero count by the difference in that slot's occupancy. |
| SimState.HeroCountFull | scripts/lib/simEngine.js:133-154 | A board counting as many heroes as slots has every slot occupied. |
| SimState.SetPlayerValid | scripts/lib/simEngine.js:205-264 | Replacing one well-formed player keeps both players well formed and the kill tally consistent. |
| SimState.SlotHero | scripts/lib/simEngine.js:186-193 | A slot index yields a hero only when it is in range and occupied. |
| SimState.RecruitOutcomeCorrect | scripts/lib/simEngine.js:133-154 | `playHeroFromHand` succeeds exactly when the slot is in range and empty, the card is a hero in hand and the player can pay its recruit cost. Then the card leaves the hand, a fresh hero enters that slot, the recruit cost is paid and the other slots are unchanged. |
| SimState.EquipCorrect | scripts/lib/simEngine.js:156-184 | Equipping appends the new item and keeps the hero well formed. An item with a non-negative HP bonus raises current HP by as much as the maximum rises. |
| SimState.EquipOutcomeCorrect | scripts/lib/simEngine.js:156-184 | `playItemFromHand` succeeds exactly when the card is an affordable item in hand (a weapon card is refused) and the slot holds a hero with fewer than three items. Then the card moves from the hand onto that hero, the cost is paid and the other slots are unchanged. |
| SimState.ResetEnablesAttacks | scripts/lib/simEngine.js:195-203 | After `resetCombatActions`, a hero may attack exactly when its slot is occupied and its HP is positive. Slot occupancy is unchanged. |
| SimState.MarkAttackedValid | scripts/lib/simEngine.js:205-264 | Marking the attacker keeps the player well formed and every slot's occupancy. |
| SimState.AttackerAfterCorrect | scripts/lib/simEngine.js:205-264 | The attacker dies exactly when its slot is occupied and the result defeats it. It then leaves its slot and its owner's losses grow by one; otherwise the losses are unchanged. |
| SimState.DefenderAfterCorrect | scripts/lib/simEngine.js:205-264 | A defeated defender dies, leaves its slot and adds one loss. A survivor keeps positive HP no higher than the result's HP after the hit. |
| SimState.ApplyCombatCorrect | scripts/lib/simEngine.js:205-264 | A combat result is applied exactly when the defender slot is occupied. Defeated heroes leave their slots, and a surviving defender has positive HP. Both players stay well formed, the kill counters stay consistent with the losses and grow by at most two, and the rest of the tally is unchanged. |
| SimState.WithoutId | scripts/lib/simEngine.js:476-510 | Removing a used reaction card keeps every other card and drops every card with that id. |
| SimState.ReactionOutcomeCorrect | scripts/lib/simEngine.js:476-510 | At most one reaction is played, and the defender's heroes and losses never change. Exactly when no reaction is chosen, the context, the player and the tally are unchanged. The generator moves as the choice specifies. |
| SimState.ReactionPlayedCorrect | scripts/lib/simEngine.js:476-510 | The played reaction is an affordable reaction card of the hand, and exactly it is recorded. Every card with its id leaves the hand, the resources drop by its cost (floored at 0), the damage stays within [0, old damage] and the counter damage never decreases. |
| SimState.EvaluateAllAt | scripts/lib/simEngine.js:432-470 | The k-th outcome is the k-th candidate evaluated from the state left by the earlier ones. |
| SimState.Dedupe | scripts/lib/simEngine.js:512-530 | `new Set(ids)` keeps each id exactly once. |
| SimState.NonEmpty | scripts/lib/simEngine.js:512-530 | Filtering drops exactly the empty ids. |
| SimState.SelectedIds | scripts/lib/simEngine.js:512-530 | The selected ids are the distinct non-empty requested ids. |
| SimState.LastIndex | scripts/lib/simEngine.js:512-530 | The last card with an id is found whenever one exists. |
| SimState.ByIdIsLast | scripts/lib/simEngine.js:512-530 | The id-to-card map of the hand holds, for each id, the last card with that id. |
| SimState.Lookup | scripts/lib/simEngine.js:512-530 | Looking up all selected ids succeeds exactly when every id is in the hand. It then yields their cards in order. |
| SimState.LookupMissing | scripts/lib/simEngine.js:512-530 | One missing id makes the whole discard fail. |
| SimState.WithoutIds | scripts/lib/simEngine.js:512-530 | The kept hand is exactly the cards whose id is not selected. |
| SimState.DiscardHappens | scripts/lib/simEngine.js:512-530 | `discardFromHand` succeeds exactly when the id list is non-empty and every non-empty id in it is in the hand. A list of only empty ids succeeds and discards nothing. |
| SimState.DiscardShape | scripts/lib/simEngine.js:512-530 | A discard takes one card per selected (non-empty, distinct) id, each a card of the hand with that id. The hand keeps exactly the cards whose id was not selected. |
| SimState.SplitById | scripts/lib/simEngine.js:512-530 | The kept cards and the cards with selected ids together are the hand. |
| SimState.WithIdsDistinct | scripts/lib/simEngine.js:512-530 | With unique ids, the selected cards are distinct. |
| SimState.DiscardPermutes | scripts/lib/simEngine.js:512-530 | With unique ids, the kept and the discarded cards together are exactly the old hand: no card is lost or created. |
| SimState.DecayItems | scripts/lib/simEngine.js:532-565 | Items without durability always survive the end of the turn. Every surviving item is either one without durability or has durability left, and no item is added. |
| SimState.DecayItemCorrect | scripts/lib/simEngine.js:532-565 | An item without durability is kept as it is. A tracked item breaks exactly when its durability is at most 1, and otherwise loses one point. |
| SimState.DecayHeroValid | scripts/lib/simEngine.js:532-565 | Wearing items keeps a hero well formed, with HP clamped to the new maximum. |
| SimState.DecayPlayerCorrect | scripts/lib/simEngine.js:532-565 | Wear keeps every slot's occupancy, whether the player has heroes, the hand, the resources and the losses, and keeps the player well formed. |
| SimState.FinishCorrect | scripts/lib/simEngine.js:571-591 | `finishTurn` ends the game exactly when the player whose turn ends has no hero, and then names the opponent winner. Otherwise the turn passes to the opponent in the draw phase with refreshed resources. The turn number rises when player B hands over to player A. Losses and the opponent's heroes are unchanged. |
| SimEngine.DrawCount | scripts/lib/simEngine.js:105-115 | As many cards are drawn as asked for and as the deck holds, and none for a non-positive count. |
| SimEngine.ExchangeOutcomeCorrect | scripts/lib/simEngine.js:266-340 | `resolveCombatAsHost` fails exactly when the attacker slot is empty or cannot attack, or the defender slot is empty. On success the attack roll is drawn before the defence roll, both in [1, 20]. A fumble deals no damage, and the damage never exceeds the exchange rule's. HP after the hit and defeat follow from the damage, at most one reaction is recorded, and the attack is counted. |
| SimEngine.ExchangeResultCorrect | scripts/lib/simEngine.js:266-340 | The combat result carries the two rolls in draw order, within [1, 20]. Its damage is non-negative, none on a fumble and at most the exchange rule's. Each side is defeated exactly when its HP after is 0, and at most one reaction is recorded. |
| SimEngine.ReactionBounds | scripts/lib/simEngine.js:476-510 | Reactions play at most one card, never make the damage negative or larger than before, and never lower the counter damage. |
| SimEngine.ExchangeStateCorrect | scripts/lib/simEngine.js:266-340 | After a combat both players are well formed, the kill tally is consistent and one attack is counted. |
| SimEngine.MulliganPermutes | scripts/lib/simEngine.js:117-131 | The mulligan returns the hand to the deck, reshuffles and redraws seven cards (or all of them, if fewer remain). No card is lost or created. |
| SimEngine.HeroRecruitsCorrect | scripts/lib/simEngine.js:593-600 | The recruit loop keeps the player well formed and ends where the bot no longer has a playable pick. Each recruited hero fills one empty slot and removes one card from the hand. Nothing changes when the first pick fails. |
| SimEngine.BaselineRecruitPickSucceeds | scripts/lib/simEngine.js:593-600 | With unique card ids, the baseline's recruit pick is always playable, so the loop ends only when the bot has no pick. |
| SimEngine.EquipAllCorrect | scripts/lib/simEngine.js:601-606 | The equip loop keeps the player well formed and the hero count unchanged, removes one hand card per equipped item, and ends when no pick can be played. Nothing changes when the first pick fails. |
| SimEngine.BaselineEquipPickOutcome | scripts/lib/simEngine.js:601-606 | The baseline's equip pick is played exactly when it is an item. A weapon pick is refused by `playItemFromHand` and ends the loop. |
| SimEngine.CombatRunCorrect | scripts/lib/simEngine.js:609-616 | Running the declared attacks keeps both players well formed and the tally consistent, and counts at most one attack per declaration. Nothing happens when the defender has no hero. |
| SimEngine.DiscardPick | scripts/lib/simEngine.js:618-623 | No discard is picked with seven cards or fewer. Otherwise the baseline picks exactly the excess. |
| SimEngine.Match.constructor | scripts/lib/simEngine.js:625-655 | `createInitialState` shuffles the batch into the deck (a permutation), draws the starting player, starts turn 1 in the recruit phase, and gives both players full resources. |
| SimEngine.Match.DrawCards | scripts/lib/simEngine.js:105-115 | The drawn cards leave the front of the deck and join the end of the hand in order. The drawn count is added to the tally and nothing else changes. |
| SimEngine.TakeCards | scripts/lib/simEngine.js:105-115 | The draw loop takes min(count, deck size) cards, none for a non-positive count: the hand gains the deck's first cards in order and the rest of the deck remains. |
| SimEngine.Match.ReturnHandToDeck | scripts/lib/simEngine.js:117-131 | The hand goes back into the deck, which is reshuffled. The cards are conserved. |
| SimEngine.Match.RedealHand | scripts/lib/simEngine.js:117-131 | Returning the hand, reshuffling and drawing seven gives exactly the mulligan specification's deck, hand and generator state, and counts the drawn cards. |
| SimEngine.Match.RunOpeningMulliganIfNeeded | scripts/lib/simEngine.js:117-131 | A mulligan happens exactly when the opening hand holds no hero card. It is one return-and-redraw as the mulligan specification gives it, counted once, with the returned and redrawn cards added to the tally. Otherwise nothing changes. |
| SimEngine.Match.PlayHeroFromHand | scripts/lib/simEngine.js:133-154 | The new state is the recruit outcome of the specification, or unchanged on failure. The recruit tally grows by one on success. |
| SimEngine.Match.PlayItemFromHand | scripts/lib/simEngine.js:156-184 | The new state is the equip outcome of the specification, or unchanged on failure. The equip tally grows by one on success. |
| SimEngine.Match.EquipHero | scripts/lib/simEngine.js:170-180 | The equipped hero is the specification's equip. |
| SimEngine.Match.ResetCombatActions | scripts/lib/simEngine.js:195-203 | Only the player's attack flags are cleared. |
| SimEngine.Match.ApplyCombatResult | scripts/lib/simEngine.js:205-264 | The players and the tally become those of the combat specification. The deck and the game are untouched. |
| SimEngine.Match.AttackerSide | scripts/lib/simEngine.js:226-243 | The attacker's update is the specification's. |
| SimEngine.Match.DefenderSide | scripts/lib/simEngine.js:209-225 | The defender's update is the specification's. |
| SimEngine.Match.ResolveDefenderReactions | scripts/lib/simEngine.js:476-510 | The defender's state, the tally and the generator follow the reaction specification. |
| SimEngine.Match.RollExchange | scripts/lib/simEngine.js:281-300 | The attack roll is drawn before the defence roll, both with `int(1, 20)`, and they build the opening reaction context. |
| SimEngine.Match.ResolveCombatAsHost | scripts/lib/simEngine.js:266-340 | The method fails without change when the exchange specification fails. Otherwise it applies the specified result to the state, the tally and the generator. |
| SimEngine.Match.Exchange | scripts/lib/simEngine.js:281-340 | With an able attacker and an occupied defender slot, the exchange always succeeds and its state is the specification's. |
| SimEngine.Match.LookupCards | scripts/lib/simEngine.js:512-530 | The loop computes the specification's lookup. |
| SimEngine.Match.PushDiscards | scripts/lib/simEngine.js:512-530 | The discarded cards join the end of the discard pile and nothing else changes. |
| SimEngine.Match.DiscardFromHand | scripts/lib/simEngine.js:512-530 | The method follows the discard specification: on success the hand keeps the unselected cards, the selected ones go to the pile and the tally counts them. On failure nothing changes. |
| SimEngine.Match.WearItems | scripts/lib/simEngine.js:532-565 | The item loop computes the specification's decay. |
| SimEngine.Match.ApplyEndTurnDurability | scripts/lib/simEngine.js:532-565 | End-of-turn wear changes only the player's heroes, as `DecayPlayer` specifies. |
| SimEngine.Match.FinishTurn | scripts/lib/simEngine.js:571-591 | The game and the players become those of `finishTurn`. An ended game leaves the loser with no hero. |
| SimEngine.Match.RecruitHeroes | scripts/lib/simEngine.js:593-600 | The recruit loop yields the specification's player and recruit count, and the tally grows by that count. |
| SimEngine.Match.EquipItems | scripts/lib/simEngine.js:601-606 | The equip loop yields the specification's player and equip count, and the tally grows by that count. |
| SimEngine.Match.RunRecruitPhase | scripts/lib/simEngine.js:593-607 | The recruit phase runs the hero loop and then the equip loop on its result. |
| SimEngine.Match.RunCombatPhase | scripts/lib/simEngine.js:609-616 | The combat phase runs the bot's declared attacks through the combat specification. |
| SimEngine.CombatRunStep | scripts/lib/simEngine.js:609-616 | While the defender has a hero, the attack run is the first exchange's outcome (none when it cannot resolve) followed by the run of the remaining attacks. |
| SimEngine.Match.RunDiscardPhase | scripts/lib/simEngine.js:618-623 | The discard phase discards the bot's pick exactly when the hand exceeds seven cards. |
| SimEngine.Match.DealOpeningHands | scripts/lib/simEngine.js:691-694 | The deck, the players, the tally and the generator become those of the opening deal (seven cards each, then each player's mulligan). The game status and the discard pile are untouched. |
| SimEngine.Match.DrawStep | scripts/lib/simEngine.js:704-708 | The deck, the players and the tally become those of drawing one card for the active player. Only the turn phase of the game status changes, to recruit, and the discard pile is untouched. |
| SimEngine.Match.RecruitStep | scripts/lib/simEngine.js:710-725 | The players and the tally are those of the recruit phase, after which the game, the players and the end flag are those of leaving the recruit phase. The deck and pile are untouched. The step moves to a later phase of the same turn or hands the turn over, and an ended game leaves the current player with no hero. |
| SimEngine.Match.LeaveRecruitPhase | scripts/lib/simEngine.js:712-724 | The game, the players and the end flag become those of leaving the recruit phase, and the deck, pile and tally are untouched. The step moves to a later phase of the same turn or hands the turn over, and an ended game leaves the current player with no hero. |
| SimEngine.Match.CombatStep | scripts/lib/simEngine.js:727-737 | The players, the tally and the generator are those of the combat run over the bot's declared attacks. Then the game either enters the discard phase or the turn finishes as `finishTurn` specifies. The deck and pile are untouched, and an ended game leaves the current player with no hero. |
| SimEngine.Match.DiscardStep | scripts/lib/simEngine.js:739-748 | The players, the pile and the tally become those of the discard phase. The step is stuck exactly when the hand is still over seven cards, and then the game status is unchanged. Otherwise the game, the players and the end flag are those of `finishTurn`. The deck is untouched. |
| SimEngine.CardsMovedKeepsAll | scripts/lib/simEngine.js:105-131 | Moving cards between the deck and one hand keeps every card of the deck and both hands, and leaves the other player as it was. |
| SimEngine.DrawIntoCorrect | scripts/lib/simEngine.js:105-115 | Drawing moves exactly the first min(count, deck size) cards of the deck, in order, to the end of the hand and counts them as drawn. Nothing else of the players changes. |
| SimEngine.MulliganIfNeededCorrect | scripts/lib/simEngine.js:117-131 | A hand with a hero card is kept and nothing changes. Otherwise the player holds seven cards (or all there are) of the reshuffled deck and hand, the mulligan is counted once, and no card is lost. |
| SimEngine.OpeningDealCorrect | scripts/lib/simEngine.js:691-694 | The opening deal loses and creates no card and changes only the deck and the two hands. From empty hands and a deck of at least fourteen cards, each player holds seven cards and the deck shrinks by fourteen. |
| SimEngine.OpeningDealKeepsCards | scripts/lib/simEngine.js:691-694 | The opening deal loses and creates no card and changes nothing of either player but the hand. |
| SimEngine.OpeningDealSizes | scripts/lib/simEngine.js:691-694 | From empty hands and a deck of at least fourteen cards, each hand ends with seven cards and the deck shrinks by fourteen, mulligan or not. |
| SimEngine.RecruitTurnCorrect | scripts/lib/simEngine.js:593-607 | The recruit phase changes only the active player. The heroes on the board grow by the recruit count of the tally, every recruited or equipped card leaves the hand, losses and maximum resources stay, and the equip loop has run until it stops. |
| SimEngine.LeaveRecruitCombat | scripts/lib/simEngine.js:712-724 | The first player's first turn never enters combat. Every other turn enters combat from the recruit phase without ending the game. |
| SimEngine.DiscardOrFinishPasses | scripts/lib/simEngine.js:712-737 | After recruiting or fighting, the turn moves on to the discard phase or is handed over, and the players stay well formed. An ended game leaves the current player with no hero. |
| SimEngine.DiscardPhaseKeepsCards | scripts/lib/simEngine.js:618-623 | With distinct card ids, the discard phase moves cards only from the active hand to the pile, losing none, and changes nothing else of the players. A hand within seven cards is untouched. |
| SimEngine.Match.PlayPhase | scripts/lib/simEngine.js:696-757 | One step of the turn loop keeps the state well formed and the turn within maxTurns + 1. An ended game names the opponent of the hero-less current player as winner. Every step that neither ends nor gets stuck strictly decreases the progress measure, so the loop terminates. |
| SimEngine.PhaseMovedOn | scripts/lib/simEngine.js:696-757 | Moving to an earlier-ranked phase of the same turn counts as progress. |
| SimEngine.PhasePassedProgress | scripts/lib/simEngine.js:696-757 | Every phase passage keeps the first player and the turn bound, and either ends the game with a winner or decreases the progress measure. |
| SimEngine.StartMatch | scripts/lib/simEngine.js:657-659 | A match starts in play on turn 1, with no winner and with the starting player the seed determines. |
| SimEngine.RunSingleGame | scripts/lib/simEngine.js:657-767 | The report is well formed, carries the game index and seed, names the seed's starter and counts 1 to maxTurns + 1 turns. A non-positive maxTurns is a timeout. |
| SimRun.CountPartition2 | scripts/lib/simEngine.js:849-850 | Two complementary filters count all the games between them. |
| SimRun.CountPartition3 | scripts/lib/simEngine.js:786-792 | Three mutually exclusive, exhaustive filters count all the games. |
| SimRun.SumSplit | scripts/lib/simEngine.js:814-819 | A per-game sum of two parts is the sum of the two totals. |
| SimRun.MinTurns | scripts/lib/simEngine.js:782-808 | The sorted turn counts' first element is a minimum, and it is attained by some game. |
| SimRun.MaxTurns | scripts/lib/simEngine.js:782-809 | The sorted turn counts' last element is a maximum, and it is attained by some game. |
| SimRun.AggregateCorrect | scripts/lib/simEngine.js:780-852 | The winner distribution and the starter split each add up to the number of games, and so do ending by no heroes and timing out. Kills split by player. The turn extremes bound every game and are at least 1. |
| SimRun.GameSeedsDistinct | scripts/lib/simEngine.js:857 | Different game indexes of one batch get different seed strings. |
| SimRun.RunSimulation | scripts/lib/simEngine.js:854-881 | Exactly max(games, 0) games are played in order. Game i + 1 uses seed `${baseSeed}:${i + 1}`, and the aggregate is computed over the per-game reports. |
| SimRun.PlayGame | scripts/lib/simEngine.js:858-863 | One game's report is well formed and carries its index, seed and starter. |
| Ranking.LexLeqTotal | scripts/lib/botBaseline.js:10-15 | Comparator keys of equal width are totally ordered. |
| Ranking.LexLeqTransitive | scripts/lib/botBaseline.js:10-15 | The key order is transitive. |
| Ranking.LexLeqAntisymmetric | scripts/lib/botBaseline.js:10-15 | Keys of equal width that compare equal both ways are equal. |
| Ranking.LexLeqPair | scripts/lib/botBaseline.js:10-15 | A two-part key compares by its first part, then by its second. |
| Ranking.LexLeqTriple | scripts/lib/botProfiles.js:9-27 | A three-part key compares part by part. |
| Ranking.InsertPermutes | scripts/lib/botBaseline.js:17-39 | Insertion adds exactly the inserted element. |
| Ranking.SortPermutes | scripts/lib/botBaseline.js:17-39 | Sorting is a permutation. |
| Ranking.InsertSorted | scripts/lib/botBaseline.js:17-39 | Insertion into a sorted list keeps it sorted. |
| Ranking.SortSorted | scripts/lib/botBaseline.js:17-39 | The sort yields a list ordered by key. |
| Ranking.SortByKeyCorrect | scripts/lib/botBaseline.js:17-39 | `sort(comparator)` yields a key-ordered permutation whose head is one of the inputs. |
| Ranking.RankFromComplete | scripts/lib/botBaseline.js:17-39 | Every element passing the filter is in the ranking, with its key and index. |
| Ranking.RankMembers | scripts/lib/botBaseline.js:17-39 | An element is ranked exactly when it passes the filter. |
| Ranking.RankEmpty | scripts/lib/botBaseline.js:17-39 | The ranking is empty exactly when no element passes the filter. |
| Ranking.RankFirst | scripts/lib/botBaseline.js:17-39 | The head of the sorted ranking passes the filter and has a key no larger than any ranked element's. |
| Ranking.RankSorted | scripts/lib/botBaseline.js:17-39 | The sorted ranking is ordered by key. |
| Ranking.BestCorrect | scripts/lib/botBaseline.js:17-39 | `filter(...).sort(...)[0]` is None exactly when nothing passes. Otherwise it passes the filter and no passing element has a smaller key. |
| BotBaseline.PickHeroRecruitPlayCorrect | scripts/lib/botBaseline.js:17-39 | There is no recruit play exactly when the board is full or no hero card is affordable at its recruit cost. Otherwise the play puts the cheapest affordable hero (ties to the earlier hand index) into the first empty slot. |
| BotBaseline.WeaponCount | scripts/lib/botBaseline.js:41-75 | A hero's weapon count is at most its item count. |
| BotBaseline.FitSlotFrom | scripts/lib/botBaseline.js:53-70 | The slot found is the first one at or after `from` where the card fits. None means the card fits nowhere there. |
| BotBaseline.FirstFitFrom | scripts/lib/botBaseline.js:53-70 | The first candidate that fits some slot is found with its slot. None means no candidate fits. |
| BotBaseline.FirstFitting | scripts/lib/botBaseline.js:53-72 | The loop returns the play of the first fitting candidate. |
| BotBaseline.EquipChoice | scripts/lib/botBaseline.js:41-75 | The equip choice indexes the candidate order. |
| BotBaseline.PickItemEquipPlay | scripts/lib/botBaseline.js:41-75 | The method returns the specification's equip play. |
| BotBaseline.CostRankCorrect | scripts/lib/botBaseline.js:41-52 | The ranking of one kind of equipment is sorted by the key (minus cost, hand index), holds only affordable cards of that kind from the hand, and holds every one of them. |
| BotBaseline.CostRankEntries | scripts/lib/botBaseline.js:41-52 | Every entry of a kind's ranking is an affordable card of that kind at its hand index, keyed by (minus cost, index). |
| BotBaseline.CostRankComplete | scripts/lib/botBaseline.js:41-52 | Every affordable card of the kind is in its ranking. |
| BotBaseline.CostHeadDearest | scripts/lib/botBaseline.js:41-52 | The head of a non-empty ranking is the dearest affordable card of its kind, the earliest in hand among equally dear ones. |
| BotBaseline.EquipOrderAt | scripts/lib/botBaseline.js:41-52 | Each candidate is an affordable card of the hand at its index, and it is a weapon exactly when it lies in the leading weapon group. |
| BotBaseline.EquipOrderEntries | scripts/lib/botBaseline.js:41-52 | Every candidate is an affordable weapon or item of the hand, and the weapons precede the items. |
| BotBaseline.EquipOrderComplete | scripts/lib/botBaseline.js:41-52 | Every affordable weapon or item of the hand is a candidate, with its index. |
| BotBaseline.EquipOrderShape | scripts/lib/botBaseline.js:41-52 | The candidates are exactly the affordable weapons and items of the hand, with their indices, weapons first. |
| BotBaseline.FitsByWeaponness | scripts/lib/botBaseline.js:53-70 | Two cards that are both weapons or both not fit the same slots. |
| BotBaseline.FirstFitIsGroupHead | scripts/lib/botBaseline.js:53-72 | In a weapons-then-items order, the first candidate that fits is the head of the weapon group or the head of the item group. |
| BotBaseline.NoEquipChoice | scripts/lib/botBaseline.js:41-75 | Without a choice, no affordable weapon or item of the hand fits any slot. |
| BotBaseline.EquipChoiceDearest | scripts/lib/botBaseline.js:41-75 | The chosen card is the dearest affordable card of its kind, the earliest in hand among equally dear ones. |
| BotBaseline.ItemPickedLast | scripts/lib/botBaseline.js:41-75 | An item is chosen only when no affordable weapon fits any slot. |
| BotBaseline.EquipChoiceCorrect | scripts/lib/botBaseline.js:41-75 | The chosen card is affordable and its slot is the first slot it fits. A chosen weapon is the dearest affordable weapon, and a chosen item the dearest affordable item, earliest in hand on ties. An item is chosen only when no affordable weapon fits anywhere. No choice means no affordable weapon or item fits anywhere. |
| BotBaseline.MissingHp | scripts/lib/botBaseline.js:77-119 | The missing HP is non-negative and at least max minus current. |
| BotBaseline.HealTargets | scripts/lib/botBaseline.js:77-119 | The targets are occupied slots with at least the minimum missing HP, in slot order. |
| BotBaseline.HealTargetsComplete | scripts/lib/botBaseline.js:77-119 | Every hero missing at least the minimum is a target. |
| BotBaseline.CollectHealTargets | scripts/lib/botBaseline.js:90-103 | The loop collects exactly the specified targets. |
| BotBaseline.PickHealingRecruitPlay | scripts/lib/botBaseline.js:77-119 | The method returns the specification's healing play. |
| BotBaseline.HealingCardCorrect | scripts/lib/botBaseline.js:77-89 | The healing card chosen is the cheapest affordable one, ties to the earlier index. |
| BotBaseline.HealingTargetCorrect | scripts/lib/botBaseline.js:104-117 | The target chosen ranks first by hero value (attack + defence + item count), then by missing HP, then by the lower slot. There is none exactly when there are no targets. |
| BotBaseline.HealingPlayCorrect | scripts/lib/botBaseline.js:77-119 | A healing play exists exactly when some healing card is affordable and some hero misses at least 2 HP. It pairs the cheapest such card with the best-ranked target. |
| BotBaseline.AttackerSlots | scripts/lib/botBaseline.js:121-134 | The attacker slots are exactly the slots that can attack, in increasing order. |
| BotBaseline.AimAll | scripts/lib/botBaseline.js:121-134 | Every attacker aims at the same target, in order. |
| BotBaseline.AttacksUpToStep | scripts/lib/botBaseline.js:121-134 | One more slot adds one attack exactly when that slot can attack. |
| BotBaseline.PickAttacks | scripts/lib/botBaseline.js:121-134 | The loop returns the baseline attacks. |
| BotBaseline.BaselineAttacksCorrect | scripts/lib/botBaseline.js:121-134 | Without defenders there are no attacks. Otherwise every able slot, in order, attacks the first occupied defender slot. |
| BotBaseline.DiscardCount | scripts/lib/botBaseline.js:136-152 | No more cards are discarded than the hand holds. |
| BotBaseline.CardIds | scripts/lib/botBaseline.js:136-152 | The ids are the ranked cards' ids, in order. |
| BotBaseline.RankAllLength | scripts/lib/botBaseline.js:136-152 | Ranking the whole hand keeps every card. |
| BotBaseline.DiscardRankingCorrect | scripts/lib/botBaseline.js:136-152 | The discard ranking lists every card of the hand once, with its index. Cards are ordered by type priority, then dearest first, then by index. |
| BotBaseline.PickDiscardCardIdsCorrect | scripts/lib/botBaseline.js:136-152 | Exactly min(required, hand size) ids are picked, and none when required <= 0. They are the ids of the first cards of the discard ranking, and each picked card ranks before every unpicked one. |
| BotProfiles.PickHeroRecruitPlayAggressiveCorrect | scripts/lib/botProfiles.js:9-27 | There is no play exactly when the board is full or no hero is affordable. Otherwise the play puts the dearest affordable hero at its recruit cost (ties to the earlier index) into the first empty slot. |
| BotProfiles.PickHealingRecruitPlayAggressive | scripts/lib/botProfiles.js:29-59 | The method returns the aggressive healing specification. |
| BotProfiles.AggressiveHealingPlayCorrect | scripts/lib/botProfiles.js:29-59 | A play exists exactly when some healing card is affordable and some hero misses at least 3 HP. It pairs the cheapest card with the hero missing the most HP, ties to the lower slot. |
| BotProfiles.MostMissingBest | scripts/lib/botProfiles.js:45-57 | The aggressive target misses the most HP, ties to the lower slot. |
| BotProfiles.AimOrdered | scripts/lib/botProfiles.js:61-84 | The attacks follow the attacker order, all at the target. |
| BotProfiles.CollectAttackers | scripts/lib/botProfiles.js:65-70 | The loop collects exactly the able slots. |
| BotProfiles.PickAttacksAggressive | scripts/lib/botProfiles.js:61-84 | The method returns the aggressive attack specification. |
| BotProfiles.WeakestDefenderCorrect | scripts/lib/botProfiles.js:71-80 | A target exists exactly when the defender has a hero. It has the lowest HP, ties to the lower slot. |
| BotProfiles.AttackOrderCorrect | scripts/lib/botProfiles.js:65-70 | The attacker order holds exactly the able slots, strongest attack first, ties by slot. |
| BotProfiles.AttackOrderSorted | scripts/lib/botProfiles.js:65-70 | The attackers come strongest first, ties by slot. |
| BotProfiles.AtkPairOrdered | scripts/lib/botProfiles.js:65-70 | An attacker ranked strictly before another of a different slot has the greater attack; the keys order by descending attack. |
| BotProfiles.AggressiveAttacksCorrect | scripts/lib/botProfiles.js:61-84 | Without defenders there are no attacks. Otherwise every able hero attacks the weakest defender, strongest attacker first. |
| BotProfiles.FirstDiscardLowest | scripts/lib/botProfiles.js:95-109 | The first id discarded belongs to a card of the lowest priority present. |
| BotProfiles.AggressiveDiscardsHealingFirst | scripts/lib/botProfiles.js:86-109 | With a healing card in hand and a discard due, the aggressive bot first discards a healing card. |
| BotProfiles.ConservativeDiscardsHeroFirst | scripts/lib/botProfiles.js:224-247 | With a hero card in hand and a discard due, the conservative bot first discards a hero card. |
| BotProfiles.ConservativeEquipChoice | scripts/lib/botProfiles.js:111-156 | The choice indexes the conservative candidate order. |
| BotProfiles.PickItemEquipPlayConservative | scripts/lib/botProfiles.js:111-156 | The method returns the conservative equip specification. |
| BotProfiles.ConservativeOrderKinds | scripts/lib/botProfiles.js:137-155 | The conservative candidates are the weapon ranking followed by the item ranking: a candidate is a weapon exactly when it lies in the leading group. |
| BotProfiles.ItemRankCorrect | scripts/lib/botProfiles.js:126-135 | The item ranking is the affordable items, sorted by highest defence, then lowest cost, then index. |
| BotProfiles.ItemRankEntries | scripts/lib/botProfiles.js:126-135 | Every entry of the item ranking is an affordable item at its hand index, keyed by (minus defence, cost, index). |
| BotProfiles.ItemRankComplete | scripts/lib/botProfiles.js:126-135 | Every affordable item of the hand is in the item ranking. |
| BotProfiles.ConservativeChoiceIsHead | scripts/lib/botProfiles.js:137-155 | The conservative choice is the head of the weapon ranking or the head of the item ranking. |
| BotProfiles.WeaponsComeFirst | scripts/lib/botProfiles.js:137-155 | Every affordable weapon is among the leading weapon candidates. |
| BotProfiles.NoConservativeChoice | scripts/lib/botProfiles.js:111-156 | No choice means no affordable weapon or item fits anywhere. |
| BotProfiles.ConservativeEquipChoiceCorrect | scripts/lib/botProfiles.js:111-156 | The chosen card is affordable and fits its slot first. A chosen weapon is the dearest affordable weapon. A chosen item is the best by defence, then cost, then index, and is chosen only when no affordable weapon fits. No choice means no affordable card fits anywhere. |
| BotProfiles.ConservativeChoiceMade | scripts/lib/botProfiles.js:137-155 | The chosen card is an affordable card of the hand that fits its slot first, with the weapon and item rankings' guarantees. |
| BotProfiles.WeaponChoiceMade | scripts/lib/botProfiles.js:137-147 | A weapon choice is the dearest affordable weapon. |
| BotProfiles.ItemChoiceMade | scripts/lib/botProfiles.js:148-155 | An item choice is the affordable item ranked first by defence, then lower cost, then index. |
| BotProfiles.ItemChoiceNoWeapon | scripts/lib/botProfiles.js:137-155 | An item is chosen only when no affordable weapon fits anywhere. |
| BotProfiles.CandidateAt | scripts/lib/botProfiles.js:158-199 | A slot is a care candidate exactly when it holds a hero missing HP. |
| BotProfiles.CareBestCorrect | scripts/lib/botProfiles.js:170-190 | There is no target exactly when no hero misses HP. Otherwise the target ranks first by low HP (2 or less), then missing HP, then lower slot, as the loop's replacement rule does. |
| BotProfiles.PickHealingRecruitPlayConservative | scripts/lib/botProfiles.js:158-199 | The method returns the conservative healing specification. |
| BotProfiles.ConservativeHealingPlayCorrect | scripts/lib/botProfiles.js:158-199 | A play exists exactly when some healing card is affordable and some hero misses HP. It pairs the cheapest card with the care target. |
| BotProfiles.PickAttacksConservative | scripts/lib/botProfiles.js:201-222 | The method returns the conservative attack specification. |
| BotProfiles.ConservativeAttacksCorrect | scripts/lib/botProfiles.js:201-222 | When the defender has heroes and some able hero has more than 2 HP and more than 34% of its maximum, exactly those heroes attack, in slot order, at the first occupied defender slot. Otherwise the baseline attacks are returned. |
| BotProfiles.TrimStart | scripts/lib/botProfiles.js:281 | `trimStart` removes only leading white space and stops at a non-space. |
| BotProfiles.TrimEnd | scripts/lib/botProfiles.js:281 | `trimEnd` removes only trailing white space and stops at a non-space. |
| BotProfiles.Trim | scripts/lib/botProfiles.js:281 | The trimmed name neither starts nor ends with white space. |
| BotProfiles.Lower | scripts/lib/botProfiles.js:281 | Lower-casing maps each character and keeps the length. |
| BotProfiles.ResolveBotProfileCorrect | scripts/lib/botProfiles.js:280-283 | A name resolves to a profile exactly when its trimmed lower-case form is that profile's key. A missing or empty name resolves to the baseline. |
| BotProfiles.KeyOfNameInverse | scripts/lib/botProfiles.js:249-277 | The profile keys and the key names are inverse. |
| BotProfiles.ResolveAsWrittenFindsInherited | scripts/lib/botProfiles.js:280-283 | The lookup as written agrees with the table on every other name, but finds a non-profile member for "constructor" and "__proto__". |
| BotProfiles.ResolveConstructorAsWritten | scripts/lib/botProfiles.js:280-283 | As written, "constructor" resolves to an inherited member, while the table has no such profile. |
| BotProfiles.ResolveKeyName | scripts/lib/botProfiles.js:280-283 | A key name padded with white space resolves to its profile. |
| BotProfiles.KeyNameIsNormal | scripts/lib/botProfiles.js:249-277 | Every key name is already trimmed and lower case. |
| BotProfiles.TrimPadded | scripts/lib/botProfiles.js:281 | Trimming a padded word gives the word. |
| CombatStore.OrNull | src/stores/useCombatStore.js:31-87 | `value \|\| null` on a string is null exactly for the empty string. |
| CombatStore.OrElse | src/stores/useCombatStore.js:31-87 | `n \|\| fallback` keeps a non-zero number. |
| CombatStore.OrZero | src/stores/useCombatStore.js:89-131 | `?? 0` keeps a given number. |
| CombatStore.NormalizeDamageDieSides | src/stores/useCombatStore.js:23-29 | The damage die has 6 sides from 6 up, 4 from 4 up, and 2 otherwise (including when missing). |
| CombatStore.NormalizeIdempotent | src/stores/useCombatStore.js:23-29 | Normalising a normalised size changes nothing. |
| CombatStore.NormalizeMonotone | src/stores/useCombatStore.js:23-29 | A larger input never gives a smaller die. |
| CombatStore.FallbackCombatId | src/stores/useCombatStore.js:31-40 | The fallback combat id is `combat-` followed by the timestamp. |
| CombatStore.NextStepAdvancesByOne | src/stores/useCombatStore.js:89-131 | A roll result moves the step forward exactly when it is the next step. |
| CombatStore.RecordStep | src/stores/useCombatStore.js:89-131 | Recording a roll keeps the combat id. |
| CombatStore.MarkStart | src/stores/useCombatStore.js:133-163 | Marking a roll's start keeps the combat id. |
| CombatStore.StartRoll | src/stores/useCombatStore.js:31-87 | A new roll has a non-empty id, no roll results or damage, no roll in progress and no reactions. |
| CombatStore.FinishedRoll | src/stores/useCombatStore.js:213-245 | A finished roll keeps its id and start time and records the damage and the finish time. |
| CombatStore.FinishedKeepsBaseDamage | src/stores/useCombatStore.js:213-245 | Without a new base damage, the old base damage is kept (0 if none). |
| CombatStore.EnqueueCorrect | src/stores/useCombatStore.js:188-200 | A response joins the end of its combat's queue, and other queues are untouched. |
| CombatStore.DequeueCorrect | src/stores/useCombatStore.js:202-211 | Consuming returns the head of the combat's queue and removes it. Other queues are untouched. |
| CombatStore.EnqueueAllQueue | src/stores/useCombatStore.js:188-200 | Queuing several responses appends them in order. |
| CombatStore.DequeueNQueue | src/stores/useCombatStore.js:202-211 | Consuming n responses returns the first n in order and leaves the rest. |
| CombatStore.FirstInFirstOut | src/stores/useCombatStore.js:188-211 | Responses are consumed in the order they were queued. |
| CombatStore.Combat.constructor | src/stores/useCombatStore.js:8-21 | The store starts cleared. |
| CombatStore.Combat.IsActive | src/stores/useCombatStore.js:8-21 | A roll is active exactly when one is recorded. |
| CombatStore.Combat.IsReactionOpen | src/stores/useCombatStore.js:8-21 | The reaction window is open exactly when one is recorded. |
| CombatStore.Combat.StartCombatContext | src/stores/useCombatStore.js:31-87 | Starting a combat records the new roll and its context, waits for the attacker's roll, closes the window and clears the responses. |
| CombatStore.Combat.SetRollStepResult | src/stores/useCombatStore.js:89-131 | A result is accepted exactly for the active combat's id. It then advances the step, and otherwise nothing changes. |
| CombatStore.Combat.MarkRollStepStart | src/stores/useCombatStore.js:133-163 | A start mark is accepted exactly for the active combat's id, and only the roll changes. |
| CombatStore.Combat.OpenReactionWindow | src/stores/useCombatStore.js:165-180 | The window opens exactly for the active combat's id and moves to the reaction step. |
| CombatStore.Combat.CloseReactionWindow | src/stores/useCombatStore.js:182-186 | The window closes when no id is expected or the id matches. Otherwise it stays. |
| CombatStore.Combat.SetReactionResponse | src/stores/useCombatStore.js:188-200 | A response with a combat id is queued for that id. Without an id nothing changes. |
| CombatStore.Combat.ConsumeReactionResponse | src/stores/useCombatStore.js:202-211 | Consuming returns and removes the head of the combat's queue. |
| CombatStore.Combat.FinishRoll | src/stores/useCombatStore.js:213-245 | Finishing is accepted exactly for the active combat's id. It then records the finished roll, resolves the step, and clears the context, the window and the queued responses. Otherwise nothing changes. |
| CombatStore.Combat.ClearRoll | src/stores/useCombatStore.js:272-279 | The roll is cleared when no id is expected or the id matches. Otherwise it stays. |
| CombatStore.Combat.Reset | src/stores/useCombatStore.js:281-284 | `$reset` clears the store. |
| CombatStore.RecordDice | src/stores/useCombatStore.js:89-180 | Recording the attacker, defender and damage rolls of the active combat always advances to the reaction step. |
| CombatStore.CombatRound | src/stores/useCombatStore.js:31-245 | A whole round through the store is accepted, the queued response comes back, and the round ends resolved with no context, window or responses. |
| DeckStore.SwapIndex | src/stores/useDeckStore.js:25-30 | `Math.floor(random() * (i + 1))` is an index in [0, i]. |
| DeckStore.DrawCount | src/stores/useDeckStore.js:32-34 | `splice(0, count)` removes as many cards as asked for and available. |
| DeckStore.SwapsFromPermutes | src/stores/useDeckStore.js:25-30 | The swaps keep the same cards. |
| DeckStore.ShuffledPermutes | src/stores/useDeckStore.js:25-30 | Shuffling is a permutation of the deck for any draws. |
| DeckStore.Deck.constructor | src/stores/useDeckStore.js:8-13 | The store starts with no batch and no cards. |
| DeckStore.Deck.CardsRemaining | src/stores/useDeckStore.js:15 | The count of remaining cards is the deck's length. |
| DeckStore.Deck.IsEmpty | src/stores/useDeckStore.js:16 | The deck is empty exactly when no card remains. |
| DeckStore.Deck.LoadBatch | src/stores/useDeckStore.js:19-23 | Loading a batch copies its id and cards and empties the discard pile. |
| DeckStore.Deck.Shuffle | src/stores/useDeckStore.js:25-30 | The in-place pass gives the specified shuffle, a permutation, and touches nothing else. |
| DeckStore.Deck.Draw | src/stores/useDeckStore.js:32-34 | The drawn cards followed by the remaining deck are the old deck. |
| DeckStore.Deck.Discard | src/stores/useDeckStore.js:36-38 | The card goes on top of the pile, and the deck is untouched. |
| DeckStore.Deck.Reset | src/stores/useDeckStore.js:40-44 | `$reset` empties the store. |
| PlayersStore.PlayHeroCorrect | src/stores/usePlayersStore.js:39-49 | Playing a hero succeeds exactly when the board has room and the first card with the id is a hero. The card then moves from the hand to the end of the board, within three heroes, and the cards are conserved. |
| PlayersStore.AddRemoteHeroCorrect | src/stores/usePlayersStore.js:51-60 | A remote hero is added exactly when the board has room. The hand loses the matching card even when the board is full. |
| PlayersStore.Players.constructor | src/stores/usePlayersStore.js:18-21 | Both players start as created. |
| PlayersStore.Players.GetRecruitCost | src/stores/usePlayersStore.js:27-32 | The recruit cost is the base cost plus the triangular pressure of losses. It is never below the base cost. |
| PlayersStore.Players.AddToHand | src/stores/usePlayersStore.js:35-37 | The cards join the end of that player's hand only. |
| PlayersStore.Players.PlayHeroFromHand | src/stores/usePlayersStore.js:39-49 | The roster follows `PlayHero`, or is unchanged on failure. |
| PlayersStore.Players.AddHeroFromRemote | src/stores/usePlayersStore.js:51-60 | The roster follows `AddRemoteHero`. |
| PlayersStore.Players.RefreshResources | src/stores/usePlayersStore.js:62-64 | The player's resources return to their maximum. |
| PlayersStore.Players.Reset | src/stores/usePlayersStore.js:66-71 | `$reset` recreates both players. |
| GameStore.Game.constructor | src/stores/useGameStore.js:13-21 | The store starts in setup. |
| GameStore.Game.IsPlaying | src/stores/useGameStore.js:24 | The game is playing exactly when its phase is the playing phase, so neither in setup nor ended. |
| GameStore.Game.IsEnded | src/stores/useGameStore.js:25 | The game is ended exactly when its phase is the end phase; an ended game is not playing. |
| GameStore.Game.StartGame | src/stores/useGameStore.js:28-39 | Play starts on turn 1 with full resources and no winner. The first player and phase come from the arguments or default to player A and recruit. |
| GameStore.Game.Reset | src/stores/useGameStore.js:41-51 | `$reset` returns to setup. |
| SimulateGames.ToNumber | scripts/simulate-games.js:51-79 | A missing value is not a number, the empty string is 0 and a digit string is its value. |
| SimulateGames.ToNumberOfRendering | scripts/simulate-games.js:51-60 | A rendered count reads back as itself. |
| SimulateGames.SetValueOverrides | scripts/simulate-games.js:51-79 | A value flag given twice keeps the second value, and other options are untouched. |
| SimulateGames.ParseArgsLoop | scripts/simulate-games.js:23-85 | The loop computes the recursive parse with the source's defaults. |
| SimulateGames.NoArgumentsGiveDefaults | scripts/simulate-games.js:24-32 | No arguments give the defaults: no games, no seed, 200 turns, no JSON, no output. |
| SimulateGames.HelpIgnoresTheRest | scripts/simulate-games.js:36-39 | `--help` or `-h` ends parsing at once with help set. |
| SimulateGames.UnknownArgumentFails | scripts/simulate-games.js:81 | An unknown argument is an error naming it. |
| SimulateGames.LaterValueWins | scripts/simulate-games.js:51-79 | A repeated value flag takes the later value. |
| SimulateGames.ValidateOptions | scripts/simulate-games.js:87-103 | The options validate exactly when games and max turns are positive integers, a batch path is given, and an output path comes with `--json`. An invalid games count is reported first. |
| SimulateGames.GamesRequired | scripts/simulate-games.js:87-91 | The defaults alone fail on the games count. |
| SimulateGames.GamesCountSuffices | scripts/simulate-games.js:23-103 | `--games n` with n positive parses and validates. |
| GenerateBatch.Clamp | scripts/generate-batch.js:74-76 | The clamp lies in [min, max] and is the identity inside it. |
| GenerateBatch.ClampMonotone | scripts/generate-batch.js:74-76 | Clamping preserves order. |
| GenerateBatch.Round | scripts/generate-batch.js:123-148 | `Math.round` is within one half of its argument, rounding halves up. |
| GenerateBatch.RoundMonotone | scripts/generate-batch.js:123-148 | Rounding preserves order. |
| GenerateBatch.RoundThird | scripts/generate-batch.js:142-148 | Rounding n / 3 gives (n + 1) / 3 in integer division. |
| GenerateBatch.CombinationsPositive | scripts/generate-batch.js:161-171 | Well-formed stat ranges have at least one combination. |
| GenerateBatch.CountCombinations | scripts/generate-batch.js:161-171 | The loop computes the product of the range widths, which is at least 1. |
| GenerateBatch.MaxUniqueCardsAtLeastTemplates | scripts/generate-batch.js:176-178 | A type's unique-card capacity is at least its number of templates. |
| GenerateBatch.DerivedCost | scripts/generate-batch.js:123-140 | The derived cost lies in 2..6 for heroes, 1..4 for items and reactives, 1..3 for healing and counterattacks, and is 1 for an unknown type. |
| GenerateBatch.DerivedCostMonotone | scripts/generate-batch.js:123-140 | More power never gives a lower derived cost. |
| GenerateBatch.CardCost | scripts/generate-batch.js:142-148 | The cost lies in 1..10 and is the rounded weighted mean of twice the derived cost and the template's base cost. |
| GenerateBatch.CardCostMonotone | scripts/generate-batch.js:142-148 | More power never gives a lower cost. |
| GenerateBatch.HeroCostBand | scripts/generate-batch.js:142-148 | A hero with base cost in 1..4 costs 2 to 5. |
| GenerateBatch.Largest | scripts/generate-batch.js:280-288 | The bucket chosen for the remainder has a largest count, and it is the first such bucket. |
| GenerateBatch.CalculateDistribution | scripts/generate-batch.js:270-290 | The counts add up to the batch size. The largest share absorbs the rounding difference and the others keep their rounded share. |
| GenerateBatch.FiftyCardDistribution | scripts/generate-batch.js:32-50 | For 50 cards the shares are 13, 15, 8, 5 and 10. Items absorb -1, and every type then meets its minimum. |
| GenerateBatch.KeptDistinct | scripts/generate-batch.js:322-344 | Without duplicates allowed, the kept cards have distinct signatures. |
| GenerateBatch.KeptAllowingDuplicates | scripts/generate-batch.js:322-344 | With duplicates allowed, every candidate is kept. |
| GenerateBatch.KeptFromCandidates | scripts/generate-batch.js:322-344 | The kept cards are a subset of the candidates, never more of them. |
| GenerateBatch.GenerateOfType | scripts/generate-batch.js:322-344 | The loop keeps the specified cards from the attempted candidates and makes at most 20 attempts per wanted card. It stops with enough cards, at the attempt limit, or when the candidates run out. |
| GenerateBatch.SummaryCoversBatch | scripts/generate-batch.js:364-373 | The per-type summary adds up to the number of cards. |
| GenerateBatch.DuplicateErrorsCount | scripts/generate-batch.js:399-405 | One duplicate error is reported per card beyond the first with each id. |
| GenerateBatch.DuplicateErrorsNone | scripts/generate-batch.js:399-405 | There are no duplicate errors exactly when the ids are distinct. |
| GenerateBatch.Heroes | scripts/generate-batch.js:408-418 | The heroes are as many as the summary counts. |
| GenerateBatch.AverageGapAsSums | scripts/generate-batch.js:408-418 | The average attack and defence differ by more than 1 exactly when the sums differ by more than the hero count. |
| GenerateBatch.ValidateBatch | scripts/generate-batch.js:382-424 | The method reports the specified errors, in the source's order, and the batch is valid exactly when there are none. |
| GenerateBatch.ValidBatchIff | scripts/generate-batch.js:382-424 | A batch is valid exactly when it has 50 cards, every type meets its minimum, the ids are distinct, and the heroes' average attack and defence differ by at most 1. |
| GenerateBatch.MinimumErrorsNone | scripts/generate-batch.js:391-396 | There are no minimum errors exactly when every listed type meets its minimum. |
| GenerateBatch.MinimumsMet | scripts/generate-batch.js:391-396 | Over all five types: no minimum errors exactly when every type meets its minimum. |

## Left out

- Console output, file reading and writing, and the `main` functions of both scripts are not modelled. This covers the banner, `--verbose` progress lines, JSON output, `printSummary` and loading the batch file: this is I/O.
- The averages, rates and the p50/p90 percentiles of `aggregateResults` are left out because they are floating-point quotients; `SimRun.AggregateOf` keeps the counts, sums and extremes.
- `SimulateGames.ToNumber`: only the empty string, decimal digit strings and a minus sign followed by digits are read as integers; every other text counts as not an integer, where JavaScript's `Number()` would also accept hexadecimal, exponents or surrounding white space.
- `BotProfiles.Lower`: only ASCII letters are lower-cased; JavaScript's `toLowerCase` maps the rest of Unicode as well.
- `BotProfiles.ConservativeAttacksCorrect`: the ratio test `hp / maxHp <= 0.34` is stated exactly on integers; the floating-point quotient of the source can differ only where it rounds onto 0.34.
- `Rng.Rng.Int`: the draw is `floor(u * span / 2^32)` on exact rationals; the source's float product rounds once spans make it exceed 2^53.
- `GenerateBatch.CardCost`: `evaluateCardPower` is not part of this model; the card's power is a parameter, and costs, the distribution and the gap check use exact reals instead of floats.
- `GenerateBatch.GenerateOfType`: random stat rolls are not part of this model; the candidate cards are a parameter, so the loop can also stop when they run out. A signature is the template and stats map, standing in for `JSON.stringify`.
- The assembly of the batch in `generateBatch` (uuid, `created_at`, the final shuffle and console warnings) is left out: it is I/O and randomness around the modelled parts.
- `Date.now()`, `Math.random()` and `crypto.randomUUID()` are parameters, as listed above.
- The reaction reveal timers of the combat store (`showReactionReveal`, `clearReactionReveal`) are left out because they only schedule `setTimeout` callbacks.
- `DeckStore.Deck.Draw`: the default argument `count = 1` is not modelled; callers pass the count.
- The engine never plays healing cards, and the bot profiles are not wired into `runSingleGame` (the engine calls the baseline bot). The model keeps both as the source has them: the profiles are modelled as functions and proved on their own.
- The bot profiles' unused `reactionStyle` field is not modelled.
- The card templates (`scripts/templates`) are data and are not transcribed.
- `src/composables`, `src/game/network`, `src/services`, `src/router`, `src/main.js` and the connection store are not part of this model: networking and UI wiring.
- `Rng.HashSeed`: a number seed is given as an integer; the truncation of fractional numbers and the string fallback for non-finite numbers are not modelled.

## Findings

| source | as written | input that shows it | evidently intended | confidence | as-written member | corrected member |
|---|---|---|---|---|---|---|
| scripts/lib/botProfiles.js:280-283 | `BOT_PROFILES[normalized] \|\| null` looks the name up on a plain object, so inherited members of `Object.prototype` are found too | `resolveBotProfile("constructor")` returns the `Object` constructor, which is not a profile (likewise `"__proto__"`) | only the table's own profile keys resolve, and every other name gives null | not executed | BotProfiles.ResolveConstructorAsWritten | BotProfiles.ResolveBotProfileCorrect |

## Notes on behaviour

- The opening mulligan happens at most once per player: a hand without a hero card is returned, the deck is reshuffled and seven cards are drawn.
- Heroes may attack on the turn they are recruited.
- Among equally good reactions the earliest card in hand wins.
- Recruit cost carries the triangular pressure term.
- The seed of game i of a batch is the string `${baseSeed}:${i + 1}`, hashed as any string seed is.
