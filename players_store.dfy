// The players store of the client (src/stores/usePlayersStore.js): both
// players' hands, the hero cards they have on the board (at most three),
// their resources and their losses.

module PlayersStore {
  import opened Wrappers
  import opened SimRules

  /** One player as the store keeps it; `heroes` holds the hero cards in the order they were played. */
  datatype StorePlayer = StorePlayer(hand: seq<Card>, heroes: seq<Card>, resources: int, maxResources: int, heroesLost: nat)

  /** `createPlayer`. */
  function CreatePlayer(): StorePlayer
  {
    StorePlayer([], [], 5, 5, 0)
  }

  /** `players.value`, keyed by the two player ids. */
  datatype Roster = Roster(a: StorePlayer, b: StorePlayer)
  {
    function Get(id: PlayerId): StorePlayer
    {
      if id == PlayerA then a else b
    }

    function Set(id: PlayerId, p: StorePlayer): (r: Roster)
      ensures r.Get(id) == p && r.Get(Opponent(id)) == Get(Opponent(id))
    {
      if id == PlayerA then this.(a := p) else this.(b := p)
    }
  }

  /**
   * `playHeroFromHand` on one player: None with a full board, a missing
   * card or a card that is not a hero; otherwise the first card with the id
   * leaves the hand and goes to the end of the board.
   */
  function PlayHero(p: StorePlayer, cardId: string): Option<(StorePlayer, Card)>
  {
    if |p.heroes| >= MaxHeroSlots then None
    else match FindCard(p.hand, cardId)
      case None => None
      case Some(k) =>
        if p.hand[k].kind != HeroCard then None
        else Some((p.(hand := RemoveAt(p.hand, k), heroes := p.heroes + [p.hand[k]]), p.hand[k]))
  }

  /**
   * Playing a hero succeeds exactly when the board has room and the first
   * card with the id is a hero card of the hand. The card then moves from
   * the hand to the end of the board: no card is created or lost, the board
   * stays within three heroes, and nothing else about the player changes.
   */
  lemma PlayHeroCorrect(p: StorePlayer, cardId: string)
    ensures PlayHero(p, cardId).Some? <==>
              |p.heroes| < MaxHeroSlots && FindCard(p.hand, cardId).Some? && p.hand[FindCard(p.hand, cardId).value].kind == HeroCard
    ensures PlayHero(p, cardId).Some? ==>
              var (q, card) := PlayHero(p, cardId).value;
              card in p.hand && card.id == cardId && card.kind == HeroCard
              && q.heroes == p.heroes + [card] && |q.heroes| <= MaxHeroSlots && |q.hand| == |p.hand| - 1
              && multiset(q.hand) + multiset{card} == multiset(p.hand)
              && multiset(q.hand) + multiset(q.heroes) == multiset(p.hand) + multiset(p.heroes)
              && q.resources == p.resources && q.maxResources == p.maxResources && q.heroesLost == p.heroesLost
  {
  }

  /**
   * `addHeroFromRemote` on one player: the first card with the card's id
   * leaves the hand when there is one; then the card joins the board unless
   * the board is full (the hand has changed all the same).
   */
  function AddRemoteHero(p: StorePlayer, card: Card): (StorePlayer, bool)
  {
    var hand := match FindCard(p.hand, card.id) case None => p.hand case Some(k) => RemoveAt(p.hand, k);
    if |p.heroes| >= MaxHeroSlots then (p.(hand := hand), false)
    else (p.(hand := hand, heroes := p.heroes + [card]), true)
  }

  /**
   * The remote hero is added exactly when the board has room; the hand loses
   * one card exactly when it held one with the id, even when the board was
   * full; the board never exceeds three.
   */
  lemma AddRemoteHeroCorrect(p: StorePlayer, card: Card)
    ensures var (q, added) := AddRemoteHero(p, card);
            (added <==> |p.heroes| < MaxHeroSlots)
            && (added ==> q.heroes == p.heroes + [card])
            && (!added ==> q.heroes == p.heroes)
            && (|p.heroes| <= MaxHeroSlots ==> |q.heroes| <= MaxHeroSlots)
            && (FindCard(p.hand, card.id).Some? ==>
                  (|q.hand| == |p.hand| - 1
                   && multiset(q.hand) + multiset{p.hand[FindCard(p.hand, card.id).value]} == multiset(p.hand)))
            && (FindCard(p.hand, card.id).None? ==> q.hand == p.hand)
            && q.resources == p.resources && q.heroesLost == p.heroesLost
  {
  }

  class Players {
    var players: Roster

    /** Neither board ever holds more than three heroes. */
    predicate Valid()
      reads this
    {
      |players.a.heroes| <= MaxHeroSlots && |players.b.heroes| <= MaxHeroSlots
    }

    constructor ()
      ensures Valid() && players == Roster(CreatePlayer(), CreatePlayer())
    {
      players := Roster(CreatePlayer(), CreatePlayer());
    }

    /** `getRecruitCost`: the base cost plus the pressure of the player's losses. */
    function GetRecruitCost(id: PlayerId, baseCost: int): (cost: int)
      reads this
      ensures cost == RecruitCost(players.Get(id).heroesLost, baseCost)
      ensures cost >= baseCost && (players.Get(id).heroesLost == 0 ==> cost == baseCost)
    {
      var lost := players.Get(id).heroesLost;
      baseCost + lost * (lost + 1) / 2
    }

    /** `addToHand`: the cards join the end of the hand. */
    method AddToHand(id: PlayerId, cards: seq<Card>)
      requires Valid()
      modifies this
      ensures Valid()
      ensures players == old(players).Set(id, old(players.Get(id)).(hand := old(players.Get(id)).hand + cards))
    {
      var p := players.Get(id);
      players := players.Set(id, p.(hand := p.hand + cards));
    }

    /** `playHeroFromHand`: the played card, or None with nothing changed. */
    method PlayHeroFromHand(id: PlayerId, cardId: string) returns (played: Option<Card>)
      requires Valid()
      modifies this
      ensures Valid()
      ensures PlayHero(old(players.Get(id)), cardId).None? ==> played == None && players == old(players)
      ensures PlayHero(old(players.Get(id)), cardId).Some? ==>
                played == Some(PlayHero(old(players.Get(id)), cardId).value.1)
                && players == old(players).Set(id, PlayHero(old(players.Get(id)), cardId).value.0)
    {
      var player := players.Get(id);
      played := None;
      if |player.heroes| < MaxHeroSlots {
        var index := FindCard(player.hand, cardId);
        if index.Some? && player.hand[index.value].kind == HeroCard {
          var card := player.hand[index.value];
          var q := player.(hand := RemoveAt(player.hand, index.value), heroes := player.heroes + [card]);
          assert PlayHero(player, cardId) == Some((q, card));
          players := players.Set(id, q);
          played := Some(card);
        }
      }
    }

    /** `addHeroFromRemote`: whether the hero was placed; the hand loses the card either way. */
    method AddHeroFromRemote(id: PlayerId, card: Card) returns (added: bool)
      requires Valid()
      modifies this
      ensures Valid()
      ensures added == AddRemoteHero(old(players.Get(id)), card).1
      ensures players == old(players).Set(id, AddRemoteHero(old(players.Get(id)), card).0)
    {
      var player := players.Get(id);
      var index := FindCard(player.hand, card.id);
      if index.Some? {
        player := player.(hand := RemoveAt(player.hand, index.value));
      }
      added := false;
      if |player.heroes| < MaxHeroSlots {
        player := player.(heroes := player.heroes + [card]);
        added := true;
      }
      AddRemoteHeroCorrect(players.Get(id), card);
      players := players.Set(id, player);
    }

    /** `refreshResources`: the player's resources come back to their maximum. */
    method RefreshResources(id: PlayerId)
      requires Valid()
      modifies this
      ensures Valid()
      ensures players == old(players).Set(id, old(players.Get(id)).(resources := old(players.Get(id)).maxResources))
    {
      var p := players.Get(id);
      players := players.Set(id, p.(resources := p.maxResources));
    }

    /** `$reset`: both players as created. */
    method Reset()
      modifies this
      ensures Valid() && players == Roster(CreatePlayer(), CreatePlayer())
    {
      players := Roster(CreatePlayer(), CreatePlayer());
    }
  }
}
