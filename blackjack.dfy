/** Blackjack: cards and hand values, the deck (shuffling is an arbitrary order given by the
    caller), and the game's hit/stand/dealer/winner state machine. */
module Blackjack {
  import opened Common

  datatype Suit = Hearts | Diamonds | Clubs | Spades
  datatype Rank = Ace | Two | Three | Four | Five | Six | Seven | Eight | Nine | Ten | Jack | Queen | King
  datatype Card = Card(suit: Suit, rank: Rank)

  /** The rank's value, an ace counting 11. */
  function CardValue(r: Rank): nat {
    match r
    case Ace => 11
    case Two => 2
    case Three => 3
    case Four => 4
    case Five => 5
    case Six => 6
    case Seven => 7
    case Eight => 8
    case Nine => 9
    case _ => 10
  }

  const Suits: seq<Suit> := [Hearts, Diamonds, Clubs, Spades]
  const Ranks: seq<Rank> := [Ace, Two, Three, Four, Five, Six, Seven, Eight, Nine, Ten, Jack, Queen, King]

  /** One standard deck: every suit with every rank. */
  function StandardDeck(): (d: seq<Card>)
    ensures |d| == 52
  {
    seq(52, i requires 0 <= i < 52 => Card(Suits[i / 13], Ranks[i % 13]))
  }

  /** The cards `reset` lays out for `n` decks, before shuffling. */
  function FullDeck(n: nat): (d: seq<Card>)
    ensures |d| == 52 * n
  {
    Repeat(StandardDeck(), n)
  }

  // ---------------------------------------------------------------------------
  // Hands

  /** Sum of card values, aces counting 11. */
  function RawTotal(cards: seq<Card>): nat {
    if cards == [] then 0 else RawTotal(cards[..|cards| - 1]) + CardValue(cards[|cards| - 1].rank)
  }

  function AceCount(cards: seq<Card>): (n: nat)
    ensures n <= |cards|
  {
    if cards == [] then 0 else AceCount(cards[..|cards| - 1]) + (if cards[|cards| - 1].rank == Ace then 1 else 0)
  }

  /** Aces are turned from 11 into 1 one at a time while the total is over 21. */
  function Adjusted(total: int, aces: nat): int {
    if total > 21 && aces > 0 then Adjusted(total - 10, aces - 1) else total
  }

  /** How many aces the adjustment turns into 1. */
  function Downgraded(total: int, aces: nat): (k: nat)
    ensures k <= aces && Adjusted(total, aces) == total - 10 * k
  {
    if total > 21 && aces > 0 then 1 + Downgraded(total - 10, aces - 1) else 0
  }

  function HandValue(cards: seq<Card>): int {
    Adjusted(RawTotal(cards), AceCount(cards))
  }

  predicate IsBlackjack(cards: seq<Card>) {
    |cards| == 2 && HandValue(cards) == 21
  }

  predicate IsBust(cards: seq<Card>) {
    HandValue(cards) > 21
  }

  /** An ace still counts 11. */
  predicate IsSoft(cards: seq<Card>) {
    RawTotal(cards) != HandValue(cards)
  }

  /** `get_value`: one pass summing values and counting aces, then the ace adjustment. */
  method GetValue(cards: seq<Card>) returns (v: int)
    ensures v == HandValue(cards)
  {
    var total := 0;
    var aces := 0;
    for i := 0 to |cards|
      invariant total == RawTotal(cards[..i]) && aces == AceCount(cards[..i])
    {
      assert cards[..i + 1][..i] == cards[..i];
      if cards[i].rank == Ace {
        aces := aces + 1;
      }
      total := total + CardValue(cards[i].rank);
    }
    assert cards[..|cards|] == cards;
    while total > 21 && aces > 0
      invariant Adjusted(total, aces) == HandValue(cards)
    {
      total := total - 10;
      aces := aces - 1;
    }
    v := total;
  }

  /** The adjustment picks the best count of aces as 11: when some choice stays within 21 the
      result is the largest such total, and otherwise every ace has been turned into 1. */
  lemma {:induction false} AdjustedIsBest(total: int, aces: nat, j: nat)
    requires j <= aces
    ensures total - 10 * j <= 21 ==> total - 10 * j <= Adjusted(total, aces) <= 21
    ensures Adjusted(total, aces) > 21 ==> Downgraded(total, aces) == aces
    decreases aces
  {
    if total > 21 && aces > 0 {
      if j > 0 {
        AdjustedIsBest(total - 10, aces - 1, j - 1);
      } else {
        AdjustedIsBest(total - 10, aces - 1, 0);
      }
    }
  }

  /** Every card counts at least 1, so a hand's value is at least its number of cards. */
  lemma {:induction false} ValueAtLeastCardCount(cards: seq<Card>)
    ensures HandValue(cards) >= |cards|
    ensures RawTotal(cards) - 10 * AceCount(cards) >= |cards|
    decreases |cards|
  {
    if cards != [] {
      ValueAtLeastCardCount(cards[..|cards| - 1]);
    }
    var k := Downgraded(RawTotal(cards), AceCount(cards));
    assert HandValue(cards) == RawTotal(cards) - 10 * k;
  }

  /** Two cards never bust (two aces make 12). */
  lemma TwoCardsNotBust(c: seq<Card>)
    requires |c| == 2
    ensures HandValue(c) <= 21
  {
    var a, b := c[0], c[1];
    var one := [a];
    assert c[..1] == one && one[..0] == [];
    assert RawTotal(one) == CardValue(a.rank);
    assert AceCount(one) == (if a.rank == Ace then 1 else 0);
    assert RawTotal(c) == CardValue(a.rank) + CardValue(b.rank);
    if RawTotal(c) > 21 {
      assert a.rank == Ace && b.rank == Ace;
      assert AceCount(c) == 2;
      assert Adjusted(22, 2) == Adjusted(12, 1) == 12;
    }
  }

  // ---------------------------------------------------------------------------
  // Outcome

  datatype GameState = WaitingForPlayer | DealerTurn | GameOver

  datatype GameResult = PlayerWin | DealerWin | Tie | PlayerBlackjack | DealerBlackjack | PlayerBust | DealerBust

  /** `_determine_winner`: blackjacks first (both is a tie), then busts (the player's first),
      then the higher value, else a tie. */
  function Winner(player: seq<Card>, dealer: seq<Card>): (r: GameResult)
    ensures r == PlayerWin ==> !IsBust(player) && !IsBust(dealer) && HandValue(player) > HandValue(dealer)
    ensures r == DealerWin ==> !IsBust(player) && !IsBust(dealer) && HandValue(dealer) > HandValue(player)
    ensures r == PlayerBust <==> !IsBlackjack(player) && !IsBlackjack(dealer) && IsBust(player)
  {
    if IsBlackjack(player) && IsBlackjack(dealer) then Tie
    else if IsBlackjack(player) then PlayerBlackjack
    else if IsBlackjack(dealer) then DealerBlackjack
    else if IsBust(player) then PlayerBust
    else if IsBust(dealer) then DealerBust
    else if HandValue(player) > HandValue(dealer) then PlayerWin
    else if HandValue(dealer) > HandValue(player) then DealerWin
    else Tie
  }

  /** The same outcome seen from the other side of the table. */
  function Mirror(r: GameResult): GameResult {
    match r
    case PlayerWin => DealerWin
    case DealerWin => PlayerWin
    case Tie => Tie
    case PlayerBlackjack => DealerBlackjack
    case DealerBlackjack => PlayerBlackjack
    case PlayerBust => DealerBust
    case DealerBust => PlayerBust
  }

  /** Swapping the hands mirrors the outcome, except when both hands are bust: the player's
      bust is checked first, so both busting is the player's loss whichever side is which. */
  lemma WinnerSymmetric(p: seq<Card>, d: seq<Card>)
    ensures !(IsBust(p) && IsBust(d)) ==> Winner(d, p) == Mirror(Winner(p, d))
    ensures IsBust(p) && IsBust(d) && !IsBlackjack(p) && !IsBlackjack(d) ==> Winner(p, d) == Winner(d, p) == PlayerBust
  {
  }

  // ---------------------------------------------------------------------------
  // Deck

  class Deck {
    const numDecks: nat
    var cards: seq<Card>

    /** A fresh deck, already shuffled into `order`. */
    constructor (numDecks: nat, order: seq<Card>)
      requires multiset(order) == multiset(FullDeck(numDecks))
      ensures this.numDecks == numDecks && cards == order
      ensures |cards| == 52 * numDecks
    {
      this.numDecks := numDecks;
      cards := order;
      new;
      assert |order| == |multiset(order)| == |FullDeck(numDecks)|;
    }

    /** `reset`: 52 cards per deck, shuffled into `order`. */
    method Reset(order: seq<Card>)
      requires multiset(order) == multiset(FullDeck(numDecks))
      modifies this
      ensures cards == order && |cards| == 52 * numDecks
    {
      cards := order;
      assert |order| == |multiset(order)| == |FullDeck(numDecks)|;
    }

    /** `deal_card`: the last card is removed and returned; an empty deck gives nothing. */
    method DealCard() returns (c: Option<Card>)
      modifies this
      ensures old(cards) == [] ==> c.None? && cards == old(cards)
      ensures old(cards) != [] ==>
        c == Some(old(cards)[|old(cards)| - 1]) && cards == old(cards)[..|old(cards)| - 1]
      ensures c.Some? ==> CardsRemaining() == old(CardsRemaining()) - 1
      ensures multiset(cards) + (if c.Some? then multiset{c.value} else multiset{}) == multiset(old(cards))
    {
      if cards == [] {
        return None;
      }
      c := Some(cards[|cards| - 1]);
      assert cards == cards[..|cards| - 1] + [cards[|cards| - 1]];
      cards := cards[..|cards| - 1];
    }

    function CardsRemaining(): nat
      reads this
    {
      |cards|
    }
  }

  // ---------------------------------------------------------------------------
  // Game

  /** Taking four cards off the end of `order` leaves its prefix, and the cards are conserved. */
  lemma DealtFour(order: seq<Card>)
    requires |order| >= 4
    ensures var n := |order|;
      && order[..n - 1][..n - 2] == order[..n - 2]
      && order[..n - 2][..n - 3] == order[..n - 3]
      && order[..n - 3][..n - 4] == order[..n - 4]
      && multiset(order[..n - 4]) + multiset([order[n - 1], order[n - 2]]) + multiset([order[n - 3], order[n - 4]])
         == multiset(order)
  {
    var n := |order|;
    assert order == order[..n - 4] + [order[n - 4], order[n - 3], order[n - 2], order[n - 1]];
  }

  /** The opening deal: player, player, dealer, dealer, each from the end of the deck. */
  method DealOpening(d: Deck) returns (player: seq<Card>, dealer: seq<Card>)
    requires |d.cards| >= 4
    modifies d
    ensures var c, n := old(d.cards), |old(d.cards)|;
      && player == [c[n - 1], c[n - 2]] && dealer == [c[n - 3], c[n - 4]]
      && d.cards == c[..n - 4]
  {
    ghost var c := d.cards;
    var p1 := d.DealCard();
    var p2 := d.DealCard();
    var d1 := d.DealCard();
    var d2 := d.DealCard();
    DealtFour(c);
    player := [p1.value, p2.value];
    dealer := [d1.value, d2.value];
  }

  /** After the opening deal the game is over at once exactly when either hand is a blackjack,
      and then decided; otherwise the player is to act. */
  method OpeningOutcome(player: seq<Card>, dealer: seq<Card>) returns (state: GameState, result: Option<GameResult>)
    requires |player| == 2
    ensures state != DealerTurn && HandValue(player) <= 21
    ensures state == GameOver <==> IsBlackjack(player) || IsBlackjack(dealer)
    ensures state == GameOver ==> result == Some(Winner(player, dealer))
    ensures state == WaitingForPlayer ==> result == None
  {
    TwoCardsNotBust(player);
    if IsBlackjack(player) || IsBlackjack(dealer) {
      state := GameOver;
      result := Some(Winner(player, dealer));
    } else {
      state := WaitingForPlayer;
      result := None;
    }
  }

  /** Cards are conserved between the deck and the two hands; the dealer's turn only exists
      inside `stand`; while the player may act, their hand is not bust, the dealer holds two
      cards and there is no result; a finished game has one. */
  ghost predicate Consistent(numDecks: nat, shoe: multiset<Card>, cards: seq<Card>, player: seq<Card>,
                             dealer: seq<Card>, state: GameState, result: Option<GameResult>)
  {
    && numDecks >= 1
    && |shoe| == 52 * numDecks
    && multiset(cards) + multiset(player) + multiset(dealer) == shoe
    && |player| >= 2 && |dealer| >= 2
    && state != DealerTurn
    && (state == WaitingForPlayer ==> result.None? && HandValue(player) <= 21 && |dealer| == 2)
    && (state == GameOver ==> result.Some?)
  }

  /** While the player may act the deck is not empty and the player holds at most 21 cards. */
  lemma PlayerCanDraw(numDecks: nat, shoe: multiset<Card>, cards: seq<Card>, player: seq<Card>,
                      dealer: seq<Card>, state: GameState, result: Option<GameResult>)
    requires Consistent(numDecks, shoe, cards, player, dealer, state, result) && state == WaitingForPlayer
    ensures |cards| + |player| + |dealer| == 52 * numDecks
    ensures |player| <= 21 && cards != []
  {
    assert |multiset(cards) + multiset(player) + multiset(dealer)| == |shoe|;
    ValueAtLeastCardCount(player);
  }

  class BlackjackGame {
    const playerId: int
    const deck: Deck
    /** The cards of the full shoe, wherever they now are. */
    ghost const shoe: multiset<Card>
    var playerHand: seq<Card>
    var dealerHand: seq<Card>
    var state: GameState
    var result: Option<GameResult>

    /** The game's fields are `Consistent`. */
    ghost predicate Valid()
      reads this, deck
    {
      Consistent(deck.numDecks, shoe, deck.cards, playerHand, dealerHand, state, result)
    }

    /** A new game over a deck shuffled into `order`: two cards each from the end of the deck,
        and the game is over at once exactly when either hand is a blackjack. */
    constructor (playerId: int, numDecks: nat, order: seq<Card>)
      requires numDecks >= 1 && multiset(order) == multiset(FullDeck(numDecks))
      ensures Valid() && fresh(deck) && this.playerId == playerId
      ensures shoe == multiset(order)
      ensures |order| == 52 * numDecks && |order| >= 52
      ensures playerHand == [order[|order| - 1], order[|order| - 2]]
      ensures dealerHand == [order[|order| - 3], order[|order| - 4]]
      ensures deck.cards == order[..|order| - 4]
      ensures state == GameOver <==> IsBlackjack(playerHand) || IsBlackjack(dealerHand)
      ensures state == GameOver ==> result == Some(Winner(playerHand, dealerHand))
    {
      this.playerId := playerId;
      var d := new Deck(numDecks, order);
      var n := |order|;
      assert n == 52 * numDecks;
      var player, dealer := DealOpening(d);
      assert player == [order[n - 1], order[n - 2]] && dealer == [order[n - 3], order[n - 4]];
      assert d.cards == order[..n - 4];
      DealtFour(order);
      var st, res := OpeningOutcome(player, dealer);
      assert Consistent(numDecks, multiset(order), d.cards, player, dealer, st, res);
      deck := d;
      shoe := multiset(order);
      playerHand, dealerHand := player, dealer;
      state, result := st, res;
    }

    /** `hit`: refused outside the player's turn. Otherwise the player takes the deck's last
        card (there always is one) and a bust ends the game as the player's bust. */
    method Hit() returns (ok: bool)
      requires Valid()
      modifies this, deck
      ensures Valid()
      ensures ok <==> old(state) == WaitingForPlayer
      ensures !ok ==> playerHand == old(playerHand) && deck.cards == old(deck.cards)
                      && state == old(state) && result == old(result) && dealerHand == old(dealerHand)
      ensures ok ==>
        && old(deck.cards) != []
        && playerHand == old(playerHand) + [old(deck.cards)[|old(deck.cards)| - 1]]
        && deck.cards == old(deck.cards)[..|old(deck.cards)| - 1]
        && dealerHand == old(dealerHand)
        && (IsBust(playerHand) ==> state == GameOver && result == Some(PlayerBust))
        && (!IsBust(playerHand) ==> state == WaitingForPlayer && result == None)
    {
      if state != WaitingForPlayer {
        return false;
      }
      PlayerCanDraw(deck.numDecks, shoe, deck.cards, playerHand, dealerHand, state, result);
      ghost var cards0, hand0 := deck.cards, playerHand;
      var c := deck.DealCard();
      assert c == Some(cards0[|cards0| - 1]) && deck.cards == cards0[..|cards0| - 1];
      playerHand := playerHand + [c.value];
      assert multiset(deck.cards) + multiset(playerHand) == multiset(cards0) + multiset(hand0);
      if IsBust(playerHand) {
        result := Some(PlayerBust);
        state := GameOver;
      }
      assert Consistent(deck.numDecks, shoe, deck.cards, playerHand, dealerHand, state, result);
      return true;
    }

    /** `stand`: refused outside the player's turn. Otherwise the dealer draws from the end of
        the deck while under 17 (the deck never runs out) and the winner is decided. */
    method Stand() returns (ok: bool)
      requires Valid()
      modifies this, deck
      ensures Valid()
      ensures ok <==> old(state) == WaitingForPlayer
      ensures !ok ==> playerHand == old(playerHand) && deck.cards == old(deck.cards)
                      && state == old(state) && result == old(result) && dealerHand == old(dealerHand)
      ensures ok ==>
        && playerHand == old(playerHand)
        && old(dealerHand) <= dealerHand
        && HandValue(dealerHand) >= 17
        && (forall k :: |old(dealerHand)| <= k < |dealerHand| ==> HandValue(dealerHand[..k]) < 17)
        && |deck.cards| <= |old(deck.cards)| && deck.cards == old(deck.cards)[..|deck.cards|]
        && state == GameOver && result == Some(Winner(playerHand, dealerHand))
    {
      if state != WaitingForPlayer {
        return false;
      }
      PlayerCanDraw(deck.numDecks, shoe, deck.cards, playerHand, dealerHand, state, result);
      state := DealerTurn;
      DealerPlay();
      state := GameOver;
      result := Some(Winner(playerHand, dealerHand));
      return true;
    }

    /** `_dealer_play`: the dealer draws from the end of the deck while under 17. With the
        player's hand within 21 cards the deck cannot run out first. */
    method DealerPlay()
      requires deck.numDecks >= 1 && |shoe| == 52 * deck.numDecks
      requires multiset(deck.cards) + multiset(playerHand) + multiset(dealerHand) == shoe
      requires |playerHand| <= 21 && |dealerHand| >= 2
      modifies deck, this`dealerHand
      ensures multiset(deck.cards) + multiset(playerHand) + multiset(dealerHand) == shoe
      ensures old(dealerHand) <= dealerHand && HandValue(dealerHand) >= 17
      ensures forall k :: |old(dealerHand)| <= k < |dealerHand| ==> HandValue(dealerHand[..k]) < 17
      ensures |deck.cards| <= |old(deck.cards)| && deck.cards == old(deck.cards)[..|deck.cards|]
    {
      assert |multiset(deck.cards) + multiset(playerHand) + multiset(dealerHand)| == |shoe|;
      ghost var deck0 := deck.cards;
      ghost var dealer0 := dealerHand;
      while HandValue(dealerHand) < 17
        invariant multiset(deck.cards) + multiset(playerHand) + multiset(dealerHand) == shoe
        invariant |deck.cards| + |playerHand| + |dealerHand| == 52 * deck.numDecks
        invariant dealer0 <= dealerHand && |dealerHand| >= 2
        invariant forall k :: |dealer0| <= k < |dealerHand| ==> HandValue(dealerHand[..k]) < 17
        invariant |deck.cards| <= |deck0| && deck.cards == deck0[..|deck.cards|]
        decreases |deck.cards|
      {
        ValueAtLeastCardCount(dealerHand);
        ghost var cards0 := deck.cards;
        var c := deck.DealCard();
        assert deck.cards == deck0[..|deck.cards|] by {
          assert deck0[..|cards0|][..|deck.cards|] == deck0[..|deck.cards|];
        }
        ghost var before := dealerHand;
        dealerHand := dealerHand + [c.value];
        forall k | |dealer0| <= k < |dealerHand|
          ensures HandValue(dealerHand[..k]) < 17
        {
          if k < |before| {
            assert dealerHand[..k] == before[..k];
          } else {
            assert dealerHand[..k] == before;
          }
        }
      }
    }

    predicate CanHit()
      reads this
    {
      state == WaitingForPlayer && !IsBust(playerHand)
    }

    predicate CanStand()
      reads this
    {
      state == WaitingForPlayer
    }

    /** In a valid game the bust check of `can_hit` never matters: hitting and standing are
        allowed in exactly the same states. */
    lemma CanHitIffCanStand()
      requires Valid()
      ensures CanHit() <==> CanStand()
    {
    }
  }
}
