/** The engine's objects as they are updated in place: Player and Lobby
    (simple_input_logic.py:80-552). Each Lobby operation that changes the
    game is proved to move the snapshot `State()` exactly as a function of
    module Game does (its `ensures` names the function), so everything proved
    there holds of the objects; the small helpers (the deck, draw and
    next-seat steps) are specified by their effect on the fields they change. */
module Engine {
  import opened Base
  import opened Cards
  import opened Seats
  import opened Tricks
  import opened Game

  /** A player: a fixed id and name, a life counter and a hand. */
  class Player {
    const name: string
    const playerId: int
    var numberOfLives: int
    var cards: seq<Card>

    constructor (playerId: int, name: string)
      ensures this.playerId == playerId && this.name == name
      ensures numberOfLives == StartingLives && cards == []
    {
      this.name := name;
      this.playerId := playerId;
      numberOfLives := StartingLives;
      cards := [];
    }

    /** The player as the game model sees it. */
    function AsSeat(): Seat
      reads this
    {
      Seat(numberOfLives, cards)
    }

    /** draw_card: the card now belongs to this player and ends the hand. */
    method DrawCard(card: Card)
      modifies this
      ensures cards == old(cards) + [Own(card, playerId)]
      ensures numberOfLives == old(numberOfLives)
    {
      cards := cards + [card.(ownerId := Some(playerId))];
    }

    /** play_card: `cards.pop(cardIndex)`; None where Python raises IndexError. */
    method PlayCard(cardIndex: int) returns (played: Option<Card>)
      modifies this
      ensures numberOfLives == old(numberOfLives)
      ensures PyIndex(cardIndex, |old(cards)|).None? ==> played == None && cards == old(cards)
      ensures PyIndex(cardIndex, |old(cards)|).Some? ==>
        var i := PyIndex(cardIndex, |old(cards)|).value;
        played == Some(old(cards)[i]) && cards == RemoveAt(old(cards), i)
    {
      var i := PyIndex(cardIndex, |cards|);
      if i.None? {
        played := None;
      } else {
        played := Some(cards[i.value]);
        cards := cards[..i.value] + cards[i.value + 1..];
      }
    }

    predicate IsAlive()
      reads this
      ensures numberOfLives >= 0 ==> (IsAlive() <==> numberOfLives != 0)
    {
      numberOfLives > 0
    }

    predicate IsDead()
      reads this
      ensures numberOfLives >= 0 ==> (IsDead() <==> !IsAlive())
    {
      numberOfLives == 0
    }

    predicate HasCards()
      reads this
      ensures HasCards() <==> cards != []
    {
      |cards| > 0
    }

    /** lose_life: the counter drops by `lifeLoss` and is floored at 0. */
    method LoseLife(lifeLoss: int)
      modifies this
      ensures AsSeat() == Game.LoseLife(old(AsSeat()), lifeLoss)
    {
      numberOfLives := numberOfLives - lifeLoss;
      if numberOfLives < 0 {
        numberOfLives := 0;
      }
    }

    method ThrowRemainingCards()
      modifies this
      ensures cards == [] && numberOfLives == old(numberOfLives)
    {
      cards := [];
    }
  }


  /** Player i sits at position i (so the players are distinct objects). */
  ghost predicate Wired(ps: seq<Player>)
  {
    forall i :: 0 <= i < |ps| ==> ps[i].playerId == i
  }

  /** The players sit as `seats` says: player j's lives and hand are seats[j]. */
  ghost predicate Seated(ps: seq<Player>, seats: seq<Seat>)
    reads ps
  {
    |ps| == |seats| && forall j {:trigger ps[j]} :: 0 <= j < |ps| ==> ps[j].AsSeat() == seats[j]
  }

  /** A table and its running game. `currentPlayerId` is -1 where the source
      has None (before the first gameturn); `currentNumberOfTurns` and
      `currentTurnNumber` are 0 where it has None. The ghost field `seats`
      holds the players' lives and hands as values. */
  class Lobby {
    var players: seq<Player>
    const numberOfPlayers: int
    const lobbyId: int
    var currentDealerId: int
    var currentPlayerId: int
    var gameturnNumber: int
    var currentBeforemanilla: Option<Card>
    var currentNumberOfTurns: int
    var currentTurnNumber: int
    var currentTurnType: Option<TurnType>
    var currentWinValue: int
    var currentGuesses: seq<int>
    var currentWins: seq<int>
    var currentPlayedCards: seq<Card>
    var deck: seq<Card>
    ghost var seats: seq<Seat>

    /** The lobby as a value of the game model. */
    ghost function State(): GameState
      reads this
    {
      GameState(numberOfPlayers, seats, currentDealerId, currentPlayerId, gameturnNumber,
                currentBeforemanilla, currentNumberOfTurns, currentTurnNumber, currentTurnType,
                currentWinValue, currentGuesses, currentWins, currentPlayedCards, deck)
    }


    ghost predicate Valid()
      reads this, players
    {
      Wired(players) && Seated(players, seats) && Inv(State())
    }

    constructor (lobbyId: int, numberOfPlayers: int)
      requires 2 <= numberOfPlayers <= 10
      ensures Valid() && State() == Initial(numberOfPlayers) && this.lobbyId == lobbyId
    {
      players := [];
      seats := [];
      this.numberOfPlayers := numberOfPlayers;
      this.lobbyId := lobbyId;
      currentDealerId := -1;
      currentPlayerId := -1;
      gameturnNumber := 0;
      currentBeforemanilla := None;
      currentNumberOfTurns := 0;
      currentTurnNumber := 0;
      currentTurnType := None;
      currentWinValue := 1;
      currentGuesses := [];
      currentWins := [];
      currentPlayedCards := [];
      deck := [];
    }

    /** generate_new_deck: for each value 1..13, one card of each color. */
    method GenerateNewDeck() returns (newDeck: seq<Card>)
      ensures newDeck == FullDeck()
    {
      newDeck := [];
      var value := 1;
      while value < 14
        invariant 1 <= value <= 14 && newDeck == DeckUpTo(value - 1)
      {
        newDeck := newDeck + [Card(value, Hearts, None)];
        newDeck := newDeck + [Card(value, Spades, None)];
        newDeck := newDeck + [Card(value, Diamonds, None)];
        newDeck := newDeck + [Card(value, Clubs, None)];
        assert newDeck == DeckUpTo(value - 1) + Quad(value);
        value := value + 1;
      }
      DeckUpToFull();
    }

    /** count_alive_players */
    method CountAlivePlayers() returns (result: int)
      requires Seated(players, seats)
      ensures result == CountTrue(AliveFlags(seats))
    {
      ghost var flags := AliveFlags(seats);
      result := 0;
      for i := 0 to |players|
        invariant result == CountTrue(flags[..i])
      {
        assert flags[..i + 1] == flags[..i] + [flags[i]];
        CountTrueSnoc(flags[..i], flags[i]);
        if players[i].IsAlive() {
          result := result + 1;
        }
      }
      assert flags[..|players|] == flags;
    }

    /** count_having_cards_players */
    method CountHavingCardsPlayers() returns (result: int)
      requires Seated(players, seats)
      ensures result == CountTrue(HolderFlags(seats))
    {
      ghost var flags := HolderFlags(seats);
      result := 0;
      for i := 0 to |players|
        invariant result == CountTrue(flags[..i])
      {
        assert flags[..i + 1] == flags[..i] + [flags[i]];
        CountTrueSnoc(flags[..i], flags[i]);
        if players[i].HasCards() {
          result := result + 1;
        }
      }
      assert flags[..|players|] == flags;
    }

    /** register_player */
    method RegisterPlayer(name: string) returns (status: Status)
      requires Valid()
      modifies this
      ensures Valid() && Step(State(), status) == Register(old(State()))
    {
      var currentId := |players|;
      if currentId == numberOfPlayers {
        return Fail(LobbyFull);
      }
      var player := new Player(currentId, name);
      players := players + [player];
      seats := seats + [Seat(StartingLives, [])];
      status := Ok;
    }

    /** set_next_dealer_id: the Python recursion is a scan of at most one turn;
        the current player becomes the new dealer. */
    method SetNextDealerId()
      requires Seated(players, seats) && |seats| == numberOfPlayers > 0
      requires -1 <= currentDealerId < numberOfPlayers
      requires forall j :: 0 <= j < |seats| ==> seats[j].lives >= 0
      requires true in AliveFlags(seats)
      modifies this`currentDealerId, this`currentPlayerId
      ensures currentDealerId == NextSeat(AliveFlags(seats), old(currentDealerId))
      ensures currentPlayerId == currentDealerId
    {
      var n := numberOfPlayers;
      ghost var flags := AliveFlags(seats);
      ghost var d0 := currentDealerId;
      NextOffsetFinds(flags, d0);
      ghost var off := NextOffset(flags, d0, 1);
      ghost var k := 1;
      var nextDealerId := (currentDealerId + 1) % n;
      currentDealerId := nextDealerId;
      while players[nextDealerId].IsDead()
        invariant 1 <= k <= off && nextDealerId == Cyc(n, d0, k) && currentDealerId == nextDealerId
        invariant forall j :: 1 <= j < k ==> !flags[Cyc(n, d0, j)]
        decreases off - k
      {
        CycStep(n, d0, k);
        nextDealerId := (nextDealerId + 1) % n;
        currentDealerId := nextDealerId;
        k := k + 1;
      }
      NextSeatAt(flags, d0, k);
      currentPlayerId := currentDealerId;
    }

    /** set_next_player_id: the next seat after the current player that holds cards. */
    method SetNextPlayerId()
      requires Seated(players, seats) && |seats| == numberOfPlayers > 0
      requires -1 <= currentPlayerId < numberOfPlayers
      requires true in HolderFlags(seats)
      modifies this`currentPlayerId
      ensures currentPlayerId == NextSeat(HolderFlags(seats), old(currentPlayerId))
    {
      var n := numberOfPlayers;
      ghost var flags := HolderFlags(seats);
      ghost var p0 := currentPlayerId;
      NextOffsetFinds(flags, p0);
      ghost var off := NextOffset(flags, p0, 1);
      ghost var k := 1;
      var nextPlayerId := (currentPlayerId + 1) % n;
      currentPlayerId := nextPlayerId;
      while !players[nextPlayerId].HasCards()
        invariant 1 <= k <= off && nextPlayerId == Cyc(n, p0, k) && currentPlayerId == nextPlayerId
        invariant forall j :: 1 <= j < k ==> !flags[Cyc(n, p0, j)]
        decreases off - k
      {
        CycStep(n, p0, k);
        nextPlayerId := (nextPlayerId + 1) % n;
        currentPlayerId := nextPlayerId;
        k := k + 1;
      }
      NextSeatAt(flags, p0, k);
    }

    /** next_player_is_dealer: the seat right after the current player is the dealer's. */
    predicate NextPlayerIsDealer()
      reads this
      requires numberOfPlayers > 0
      ensures 0 <= currentPlayerId < numberOfPlayers && 0 <= currentDealerId < numberOfPlayers ==>
        (NextPlayerIsDealer() <==> Offset(numberOfPlayers, currentPlayerId, currentDealerId) == 1)
    {
      (currentPlayerId + 1) % numberOfPlayers == currentDealerId
    }

    /** rewind_player_id: the dealer leads the next trick if they still hold
        cards, otherwise the first seat after the dealer that does. */
    method RewindPlayerId() returns (status: Status)
      requires Valid() && Started(State())
      modifies this`currentPlayerId
      ensures Step(State(), status) == Rewind(old(State()))
    {
      ghost var s0 := State();
      var n := numberOfPlayers;
      ghost var flags := HolderFlags(seats);
      ghost var d := currentDealerId;
      currentPlayerId := currentDealerId;
      if players[currentPlayerId].HasCards() {
        assert flags[d];
        return Ok;
      }
      var i := 0;
      var nextPlayerId := currentPlayerId;
      while i < n
        invariant 0 <= i <= n && nextPlayerId == Cyc(n, d, i) && currentPlayerId == d
        invariant forall j :: 1 <= j <= i ==> !flags[Cyc(n, d, j)]
      {
        CycStep(n, d, i);
        nextPlayerId := (nextPlayerId + 1) % n;
        if players[nextPlayerId].HasCards() {
          NextSeatAt(flags, d, i + 1);
          currentPlayerId := nextPlayerId;
          return Ok;
        }
        i := i + 1;
      }
      assert !(true in flags) by {
        forall t | 0 <= t < n
          ensures !flags[t]
        {
          assert Cyc(n, d, Offset(n, d, t)) == t;
        }
      }
      status := Fail(NoPlayerWithCards);
    }

    /** shuffle_deck: a new full deck, in the order `perm` that random.shuffle chose. */
    method ShuffleDeck(perm: seq<int>)
      requires IsPermutation(perm, 52)
      modifies this`deck
      ensures deck == ShuffledDeck(perm)
    {
      var newDeck := GenerateNewDeck();
      FullDeckOnePerCard();
      deck := Shuffled(newDeck, perm);
    }

    /** draw_beforemanilla: the top card of the deck is turned up. */
    method DrawBeforemanilla()
      requires |deck| > 0
      modifies this`deck, this`currentBeforemanilla
      ensures deck == old(deck)[..|old(deck)| - 1]
      ensures currentBeforemanilla == Some(old(deck)[|old(deck)| - 1])
    {
      currentBeforemanilla := Some(deck[|deck| - 1]);
      deck := deck[..|deck| - 1];
    }

    /** set_current_number_of_turns: the second-largest life count; the trick
        counter and the wins start again from zero. */
    method SetCurrentNumberOfTurns()
      requires Seated(players, seats) && |seats| == numberOfPlayers >= 2
      modifies this`currentTurnNumber, this`currentNumberOfTurns, this`currentWins
      ensures currentTurnNumber == 0 && currentWins == Zeros(numberOfPlayers)
      ensures currentNumberOfTurns == TurnCount(Lives(seats))
    {
      ghost var lives := Lives(seats);
      var numberOfCardsPerPlayer := [];
      for i := 0 to |players|
        invariant numberOfCardsPerPlayer == lives[..i]
      {
        numberOfCardsPerPlayer := numberOfCardsPerPlayer + [players[i].numberOfLives];
      }
      assert numberOfCardsPerPlayer == lives;
      currentTurnNumber := 0;
      var maxLives := Max(numberOfCardsPerPlayer);
      if Count(numberOfCardsPerPlayer, maxLives) > 1 {
        currentNumberOfTurns := maxLives;
      } else {
        numberOfCardsPerPlayer := RemoveFirst(numberOfCardsPerPlayer, maxLives);
        currentNumberOfTurns := Max(numberOfCardsPerPlayer);
      }
      currentWins := Zeros(numberOfPlayers);
    }

    /** draw: the top card of the deck goes to `player`. */
    method Draw(player: Player)
      requires |deck| > 0
      modifies this`deck, player
      ensures player.numberOfLives == old(player.numberOfLives)
      ensures player.cards == old(player.cards) + [Own(old(deck)[|old(deck)| - 1], player.playerId)]
      ensures deck == old(deck)[..|old(deck)| - 1]
    {
      var drawnCard := deck[|deck| - 1];
      deck := deck[..|deck| - 1];
      player.DrawCard(drawnCard);
    }

    /** prepare_gameturn */
    method PrepareGameturn(perm: seq<int>)
      requires Valid() && |seats| == numberOfPlayers
      requires true in AliveFlags(seats)
      requires IsPermutation(perm, 52)
      modifies this`deck, this`seats, this`currentBeforemanilla, this`gameturnNumber,
        this`currentTurnNumber, this`currentNumberOfTurns, this`currentWins, this`currentDealerId,
        this`currentPlayerId, this`currentGuesses, this`currentTurnType, players
      ensures State() == Prepare(old(State()), perm)
      ensures Valid()
    {
      ghost var s0 := State();
      PrepareTable(perm);
      DealHands();
      SetFirstTurnType();
    }

    /** The last step of prepare_gameturn: final bidding when two players are left. */
    method SetFirstTurnType()
      requires Seated(players, seats)
      modifies this`currentTurnType
      ensures Seated(players, seats)
      ensures State() == old(State()).(phase := Some(if CountTrue(AliveFlags(seats)) == 2 then FinalGuess else TurnType.Guess))
    {
      var alive := CountAlivePlayers();
      if alive == 2 {
        currentTurnType := Some(FinalGuess);
      } else {
        currentTurnType := Some(TurnType.Guess);
      }
    }

    /** The steps of prepare_gameturn before the hands are dealt. */
    method PrepareTable(perm: seq<int>)
      requires Seated(players, seats) && 2 <= |seats| == numberOfPlayers
      requires -1 <= currentDealerId < numberOfPlayers
      requires forall j :: 0 <= j < |seats| ==> seats[j].lives >= 0
      requires true in AliveFlags(seats)
      requires IsPermutation(perm, 52)
      modifies this`deck, this`currentBeforemanilla, this`gameturnNumber, this`currentTurnNumber,
        this`currentNumberOfTurns, this`currentWins, this`currentDealerId, this`currentPlayerId,
        this`currentGuesses
      ensures State() == NewTable(old(State()), perm)
    {
      ghost var s0 := State();
      ghost var order := ShuffledDeck(perm);
      ShuffleDeck(perm);
      DrawBeforemanilla();
      gameturnNumber := gameturnNumber + 1;
      assert State() == s0.(deck := order[..51], beforemanilla := Some(order[51]), gameturn := s0.gameturn + 1);
      SetCurrentNumberOfTurns();
      assert State() == s0.(deck := order[..51], beforemanilla := Some(order[51]), gameturn := s0.gameturn + 1,
        turnNumber := 0, turns := TurnCount(Lives(seats)), wins := Zeros(numberOfPlayers));
      SetNextDealerId();
      currentGuesses := [];
    }

    /** The dealing loop of prepare_gameturn: every player throws their hand
        away and draws as many cards as they have lives. */
    method DealHands()
      requires Wired(players) && Seated(players, seats)
      requires forall j :: 0 <= j < |seats| ==> 0 <= seats[j].lives <= StartingLives
      requires StartingLives * |players| <= |deck|
      modifies this`deck, this`seats, players
      ensures Seated(players, seats)
      ensures State() == DealStep(old(State()))
    {
      ghost var rest := deck;
      ghost var seats0 := seats;
      LivesSumBounds(seats0);
      for i := 0 to |players|
        invariant Seated(players, seats)
        invariant seats == DealtUpTo(seats0, rest, i)
        invariant deck == rest[..|rest| - LivesSum(seats0, i)]
      {
        DealtUpToNext(seats0, rest, i);
        DealSeat(seats0, rest, i);
      }
      DealtUpToAll(seats0, rest);
    }

    /** Player i is dealt their hand, and the seats follow. */
    method DealSeat(ghost seats0: seq<Seat>, ghost rest: seq<Card>, i: nat)
      requires Wired(players) && Seated(players, seats) && i < |seats| == |seats0|
      requires seats[i] == seats0[i] && seats0[i].lives >= 0
      requires 0 <= LivesSum(seats0, i) && LivesSum(seats0, i + 1) <= |rest|
      requires deck == rest[..|rest| - LivesSum(seats0, i)]
      modifies this`deck, this`seats, players[i]
      ensures Seated(players, seats)
      ensures seats == old(seats)[i := DealtHand(seats0, rest, i)]
      ensures deck == rest[..|rest| - LivesSum(seats0, i + 1)]
    {
      DealHand(players[i], seats0, rest, i);
      seats := seats[i := players[i].AsSeat()];
    }

    /** One pass of that loop: player i throws their hand away and draws one
        card per life off the deck the players before them left. */
    method DealHand(player: Player, ghost seats0: seq<Seat>, ghost rest: seq<Card>, ghost i: nat)
      requires i < |seats0| && player.playerId == i && player.numberOfLives == seats0[i].lives >= 0
      requires 0 <= LivesSum(seats0, i) && LivesSum(seats0, i + 1) <= |rest|
      requires deck == rest[..|rest| - LivesSum(seats0, i)]
      modifies this`deck, player
      ensures player.AsSeat() == DealtHand(seats0, rest, i)
      ensures deck == rest[..|rest| - LivesSum(seats0, i + 1)]
    {
      ghost var d := deck;
      player.ThrowRemainingCards();
      var lives := player.numberOfLives;
      for k := 0 to lives
        invariant player.cards == Drawn(d, i, k) && player.numberOfLives == lives
        invariant deck == d[..|d| - k]
      {
        DrawnSnoc(d, i, k);
        Draw(player);
        assert deck == d[..|d| - (k + 1)];
      }
      assert deck == rest[..|rest| - LivesSum(seats0, i + 1)];
    }
  
    /** The scan of update_current_wins for the card that takes the trick,
        with the manilla scan keeping the position of the best manilla so far
        (see Tricks.AsWrittenManillaScan for the scan as written). */
    static method TrickWinner(pile: seq<Card>, beforeValue: int) returns (result: TrickResult)
      ensures result == Resolve(pile, beforeValue)
    {
      var manillaValue := if beforeValue == 13 then 1 else beforeValue + 1;
      var values := Strengths(pile);
      if Count(values, manillaValue) > 1 {
        var best := ManillaScan(pile, manillaValue);
        return Winner(best.value);
      } else if Count(values, manillaValue) == 1 {
        var manillaIndex := IndexOf(values, manillaValue);
        return Winner(manillaIndex);
      }
      var winning := HighestUnique(values, |values|);
      if winning.None? {
        return Cancelled;
      }
      var cardIndex := IndexOf(values, values[winning.value]);
      result := Winner(cardIndex);
    }

    /** The loop of update_current_wins over several manillas, keeping the
        position of the one of highest color seen so far. */
    static method ManillaScan(pile: seq<Card>, manillaValue: int) returns (best: Option<nat>)
      ensures best == BestManilla(pile, manillaValue, |pile|)
    {
      best := None;
      for i := 0 to |pile|
        invariant best == BestManilla(pile, manillaValue, i)
      {
        var c := pile[i];
        if RealValue(c) == manillaValue && (best.None? || ColorValue(c.color) > ColorValue(pile[best.value].color)) {
          best := Some(i);
        }
      }
    }

    /** update_current_wins: the owner of the winning card gains the win value,
        which returns to 1; a cancelled pile raises it by 1. */
    method UpdateCurrentWins()
      requires Valid() && Started(State())
      modifies this`currentWins, this`currentWinValue
      ensures State() == UpdateWins(old(State()))
    {
      ghost var t := Award(currentPlayedCards, RealValue(currentBeforemanilla.value), Tally(currentWins, currentWinValue), numberOfPlayers);
      var result := TrickWinner(currentPlayedCards, RealValue(currentBeforemanilla.value));
      if result.Cancelled? {
        currentWinValue := currentWinValue + 1;
        assert Tally(currentWins, currentWinValue) == t;
        return;
      }
      var winnerOwner := currentPlayedCards[result.card].ownerId.value;
      currentWins := currentWins[winnerOwner := currentWins[winnerOwner] + currentWinValue];
      if currentWinValue != 1 {
        currentWinValue := 1;
      }
      assert Tally(currentWins, currentWinValue) == t;
    }

    /** close_turn */
    method CloseTurn(perm: seq<int>) returns (status: Status)
      requires Valid() && Started(State()) && InPlayTurn(State())
      requires IsPermutation(perm, 52)
      modifies this`deck, this`seats, this`currentBeforemanilla, this`gameturnNumber,
        this`currentTurnNumber, this`currentNumberOfTurns, this`currentWins, this`currentDealerId,
        this`currentPlayerId, this`currentGuesses, this`currentTurnType, this`currentWinValue,
        this`currentPlayedCards, players
      ensures Step(State(), status) == Game.CloseTurn(old(State()), perm)
      ensures Valid()
    {
      CountTrick();
      if currentTurnNumber == currentNumberOfTurns {
        CloseGameturn(perm);
        return Ok;
      }
      status := RewindPlayerId();
    }

    /** The first steps of close_turn: one more trick is counted and
        awarded, and the pile is cleared. */
    method CountTrick()
      requires Valid() && Started(State()) && InPlayTurn(State())
      modifies this`currentTurnNumber, this`currentWins, this`currentWinValue, this`currentPlayedCards
      ensures State() == Game.CountTrick(old(State()))
      ensures Valid()
    {
      currentTurnNumber := currentTurnNumber + 1;
      UpdateCurrentWins();
      currentPlayedCards := [];
    }

    /** The loop of close_gameturn that lists the living players from the
        dealer round the table. */
    method AlivePlayerIds() returns (ids: seq<int>)
      requires Seated(players, seats) && |seats| == numberOfPlayers > 0
      requires 0 <= currentDealerId < numberOfPlayers
      ensures ids == AliveOrder(AliveFlags(seats), currentDealerId, numberOfPlayers)
    {
      var n := numberOfPlayers;
      ghost var flags := AliveFlags(seats);
      ghost var d := currentDealerId;
      ids := [];
      var currentId := currentDealerId;
      for k := 0 to n
        invariant ids == AliveOrder(flags, d, k) && currentId == Cyc(n, d, k)
      {
        if players[currentId].IsAlive() {
          ids := ids + [currentId];
        }
        CycStep(n, d, k);
        currentId := (currentId + 1) % n;
      }
    }

    /** Player i loses `lifeLoss` lives. */
    method LoseLives(i: int, lifeLoss: int)
      requires Wired(players) && Seated(players, seats) && 0 <= i < |seats|
      modifies this`seats, players[i]
      ensures Seated(players, seats)
      ensures seats == old(seats)[i := Game.LoseLife(old(seats)[i], lifeLoss)]
    {
      players[i].LoseLife(lifeLoss);
      seats := seats[i := players[i].AsSeat()];
    }

    /** The zip loop of close_gameturn: player ids[t] loses as many lives as
        their bid guesses[t] missed their wins by. */
    method ApplyLifeLosses(ids: seq<int>)
      requires Wired(players) && Seated(players, seats) && |currentWins| == |seats|
      requires forall t :: 0 <= t < |ids| ==> 0 <= ids[t] < |seats|
      modifies this`seats, players
      ensures Seated(players, seats)
      ensures seats == ApplyLosses(old(seats), ids, currentGuesses, currentWins,
        if |ids| < |currentGuesses| then |ids| else |currentGuesses|)
    {
      ghost var seats0 := seats;
      var k := 0;
      while k < |ids| && k < |currentGuesses|
        invariant 0 <= k <= |ids| && k <= |currentGuesses|
        invariant Seated(players, seats)
        invariant seats == ApplyLosses(seats0, ids, currentGuesses, currentWins, k)
      {
        var i := ids[k];
        var lifeLoss := Abs(currentGuesses[k] - currentWins[i]);
        if lifeLoss != 0 {
          LoseLives(i, lifeLoss);
        }
        k := k + 1;
      }
    }

    /** The life losses of close_gameturn. */
    method SettleLosses()
      requires Valid() && Started(State()) && InPlayTurn(State())
      modifies this`seats, players
      ensures State() == AfterLosses(old(State()))
      ensures Valid()
    {
      var ids := AlivePlayerIds();
      ApplyLifeLosses(ids);
    }

    /** close_gameturn */
    method CloseGameturn(perm: seq<int>)
      requires Valid() && Started(State()) && InPlayTurn(State())
      requires IsPermutation(perm, 52)
      modifies this`deck, this`seats, this`currentBeforemanilla, this`gameturnNumber,
        this`currentTurnNumber, this`currentNumberOfTurns, this`currentWins, this`currentDealerId,
        this`currentPlayerId, this`currentGuesses, this`currentTurnType, players
      ensures State() == Settle(old(State()), perm)
      ensures Valid()
    {
      SettleLosses();
      var alive := CountAlivePlayers();
      if alive <= 1 || currentTurnType == Some(FinalPlay) {
        currentTurnType := Some(GameOver);
      } else {
        PrepareGameturn(perm);
      }
    }

    /** guess */
    method Guess(playerId: int, givenGuess: int) returns (status: Status)
      requires Valid()
      modifies this`currentTurnType, this`currentGuesses, this`currentPlayerId
      ensures Step(State(), status) == GuessStep(old(State()), playerId, givenGuess)
      ensures Valid()
    {
      if currentTurnType != Some(TurnType.Guess) && currentTurnType != Some(FinalGuess) {
        return Fail(WrongPhase);
      } else if playerId != currentPlayerId {
        return Fail(NotYourTurn);
      } else if players[playerId].IsDead() {
        return Fail(PlayerDead);
      }
      status := RecordBid(givenGuess);
    }

    /** The part of guess after the checks on who bids. */
    method RecordBid(givenGuess: int) returns (status: Status)
      requires Valid() && InGuessTurn(State())
      requires 0 <= currentPlayerId < |seats| && seats[currentPlayerId].lives > 0
      modifies this`currentTurnType, this`currentGuesses, this`currentPlayerId
      ensures Step(State(), status) == Bid(old(State()), givenGuess)
      ensures Valid()
    {
      var alive := CountAlivePlayers();
      if |currentGuesses| == alive - 1 {
        var guessedTotal := Sum(currentGuesses) + givenGuess;
        if guessedTotal == currentNumberOfTurns {
          return Fail(ForbiddenGuess);
        } else if currentTurnType == Some(TurnType.Guess) {
          currentTurnType := Some(TurnType.Play);
        } else {
          currentTurnType := Some(FinalPlay);
        }
      }
      assert HolderFlags(seats)[currentPlayerId];
      AppendBid(givenGuess);
      status := Ok;
    }

    /** The bid joins the list and the turn passes to the next card holder. */
    method AppendBid(givenGuess: int)
      requires Seated(players, seats) && |seats| == numberOfPlayers > 0
      requires 0 <= currentPlayerId < numberOfPlayers && true in HolderFlags(seats)
      modifies this`currentGuesses, this`currentPlayerId
      ensures Seated(players, seats)
      ensures State() == old(State()).(guesses := old(currentGuesses) + [givenGuess],
        current := NextSeat(HolderFlags(seats), old(currentPlayerId)))
    {
      currentGuesses := currentGuesses + [givenGuess];
      SetNextPlayerId();
    }

    /** play */
    method Play(playerId: int, playedCardIndex: int, perm: seq<int>) returns (status: Status)
      requires Valid()
      requires IsPermutation(perm, 52)
      modifies this`deck, this`seats, this`currentBeforemanilla, this`gameturnNumber,
        this`currentTurnNumber, this`currentNumberOfTurns, this`currentWins, this`currentDealerId,
        this`currentPlayerId, this`currentGuesses, this`currentTurnType, this`currentWinValue,
        this`currentPlayedCards, players
      ensures Step(State(), status) == PlayStep(old(State()), playerId, playedCardIndex, perm)
      ensures Valid()
    {
      if currentTurnType != Some(TurnType.Play) && currentTurnType != Some(FinalPlay) {
        return Fail(WrongPhase);
      } else if playerId != currentPlayerId {
        return Fail(NotYourTurn);
      } else if players[playerId].IsDead() {
        return Fail(PlayerDead);
      } else if !players[playerId].HasCards() {
        return Fail(NoCards);
      }
      var played := PlayFromHand(playerId, playedCardIndex);
      if !played {
        return Fail(BadCardIndex);
      }
      status := EndPlay(perm);
    }

    /** Player `playerId` plays the card at `playedCardIndex` onto the pile,
        unless `list.pop` refuses the index. */
    method PlayFromHand(playerId: int, playedCardIndex: int) returns (played: bool)
      requires Valid() && Started(State()) && InPlayTurn(State()) && 0 <= playerId < numberOfPlayers
      modifies this`seats, players[playerId], this`currentPlayedCards
      ensures played <==> PyIndex(playedCardIndex, |old(seats)[playerId].cards|).Some?
      ensures !played ==> State() == old(State())
      ensures played ==> State() == PlayCard(old(State()), playerId, PyIndex(playedCardIndex, |old(seats)[playerId].cards|).value)
      ensures Valid()
    {
      var playedCard := players[playerId].PlayCard(playedCardIndex);
      if playedCard.None? {
        return false;
      }
      seats := seats[playerId := players[playerId].AsSeat()];
      currentPlayedCards := currentPlayedCards + [playedCard.value];
      played := true;
    }

    /** The end of play: the trick closes when nobody holds cards, when the
        current player is the only one who does, or when the next seat is
        the dealer's; otherwise the next card holder plays. */
    method EndPlay(perm: seq<int>) returns (status: Status)
      requires Valid() && Started(State()) && InPlayTurn(State())
      requires IsPermutation(perm, 52)
      modifies this`deck, this`seats, this`currentBeforemanilla, this`gameturnNumber,
        this`currentTurnNumber, this`currentNumberOfTurns, this`currentWins, this`currentDealerId,
        this`currentPlayerId, this`currentGuesses, this`currentTurnType, this`currentWinValue,
        this`currentPlayedCards, players
      ensures Step(State(), status) == Advance(old(State()), perm)
      ensures Valid()
    {
      ghost var s0 := State();
      var holders := CountHavingCardsPlayers();
      if holders == 0 {
        assert TrickCloses(s0);
        status := CloseTurn(perm);
      } else if holders == 1 && players[currentPlayerId].HasCards() {
        assert TrickCloses(s0);
        status := CloseTurn(perm);
      } else if NextPlayerIsDealer() {
        assert TrickCloses(s0);
        status := CloseTurn(perm);
      } else {
        assert !TrickCloses(s0);
        SetNextPlayerId();
        status := Ok;
      }
    }

    /** start_game; where every player is dead the source recurses without
        end in set_next_dealer_id, and the model reports NoLivingDealer. */
    method StartGame(perm: seq<int>) returns (status: Status)
      requires Valid()
      requires IsPermutation(perm, 52)
      modifies this`deck, this`seats, this`currentBeforemanilla, this`gameturnNumber,
        this`currentTurnNumber, this`currentNumberOfTurns, this`currentWins, this`currentDealerId,
        this`currentPlayerId, this`currentGuesses, this`currentTurnType, players
      ensures Step(State(), status) == Start(old(State()), perm)
      ensures Valid()
    {
      if numberOfPlayers != |players| {
        return Fail(NotAllJoined);
      }
      var alive := CountAlivePlayers();
      if alive == 0 {
        return Fail(NoLivingDealer);
      }
      PrepareGameturn(perm);
      status := Ok;
    }
  }
}
