/** The Lobby's state machine as functions on a snapshot of its attributes
    (simple_input_logic.py, class Lobby). The operations of the Lobby class in
    lobby.dfy that change the game are proved to move its snapshot exactly as
    a function here does (Guess as GuessStep, Play as PlayStep, StartGame as
    Start, CloseGameturn as Settle, ...); the properties of the game are
    proved about these functions. */
module Game {
  import opened Base
  import opened Cards
  import opened Seats
  import opened Tricks

  /** Every player starts with 5 lives (Player.__init__). */
  const StartingLives := 5

  /** TurnType; a lobby whose game has not started has no turn type (None). */
  datatype TurnType = Guess | Play | FinalGuess | FinalPlay | GameOver

  /** The exceptions the Lobby raises, one per distinct cause. */
  datatype Error =
    | LobbyFull          // register_player on a full lobby
    | NotAllJoined       // start_game before every seat is taken
    | NoLivingDealer     // set_next_dealer_id with every player dead
    | WrongPhase         // guess outside a guess turn, play outside a play turn
    | NotYourTurn        // the player is not the current player
    | PlayerDead         // the player has no lives left
    | NoCards            // play with an empty hand
    | BadCardIndex       // play with an index `list.pop` refuses
    | ForbiddenGuess     // the 'pé' rule
    | NoPlayerWithCards  // rewind_player_id finds nobody holding cards

  datatype Status = Ok | Fail(error: Error)

  /** The part of a Player that changes during a game. */
  datatype Seat = Seat(lives: int, cards: seq<Card>)

  /** The Lobby's attributes (simple_input_logic.py:141-164), players as seats. */
  datatype GameState = GameState(
    n: int,                        // number_of_players
    seats: seq<Seat>,              // players
    dealer: int,                   // current_dealer_id
    current: int,                  // current_player_id
    gameturn: int,                 // gameturn_number
    beforemanilla: Option<Card>,   // current_beforemanilla
    turns: int,                    // current_number_of_turns
    turnNumber: int,               // current_turn_number
    phase: Option<TurnType>,       // current_turn_type
    winValue: int,                 // current_win_value
    guesses: seq<int>,             // current_guesses
    wins: seq<int>,                // current_wins
    played: seq<Card>,             // current_played_cards
    deck: seq<Card>)               // deck

  /** The state an operation leaves and what it reports. */
  datatype Step = Step(state: GameState, status: Status)

  function Lives(seats: seq<Seat>): (r: seq<int>)
    ensures |r| == |seats| && forall i {:trigger r[i]} :: 0 <= i < |seats| ==> r[i] == seats[i].lives
  {
    seq(|seats|, i requires 0 <= i < |seats| => seats[i].lives)
  }

  function AliveFlags(seats: seq<Seat>): (r: seq<bool>)
    ensures |r| == |seats| && forall i {:trigger r[i]} :: 0 <= i < |seats| ==> (r[i] <==> seats[i].lives > 0)
  {
    seq(|seats|, i requires 0 <= i < |seats| => seats[i].lives > 0)
  }

  function HolderFlags(seats: seq<Seat>): (r: seq<bool>)
    ensures |r| == |seats| && forall i {:trigger r[i]} :: 0 <= i < |seats| ==> (r[i] <==> |seats[i].cards| > 0)
  {
    seq(|seats|, i requires 0 <= i < |seats| => |seats[i].cards| > 0)
  }

  predicate Owned(cards: seq<Card>, id: int)
  {
    forall k :: 0 <= k < |cards| ==> cards[k].ownerId == Some(id)
  }

  predicate OwnedBySeat(cards: seq<Card>, n: int)
  {
    forall k :: 0 <= k < |cards| ==> cards[k].ownerId.Some? && 0 <= cards[k].ownerId.value < n
  }

  /** What holds of the lobby between any two operations. */
  ghost predicate Inv(s: GameState)
  {
    && 2 <= s.n <= 10
    && |s.seats| <= s.n
    && -1 <= s.dealer < s.n
    && s.winValue >= 1
    && (forall i :: 0 <= i < |s.seats| ==> 0 <= s.seats[i].lives <= StartingLives && Owned(s.seats[i].cards, i))
    && OwnedBySeat(s.played, s.n)
    && (s.phase.Some? ==> Started(s))
  }

  predicate InGuessTurn(s: GameState)
  {
    s.phase == Some(Guess) || s.phase == Some(FinalGuess)
  }

  predicate InPlayTurn(s: GameState)
  {
    s.phase == Some(Play) || s.phase == Some(FinalPlay)
  }

  /** Once a gameturn has been prepared: all seats are taken, dealer and
      current player are seats, and during bidding every hand is full. */
  ghost predicate Started(s: GameState)
  {
    && |s.seats| == s.n
    && 0 <= s.dealer < s.n
    && 0 <= s.current < s.n
    && |s.wins| == s.n
    && s.beforemanilla.Some?
    && (InGuessTurn(s) ==> forall i :: 0 <= i < s.n ==> |s.seats[i].cards| == s.seats[i].lives)
  }

  /** Lobby.__init__ */
  function Initial(n: int): (s: GameState)
    requires 2 <= n <= 10
    ensures Inv(s) && s.seats == [] && s.phase == None && s.dealer == -1 && s.winValue == 1
  {
    GameState(n, [], -1, -1, 0, None, 0, 0, None, 1, [], [], [], [])
  }

  /** register_player: a new player with 5 lives and no cards takes the next seat. */
  function Register(s: GameState): (r: Step)
    requires Inv(s)
    ensures Inv(r.state)
    ensures r.status == Ok <==> |s.seats| < s.n
    ensures r.status != Ok ==> r.status == Fail(LobbyFull) && r.state == s
    ensures r.status == Ok ==> r.state == s.(seats := s.seats + [Seat(StartingLives, [])])
  {
    if |s.seats| == s.n then Step(s, Fail(LobbyFull))
    else Step(s.(seats := s.seats + [Seat(StartingLives, [])]), Ok)
  }

  // ---------------------------------------------------------------- dealing

  /** The card as a player holds it after Player.draw_card. */
  function Own(c: Card, id: int): Card
  {
    c.(ownerId := Some(id))
  }

  /** The hand built by k calls of Lobby.draw on an emptied hand: each draw
      pops the last card of the deck. */
  function Drawn(deck: seq<Card>, id: int, k: nat): (h: seq<Card>)
    requires k <= |deck|
    ensures |h| == k && Owned(h, id)
  {
    if k == 0 then [] else [Own(deck[|deck| - 1], id)] + Drawn(deck[..|deck| - 1], id, k - 1)
  }

  /** One more draw appends the card k places from the top. */
  lemma {:induction false} DrawnSnoc(deck: seq<Card>, id: int, k: nat)
    requires k < |deck|
    ensures Drawn(deck, id, k + 1) == Drawn(deck, id, k) + [Own(deck[|deck| - 1 - k], id)]
  {
    if k > 0 {
      var d := deck[..|deck| - 1];
      var top := [Own(deck[|deck| - 1], id)];
      DrawnSnoc(d, id, k - 1);
      assert d[|d| - 1 - (k - 1)] == deck[|deck| - 1 - k];
      assert Drawn(deck, id, k + 1) == top + Drawn(d, id, k);
      assert Drawn(deck, id, k) == top + Drawn(d, id, k - 1);
      assert top + (Drawn(d, id, k - 1) + [Own(deck[|deck| - 1 - k], id)]) ==
        (top + Drawn(d, id, k - 1)) + [Own(deck[|deck| - 1 - k], id)];
    }
  }

  /** Lives of seats[..i] together. */
  function LivesSum(seats: seq<Seat>, i: nat): int
    requires i <= |seats|
  {
    if i == 0 then 0 else LivesSum(seats, i - 1) + seats[i - 1].lives
  }

  /** Cards held by seats[..i] together. */
  function CardsSum(seats: seq<Seat>, i: nat): int
    requires i <= |seats|
  {
    if i == 0 then 0 else CardsSum(seats, i - 1) + |seats[i - 1].cards|
  }

  function TotalCards(seats: seq<Seat>): int
  {
    CardsSum(seats, |seats|)
  }

  datatype Dealt = Dealt(seats: seq<Seat>, deck: seq<Card>)

  /** With every seat's lives in 0..5, seats[..i] hold between 0 and 5i lives. */
  lemma LivesSumBounds(seats: seq<Seat>)
    requires forall j :: 0 <= j < |seats| ==> 0 <= seats[j].lives <= StartingLives
    ensures forall i :: 0 <= i <= |seats| ==> 0 <= LivesSum(seats, i) <= StartingLives * i
  {
    forall i | 0 <= i <= |seats|
      ensures 0 <= LivesSum(seats, i) <= StartingLives * i
    {
      LivesSumBound(seats, i);
    }
  }

  lemma {:induction false} LivesSumBound(seats: seq<Seat>, i: nat)
    requires i <= |seats|
    requires forall j :: 0 <= j < |seats| ==> 0 <= seats[j].lives <= StartingLives
    ensures 0 <= LivesSum(seats, i) <= StartingLives * i
  {
    if i > 0 {
      LivesSumBound(seats, i - 1);
    }
  }

  /** The hand of seat j after the dealing loop of prepare_gameturn: the seats
      before it have drawn LivesSum(seats, j) cards off the top, then seat j
      draws one card per life. */
  function DealtHand(seats: seq<Seat>, deck: seq<Card>, j: nat): (h: Seat)
    requires j < |seats| && 0 <= seats[j].lives
    requires 0 <= LivesSum(seats, j) && LivesSum(seats, j + 1) <= |deck|
    ensures h.lives == seats[j].lives && |h.cards| == seats[j].lives && Owned(h.cards, j)
  {
    Seat(seats[j].lives, Drawn(deck[..|deck| - LivesSum(seats, j)], j, seats[j].lives))
  }

  /** Every dealt hand has as many cards as its player has lives. */
  lemma {:induction false} DealtCards(seats: seq<Seat>, hands: seq<Seat>, i: nat)
    requires i <= |seats| == |hands|
    requires forall j :: 0 <= j < i ==> |hands[j].cards| == seats[j].lives
    ensures CardsSum(hands, i) == LivesSum(seats, i)
  {
    if i > 0 {
      DealtCards(seats, hands, i - 1);
    }
  }

  // ------------------------------------------------------------- gameturns

  /** `[0 for _ in range(n)]` */
  function Zeros(n: nat): (r: seq<int>)
    ensures |r| == n && forall i :: 0 <= i < n ==> r[i] == 0
  {
    if n == 0 then [] else Zeros(n - 1) + [0]
  }

  /** The dealing loop of prepare_gameturn over every player: the hands,
      and the deck without the LivesSum(seats, |seats|) cards drawn off its top. */
  function Deal(seats: seq<Seat>, deck: seq<Card>): (r: Dealt)
    requires forall j :: 0 <= j < |seats| ==> 0 <= seats[j].lives <= StartingLives
    requires StartingLives * |seats| <= |deck|
    ensures |r.seats| == |seats| && |r.deck| + TotalCards(r.seats) == |deck|
    ensures forall j {:trigger r.seats[j]} :: 0 <= j < |seats| ==>
      r.seats[j].lives == seats[j].lives && |r.seats[j].cards| == seats[j].lives && Owned(r.seats[j].cards, j)
  {
    LivesSumBounds(seats);
    var hands := seq(|seats|, j requires 0 <= j < |seats| => DealtHand(seats, deck, j));
    DealtCards(seats, hands, |seats|);
    Dealt(hands, deck[..|deck| - LivesSum(seats, |seats|)])
  }

  /** The seats once the dealing loop of prepare_gameturn has served seats[..i]. */
  function DealtUpTo(seats: seq<Seat>, deck: seq<Card>, i: nat): (r: seq<Seat>)
    requires i <= |seats|
    requires forall j :: 0 <= j < |seats| ==> 0 <= seats[j].lives <= StartingLives
    requires StartingLives * |seats| <= |deck|
    ensures |r| == |seats|
  {
    LivesSumBounds(seats);
    seq(|seats|, j requires 0 <= j < |seats| => if j < i then DealtHand(seats, deck, j) else seats[j])
  }

  /** Serving seat i changes that seat alone, into its dealt hand. */
  lemma DealtUpToNext(seats: seq<Seat>, deck: seq<Card>, i: nat)
    requires i < |seats|
    requires forall j :: 0 <= j < |seats| ==> 0 <= seats[j].lives <= StartingLives
    requires StartingLives * |seats| <= |deck|
    ensures 0 <= LivesSum(seats, i) && LivesSum(seats, i + 1) <= |deck|
    ensures DealtUpTo(seats, deck, i)[i] == seats[i]
    ensures DealtUpTo(seats, deck, i + 1) == DealtUpTo(seats, deck, i)[i := DealtHand(seats, deck, i)]
  {
    LivesSumBounds(seats);
  }

  /** Once every seat is served the seats are the dealt hands. */
  lemma DealtUpToAll(seats: seq<Seat>, deck: seq<Card>)
    requires forall j :: 0 <= j < |seats| ==> 0 <= seats[j].lives <= StartingLives
    requires StartingLives * |seats| <= |deck|
    ensures DealtUpTo(seats, deck, |seats|) == Deal(seats, deck).seats
  {
  }

  /** Dealing changes no seat's lives. */
  lemma DealKeepsLives(seats: seq<Seat>, deck: seq<Card>)
    requires forall j :: 0 <= j < |seats| ==> 0 <= seats[j].lives <= StartingLives
    requires StartingLives * |seats| <= |deck|
    ensures Lives(Deal(seats, deck).seats) == Lives(seats)
    ensures AliveFlags(Deal(seats, deck).seats) == AliveFlags(seats)
  {
    var r := Deal(seats, deck).seats;
    assert forall j :: 0 <= j < |seats| ==> Lives(r)[j] == Lives(seats)[j];
    assert forall j :: 0 <= j < |seats| ==> AliveFlags(r)[j] == AliveFlags(seats)[j];
  }

  /** The deck random.shuffle leaves behind: a fresh deck in the order `perm`. */
  function ShuffledDeck(perm: seq<int>): (d: seq<Card>)
    requires IsPermutation(perm, 52)
    ensures |d| == 52
  {
    ShuffledDeckDistinct(perm);
    Shuffled(FullDeck(), perm)
  }

  /** The steps of prepare_gameturn before the dealing loop: a fresh deck
      shuffled by `perm` with the beforemanilla drawn from its top, the next
      gameturn, its trick count, the next living dealer (who is also the next
      to act), no bids and no wins yet. */
  function NewTable(s: GameState, perm: seq<int>): (r: GameState)
    requires 2 <= |s.seats| == s.n && -1 <= s.dealer < s.n
    requires true in AliveFlags(s.seats)
    requires IsPermutation(perm, 52)
    ensures r.seats == s.seats && |r.deck| == 51 && r.n == s.n
  {
    var order := ShuffledDeck(perm);
    var d := NextSeat(AliveFlags(s.seats), s.dealer);
    s.(deck := order[..51], beforemanilla := Some(order[51]),
       gameturn := s.gameturn + 1, turnNumber := 0, turns := TurnCount(Lives(s.seats)),
       wins := Zeros(s.n), dealer := d, current := d, guesses := [])
  }

  /** The dealing loop of prepare_gameturn on a whole state. */
  function DealStep(s: GameState): (r: GameState)
    requires forall j :: 0 <= j < |s.seats| ==> 0 <= s.seats[j].lives <= StartingLives
    requires StartingLives * |s.seats| <= |s.deck|
    ensures Lives(r.seats) == Lives(s.seats) && AliveFlags(r.seats) == AliveFlags(s.seats)
  {
    var dealt := Deal(s.seats, s.deck);
    DealKeepsLives(s.seats, s.deck);
    s.(seats := dealt.seats, deck := dealt.deck)
  }

  /** prepare_gameturn: the new table, every player dealt as many cards as
      lives, and a bidding phase that is final when two players are left. */
  function Prepare(s: GameState, perm: seq<int>): (r: GameState)
    requires Inv(s) && |s.seats| == s.n
    requires true in AliveFlags(s.seats)
    requires IsPermutation(perm, 52)
    ensures Inv(r) && r.n == s.n && |r.seats| == r.n
    ensures InGuessTurn(r) && r.current == r.dealer && r.guesses == []
  {
    var t := DealStep(NewTable(s, perm));
    t.(phase := Some(if CountTrue(AliveFlags(s.seats)) == 2 then FinalGuess else Guess))
  }

  /** A new gameturn deals every player one card per life, keeps every card
      of the fresh deck somewhere (deck, hands or beforemanilla), resets the
      trick count and the wins, and keeps the win value and the pile. */
  lemma PrepareDeals(s: GameState, perm: seq<int>)
    requires Inv(s) && |s.seats| == s.n
    requires true in AliveFlags(s.seats)
    requires IsPermutation(perm, 52)
    ensures var r := Prepare(s, perm);
      && r.gameturn == s.gameturn + 1
      && (forall i :: 0 <= i < r.n ==> r.seats[i].lives == s.seats[i].lives && |r.seats[i].cards| == s.seats[i].lives)
      && |r.deck| + 1 + TotalCards(r.seats) == 52
      && r.turns == TurnCount(Lives(s.seats)) && r.turnNumber == 0
      && |r.wins| == r.n && (forall i :: 0 <= i < r.n ==> r.wins[i] == 0)
      && r.winValue == s.winValue && r.played == s.played
      && r.phase == Some(if CountTrue(AliveFlags(s.seats)) == 2 then FinalGuess else Guess)
  {
  }

  /** The new dealer is the first living player after the old one. */
  lemma PrepareRotatesDealer(s: GameState, perm: seq<int>)
    requires Inv(s) && |s.seats| == s.n
    requires true in AliveFlags(s.seats)
    requires IsPermutation(perm, 52)
    ensures var r := Prepare(s, perm);
      && 0 <= r.dealer < r.n && r.seats[r.dealer].lives > 0
      && forall j :: 1 <= j < Offset(s.n, s.dealer, r.dealer) ==> s.seats[Cyc(s.n, s.dealer, j)].lives == 0
  {
    var alive := AliveFlags(s.seats);
    var d := NextSeat(alive, s.dealer);
    forall j | 1 <= j < Offset(s.n, s.dealer, d)
      ensures s.seats[Cyc(s.n, s.dealer, j)].lives == 0
    {
      assert !alive[Cyc(s.n, s.dealer, j)];
    }
  }

  /** start_game: refused until every seat is taken; otherwise prepares a gameturn. */
  function Start(s: GameState, perm: seq<int>): (r: Step)
    requires Inv(s)
    requires IsPermutation(perm, 52)
    ensures Inv(r.state)
    ensures |s.seats| != s.n ==> r == Step(s, Fail(NotAllJoined))
    ensures |s.seats| == s.n && !(true in AliveFlags(s.seats)) ==> r == Step(s, Fail(NoLivingDealer))
    ensures r.status == Ok <==> |s.seats| == s.n && true in AliveFlags(s.seats)
    ensures r.status == Ok ==> r.state == Prepare(s, perm)
  {
    if |s.seats| != s.n then Step(s, Fail(NotAllJoined))
    else if !(true in AliveFlags(s.seats)) then Step(s, Fail(NoLivingDealer))
    else Step(Prepare(s, perm), Ok)
  }

  // ------------------------------------------------------------ settlement

  /** Player.lose_life: lives drop by `loss`, never below 0. */
  function LoseLife(seat: Seat, loss: int): (r: Seat)
    ensures r.cards == seat.cards && r.lives >= 0
    ensures 0 <= loss <= seat.lives ==> seat.lives - r.lives == loss
    ensures loss >= seat.lives ==> r.lives == 0
  {
    seat.(lives := if seat.lives - loss < 0 then 0 else seat.lives - loss)
  }

  function Abs(x: int): int
  {
    if x < 0 then -x else x
  }

  /** The zip loop of close_gameturn over its first k pairs: seat ids[t] loses
      |guesses[t] - wins[ids[t]]| lives. */
  function ApplyLosses(seats: seq<Seat>, ids: seq<int>, guesses: seq<int>, wins: seq<int>, k: nat): (r: seq<Seat>)
    requires k <= |ids| && k <= |guesses| && |wins| == |seats|
    requires forall t :: 0 <= t < |ids| ==> 0 <= ids[t] < |seats|
    ensures |r| == |seats|
  {
    if k == 0 then seats
    else
      var p := ApplyLosses(seats, ids, guesses, wins, k - 1);
      var i := ids[k - 1];
      var loss := Abs(guesses[k - 1] - wins[i]);
      if loss != 0 then p[i := LoseLife(p[i], loss)] else p
  }

  /** With distinct ids, each listed seat loses exactly its own miss, no hand
      changes, no count of lives grows or goes negative, and a seat with no
      lives left stays as it was. */
  lemma {:induction false} ApplyLossesFacts(seats: seq<Seat>, ids: seq<int>, guesses: seq<int>, wins: seq<int>, k: nat)
    requires k <= |ids| && k <= |guesses| && |wins| == |seats|
    requires forall t :: 0 <= t < |ids| ==> 0 <= ids[t] < |seats|
    requires forall t, u :: 0 <= t < u < |ids| ==> ids[t] != ids[u]
    requires forall i :: 0 <= i < |seats| ==> seats[i].lives >= 0
    ensures var r := ApplyLosses(seats, ids, guesses, wins, k);
      && (forall i :: 0 <= i < |seats| ==> r[i].cards == seats[i].cards && 0 <= r[i].lives <= seats[i].lives)
      && (forall t :: 0 <= t < k ==>
            r[ids[t]].lives == LoseLife(seats[ids[t]], Abs(guesses[t] - wins[ids[t]])).lives)
      && (forall t :: k <= t < |ids| ==> r[ids[t]] == seats[ids[t]])
      && (forall i :: 0 <= i < |seats| && seats[i].lives == 0 ==> r[i] == seats[i])
  {
    if k > 0 {
      ApplyLossesFacts(seats, ids, guesses, wins, k - 1);
    }
  }

  /** The alive players in the order they bid: from the dealer round the table. */
  function BidOrder(s: GameState): (ids: seq<int>)
    requires Inv(s) && Started(s)
    ensures forall t :: 0 <= t < |ids| ==> 0 <= ids[t] < s.n && s.seats[ids[t]].lives > 0
    ensures forall t, u :: 0 <= t < u < |ids| ==> ids[t] != ids[u] && Pos(s.n, s.dealer, ids[t]) < Pos(s.n, s.dealer, ids[u])
    ensures forall i :: 0 <= i < s.n && s.seats[i].lives > 0 ==> i in ids
  {
    var ids := AliveOrder(AliveFlags(s.seats), s.dealer, s.n);
    forall i | 0 <= i < s.n && s.seats[i].lives > 0
      ensures i in ids
    {
      assert Cyc(s.n, s.dealer, Pos(s.n, s.dealer, i)) == i;
    }
    ids
  }

  /** The seats after the life losses of close_gameturn. */
  function SettledSeats(s: GameState): (r: seq<Seat>)
    requires Inv(s) && Started(s)
    ensures |r| == s.n
    ensures forall i :: 0 <= i < s.n ==> r[i].cards == s.seats[i].cards && 0 <= r[i].lives <= s.seats[i].lives
  {
    var ids := BidOrder(s);
    var k := if |ids| < |s.guesses| then |ids| else |s.guesses|;
    ApplyLossesFacts(s.seats, ids, s.guesses, s.wins, k);
    ApplyLosses(s.seats, ids, s.guesses, s.wins, k)
  }

  /** The t-th bidder of the gameturn loses as many lives as their bid missed
      their wins by (down to 0); a dead player's seat stays as it was. */
  lemma SettledSeatsLoseMisses(s: GameState)
    requires Inv(s) && Started(s)
    ensures var ids := BidOrder(s); var r := SettledSeats(s);
      && (forall t :: 0 <= t < |ids| && t < |s.guesses| ==>
            r[ids[t]].lives == LoseLife(s.seats[ids[t]], Abs(s.guesses[t] - s.wins[ids[t]])).lives)
      && (forall i :: 0 <= i < s.n && s.seats[i].lives == 0 ==> r[i] == s.seats[i])
  {
    var ids := BidOrder(s);
    var k := if |ids| < |s.guesses| then |ids| else |s.guesses|;
    ApplyLossesFacts(s.seats, ids, s.guesses, s.wins, k);
  }

  /** The lobby once close_gameturn has applied the life losses. */
  function AfterLosses(s: GameState): (r: GameState)
    requires Inv(s) && Started(s) && InPlayTurn(s)
    ensures Inv(r) && Started(r) && InPlayTurn(r) && r.seats == SettledSeats(s)
  {
    var r := s.(seats := SettledSeats(s));
    assert forall i :: 0 <= i < s.n ==> 0 <= r.seats[i].lives <= StartingLives && Owned(r.seats[i].cards, i);
    r
  }

  /** close_gameturn: apply the life losses; the game is over when at most one
      player is left alive or this was the final gameturn, otherwise the next
      gameturn is prepared. */
  function Settle(s: GameState, perm: seq<int>): (r: GameState)
    requires Inv(s) && Started(s) && InPlayTurn(s)
    requires IsPermutation(perm, 52)
    ensures Inv(r)
    ensures r.phase == Some(GameOver) <==>
      CountTrue(AliveFlags(SettledSeats(s))) <= 1 || s.phase == Some(FinalPlay)
    ensures r.phase == Some(GameOver) || InGuessTurn(r)
    ensures r.phase == Some(GameOver) ==> r == AfterLosses(s).(phase := Some(GameOver))
    ensures r.phase != Some(GameOver) ==> r == Prepare(AfterLosses(s), perm)
  {
    var s1 := AfterLosses(s);
    if CountTrue(AliveFlags(s1.seats)) <= 1 || s.phase == Some(FinalPlay) then s1.(phase := Some(GameOver))
    else Prepare(s1, perm)
  }

  // ---------------------------------------------------------------- tricks

  /** The wins per seat and the value of the next trick won. */
  datatype Tally = Tally(wins: seq<int>, winValue: int)

  /** update_current_wins on the tally: the owner of the winning card gains
      the current win value and the value returns to 1; a fully cancelled
      pile raises the value by 1. */
  function Award(pile: seq<Card>, beforeStrength: int, t: Tally, n: int): (r: Tally)
    requires OwnedBySeat(pile, n) && |t.wins| == n
    ensures |r.wins| == n && (t.winValue >= 1 ==> r.winValue >= 1)
    ensures Resolve(pile, beforeStrength).Cancelled? ==> r == Tally(t.wins, t.winValue + 1)
    ensures Resolve(pile, beforeStrength).Winner? ==>
      var o := pile[Resolve(pile, beforeStrength).card].ownerId.value;
      0 <= o < n && r == Tally(t.wins[o := t.wins[o] + t.winValue], 1)
  {
    match Resolve(pile, beforeStrength)
    case Cancelled => t.(winValue := t.winValue + 1)
    case Winner(i) =>
      var o := pile[i].ownerId.value;
      Tally(t.wins[o := t.wins[o] + t.winValue], 1)
  }

  /** update_current_wins on the lobby: only the wins and the win value change. */
  function UpdateWins(s: GameState): (r: GameState)
    requires Inv(s) && Started(s)
    ensures Inv(r) && Started(r)
    ensures r == s.(wins := r.wins, winValue := r.winValue)
    ensures Tally(r.wins, r.winValue) == Award(s.played, RealValue(s.beforemanilla.value), Tally(s.wins, s.winValue), s.n)
  {
    var t := Award(s.played, RealValue(s.beforemanilla.value), Tally(s.wins, s.winValue), s.n);
    s.(wins := t.wins, winValue := t.winValue)
  }

  /** rewind_player_id: the dealer leads, or the first card holder after the
      dealer; it raises when nobody holds a card (current stays the dealer). */
  function Rewind(s: GameState): (r: Step)
    requires Inv(s) && Started(s)
    ensures Inv(r.state) && r.state == s.(current := r.state.current) && 0 <= r.state.current < s.n
    ensures |s.seats[s.dealer].cards| > 0 ==> r == Step(s.(current := s.dealer), Ok)
    ensures |s.seats[s.dealer].cards| == 0 && r.status == Ok ==>
      |s.seats[r.state.current].cards| > 0 &&
      forall j :: 1 <= j < Offset(s.n, s.dealer, r.state.current) ==> |s.seats[Cyc(s.n, s.dealer, j)].cards| == 0
    ensures r.status != Ok <==> forall i :: 0 <= i < s.n ==> |s.seats[i].cards| == 0
    ensures r.status != Ok ==> r == Step(s.(current := s.dealer), Fail(NoPlayerWithCards))
  {
    var flags := HolderFlags(s.seats);
    if flags[s.dealer] then Step(s.(current := s.dealer), Ok)
    else if true in flags then Step(s.(current := NextSeat(flags, s.dealer)), Ok)
    else
      assert forall i :: 0 <= i < s.n ==> |s.seats[i].cards| == 0 by {
        forall i | 0 <= i < s.n
          ensures |s.seats[i].cards| == 0
        {
          assert !flags[i];
        }
      }
      Step(s.(current := s.dealer), Fail(NoPlayerWithCards))
  }

  /** close_turn: count the trick, settle its pile, empty it; after the
      gameturn's last trick settle the gameturn, otherwise rewind. */
  function CloseTurn(s: GameState, perm: seq<int>): (r: Step)
    requires Inv(s) && Started(s) && InPlayTurn(s)
    requires IsPermutation(perm, 52)
    ensures Inv(r.state)
    ensures r.state.played == []
    ensures r.status == Ok || r.status == Fail(NoPlayerWithCards)
    ensures s.turnNumber + 1 == s.turns ==>
      r.status == Ok && (r.state.phase == Some(GameOver) || InGuessTurn(r.state))
    ensures s.turnNumber + 1 != s.turns ==>
      InPlayTurn(r.state) && r.state.turnNumber == s.turnNumber + 1
    ensures s.turnNumber + 1 == s.turns ==> r == Step(Settle(CountTrick(s), perm), Ok)
    ensures s.turnNumber + 1 != s.turns ==> r == Rewind(CountTrick(s))
  {
    var s3 := CountTrick(s);
    if s3.turnNumber == s3.turns then Step(Settle(s3, perm), Ok) else Rewind(s3)
  }

  /** The first steps of close_turn: one more trick is counted and awarded,
      and the pile is cleared. */
  function CountTrick(s: GameState): (r: GameState)
    requires Inv(s) && Started(s) && InPlayTurn(s)
    ensures Inv(r) && Started(r) && InPlayTurn(r)
    ensures r == s.(turnNumber := s.turnNumber + 1, wins := r.wins, winValue := r.winValue, played := [])
    ensures Tally(r.wins, r.winValue) == Award(s.played, RealValue(s.beforemanilla.value), Tally(s.wins, s.winValue), s.n)
  {
    UpdateWins(s.(turnNumber := s.turnNumber + 1)).(played := [])
  }

  /** A trick adds the accumulated win value to the winner's count, and
      nothing to anyone's when the pile cancels out. */
  lemma AwardAddsWinValue(pile: seq<Card>, beforeStrength: int, t: Tally, n: int)
    requires OwnedBySeat(pile, n) && |t.wins| == n
    ensures var r := Award(pile, beforeStrength, t, n);
      Sum(r.wins) == Sum(t.wins) + (if Resolve(pile, beforeStrength).Winner? then t.winValue else 0)
  {
    var res := Resolve(pile, beforeStrength);
    if res.Winner? {
      var o := pile[res.card].ownerId.value;
      SumUpdate(t.wins, o, t.wins[o] + t.winValue);
    }
  }

  // ------------------------------------------------------------------- bids

  /** guess: in a guess turn, by the current living player; the last bid may
      not bring the total to the trick count; the last bid opens the play. */
  function GuessStep(s: GameState, pid: int, g: int): (r: Step)
    requires Inv(s)
    ensures Inv(r.state)
    ensures !InGuessTurn(s) ==> r == Step(s, Fail(WrongPhase))
    ensures InGuessTurn(s) && pid != s.current ==> r == Step(s, Fail(NotYourTurn))
    ensures InGuessTurn(s) && pid == s.current && s.seats[pid].lives == 0 ==> r == Step(s, Fail(PlayerDead))
    ensures r.status == Fail(ForbiddenGuess) <==>
      InGuessTurn(s) && pid == s.current && s.seats[pid].lives > 0 &&
      |s.guesses| == CountTrue(AliveFlags(s.seats)) - 1 && Sum(s.guesses) + g == s.turns
    ensures r.status != Ok ==> r.state == s
    ensures r.status == Ok <==>
      InGuessTurn(s) && pid == s.current && s.seats[pid].lives > 0 &&
      !(|s.guesses| == CountTrue(AliveFlags(s.seats)) - 1 && Sum(s.guesses) + g == s.turns)
    ensures r.status == Ok ==>
      && InGuessTurn(s) && pid == s.current && s.seats[pid].lives > 0
      && r.state.guesses == s.guesses + [g]
      && (r.state.phase != s.phase <==> |s.guesses| == CountTrue(AliveFlags(s.seats)) - 1)
      && (r.state.phase == Some(Play) <==> s.phase == Some(Guess) && r.state.phase != s.phase)
      && (r.state.phase == Some(FinalPlay) <==> s.phase == Some(FinalGuess) && r.state.phase != s.phase)
      && r.state == s.(guesses := r.state.guesses, phase := r.state.phase, current := r.state.current)
      && |s.seats[r.state.current].cards| > 0
      && forall j :: 1 <= j < Offset(s.n, pid, r.state.current) ==> |s.seats[Cyc(s.n, pid, j)].cards| == 0
  {
    if !InGuessTurn(s) then Step(s, Fail(WrongPhase))
    else if pid != s.current then Step(s, Fail(NotYourTurn))
    else if s.seats[pid].lives == 0 then Step(s, Fail(PlayerDead))
    else Bid(s, g)
  }

  /** The bid g of the current living player, once guess has checked who bids. */
  function Bid(s: GameState, g: int): (r: Step)
    requires Inv(s) && InGuessTurn(s) && 0 <= s.current < |s.seats| && s.seats[s.current].lives > 0
    ensures Inv(r.state)
    ensures r.status == Ok || r.status == Fail(ForbiddenGuess)
    ensures r.status != Ok <==> |s.guesses| == CountTrue(AliveFlags(s.seats)) - 1 && Sum(s.guesses) + g == s.turns
    ensures r.status != Ok ==> r.state == s
    ensures r.status == Ok ==> r.state.guesses == s.guesses + [g] && 0 <= r.state.current < |s.seats| && |s.seats[r.state.current].cards| > 0
  {
    var last := |s.guesses| == CountTrue(AliveFlags(s.seats)) - 1;
    if last && Sum(s.guesses) + g == s.turns then Step(s, Fail(ForbiddenGuess))
    else
      var phase := if !last then s.phase else if s.phase == Some(Guess) then Some(Play) else Some(FinalPlay);
      var flags := HolderFlags(s.seats);
      assert flags[s.current];
      Step(s.(phase := phase, guesses := s.guesses + [g], current := NextSeat(flags, s.current)), Ok)
  }

  /** The rule that makes Fodinha: once every living player has bid, the
      bids never add up to the number of tricks of the gameturn, and play
      begins with every living player's bid on the table. */
  lemma BidsNeverMatchTricks(s: GameState, pid: int, g: int)
    requires Inv(s)
    ensures var r := GuessStep(s, pid, g);
      r.status == Ok && InPlayTurn(r.state) ==>
        && InGuessTurn(s)
        && |r.state.guesses| == CountTrue(AliveFlags(s.seats))
        && Sum(r.state.guesses) != s.turns
  {
    SumSnoc(s.guesses, g);
  }

  // ------------------------------------------------------------------ plays

  /** The position `list.pop(index)` removes: Python also accepts -len <= index < 0. */
  function PyIndex(index: int, len: int): (r: Option<int>)
    ensures r.Some? <==> -len <= index < len
    ensures r.Some? ==> 0 <= r.value < len && (r.value == index || r.value == len + index)
  {
    if 0 <= index < len then Some(index)
    else if -len <= index < 0 then Some(len + index)
    else None
  }

  function RemoveAt(cards: seq<Card>, i: int): (r: seq<Card>)
    requires 0 <= i < |cards|
    ensures |r| == |cards| - 1
    ensures forall j :: 0 <= j < i ==> r[j] == cards[j]
    ensures forall j :: i <= j < |r| ==> r[j] == cards[j + 1]
    ensures multiset(r) + multiset{cards[i]} == multiset(cards)
  {
    assert cards == cards[..i] + [cards[i]] + cards[i + 1..];
    cards[..i] + cards[i + 1..]
  }

  /** The card at position i leaves the hand of `pid` and joins the pile. */
  function PlayCard(s: GameState, pid: int, i: int): (r: GameState)
    requires Inv(s) && Started(s) && InPlayTurn(s)
    requires 0 <= pid < s.n && 0 <= i < |s.seats[pid].cards|
    ensures Inv(r)
    ensures r.seats == s.seats[pid := Seat(s.seats[pid].lives, RemoveAt(s.seats[pid].cards, i))]
    ensures r.played == s.played + [s.seats[pid].cards[i]]
    ensures r == s.(seats := r.seats, played := r.played)
  {
    var hand := s.seats[pid].cards;
    assert hand[i] in hand;
    forall c | c in RemoveAt(hand, i)
      ensures c in hand
    {
      assert c in multiset(RemoveAt(hand, i));
    }
    s.(seats := s.seats[pid := Seat(s.seats[pid].lives, RemoveAt(hand, i))], played := s.played + [hand[i]])
  }

  /** Giving seat i a new hand changes the cards held by seats[..k] by the
      difference when i < k. */
  lemma {:induction false} CardsSumUpdate(seats: seq<Seat>, i: int, seat: Seat, k: nat)
    requires 0 <= i < |seats| && k <= |seats|
    ensures CardsSum(seats[i := seat], k) ==
      CardsSum(seats, k) + (if i < k then |seat.cards| - |seats[i].cards| else 0)
  {
    if k > 0 {
      CardsSumUpdate(seats, i, seat, k - 1);
    }
  }

  /** A card played moves from a hand to the pile: no card appears or vanishes. */
  lemma PlayCardKeepsCards(s: GameState, pid: int, i: int)
    requires Inv(s) && Started(s) && InPlayTurn(s)
    requires 0 <= pid < s.n && 0 <= i < |s.seats[pid].cards|
    ensures var r := PlayCard(s, pid, i);
      TotalCards(r.seats) + |r.played| == TotalCards(s.seats) + |s.played|
  {
    var r := PlayCard(s, pid, i);
    CardsSumUpdate(s.seats, pid, r.seats[pid], |s.seats|);
  }

  /** The three conditions under which play closes the trick. */
  predicate TrickCloses(s: GameState)
    requires 0 <= s.current < |s.seats| && s.n > 0
    ensures !TrickCloses(s) ==> exists j :: 0 <= j < |s.seats| && j != s.current && |s.seats[j].cards| > 0
  {
    var flags := HolderFlags(s.seats);
    var holders := CountTrue(flags);
    assert (forall j :: 0 <= j < |s.seats| && j != s.current ==> |s.seats[j].cards| == 0) ==>
      holders == 0 || (holders == 1 && |s.seats[s.current].cards| > 0) by {
      if forall j :: 0 <= j < |s.seats| && j != s.current ==> |s.seats[j].cards| == 0 {
        CountTrueAtMostOne(flags, s.current);
      }
    }
    || holders == 0
    || (holders == 1 && |s.seats[s.current].cards| > 0)
    || (s.current + 1) % s.n == s.dealer
  }

  /** play: in a play turn, by the current living player holding cards, with an
      index `list.pop` accepts; the trick then closes or passes to the next
      card holder. */
  function PlayStep(s: GameState, pid: int, index: int, perm: seq<int>): (r: Step)
    requires Inv(s)
    requires IsPermutation(perm, 52)
    ensures Inv(r.state)
    ensures !InPlayTurn(s) ==> r == Step(s, Fail(WrongPhase))
    ensures InPlayTurn(s) && pid != s.current ==> r == Step(s, Fail(NotYourTurn))
    ensures InPlayTurn(s) && pid == s.current && s.seats[pid].lives == 0 ==> r == Step(s, Fail(PlayerDead))
    ensures (InPlayTurn(s) && pid == s.current && s.seats[pid].lives > 0 && |s.seats[pid].cards| == 0) ==>
      r == Step(s, Fail(NoCards))
    ensures (InPlayTurn(s) && pid == s.current && s.seats[pid].lives > 0 && |s.seats[pid].cards| > 0 &&
             PyIndex(index, |s.seats[pid].cards|).None?) ==> r == Step(s, Fail(BadCardIndex))
    ensures r.status == Ok || r.status == Fail(NoPlayerWithCards) <==>
      InPlayTurn(s) && pid == s.current && s.seats[pid].lives > 0 && PyIndex(index, |s.seats[pid].cards|).Some?
  {
    if !InPlayTurn(s) then Step(s, Fail(WrongPhase))
    else if pid != s.current then Step(s, Fail(NotYourTurn))
    else if s.seats[pid].lives == 0 then Step(s, Fail(PlayerDead))
    else if |s.seats[pid].cards| == 0 then Step(s, Fail(NoCards))
    else if PyIndex(index, |s.seats[pid].cards|).None? then Step(s, Fail(BadCardIndex))
    else
      Advance(PlayCard(s, pid, PyIndex(index, |s.seats[pid].cards|).value), perm)
  }

  /** The end of play, once the card is on the pile: close the trick, or pass
      the turn to the next seat holding cards. */
  function Advance(s: GameState, perm: seq<int>): (r: Step)
    requires Inv(s) && Started(s) && InPlayTurn(s)
    requires IsPermutation(perm, 52)
    ensures Inv(r.state)
    ensures r.status == Ok || r.status == Fail(NoPlayerWithCards)
    ensures TrickCloses(s) ==> r.state.played == [] && r == CloseTurn(s, perm)
    ensures !TrickCloses(s) ==>
      && r.status == Ok && r.state == s.(current := r.state.current)
      && |s.seats[r.state.current].cards| > 0
      && forall j :: 1 <= j < Offset(s.n, s.current, r.state.current) ==> |s.seats[Cyc(s.n, s.current, j)].cards| == 0
  {
    if TrickCloses(s) then CloseTurn(s, perm)
    else Step(s.(current := NextSeat(HolderFlags(s.seats), s.current)), Ok)
  }

  /** A card accepted by play leaves the hand at its position and joins the
      pile; the trick then closes (the pile is emptied) exactly under the
      three conditions, and is then counted, awarded and settled or rewound
      by close_turn; otherwise the next seat holding cards plays. */
  lemma PlayClosesTrickExactly(s: GameState, pid: int, index: int, perm: seq<int>)
    requires Inv(s) && IsPermutation(perm, 52)
    requires InPlayTurn(s) && pid == s.current && s.seats[pid].lives > 0
    requires PyIndex(index, |s.seats[pid].cards|).Some?
    ensures var i := PyIndex(index, |s.seats[pid].cards|).value;
      var p := PlayCard(s, pid, i);
      var r := PlayStep(s, pid, index, perm);
      && (TrickCloses(p) <==> r.state.played == [])
      && (TrickCloses(p) ==> r == CloseTurn(p, perm))
      && (!TrickCloses(p) ==>
            && r.status == Ok
            && r.state.played == s.played + [s.seats[pid].cards[i]]
            && r.state.seats[pid].cards == RemoveAt(s.seats[pid].cards, i)
            && r.state.seats == s.seats[pid := r.state.seats[pid]]
            && |r.state.seats[r.state.current].cards| > 0
            && forall j :: 1 <= j < Offset(s.n, pid, r.state.current) ==> |p.seats[Cyc(s.n, pid, j)].cards| == 0)
  {
  }

  /** Three players with 3, 3 and 1 lives, dealer 0, in the second of the
      gameturn's three tricks: seat 2 won the first trick with its only card,
      seat 0 has led the second and holds one card, seat 1 holds two and is
      to play. The 44 cards left in the deck are not drawn during play, so
      the deck is left empty here. */
  const RunOutState: GameState := GameState(
    3, [Seat(3, [Card(4, Hearts, Some(0))]), Seat(3, [Card(5, Hearts, Some(1)), Card(6, Hearts, Some(1))]), Seat(1, [])],
    0, 1, 1, Some(Card(8, Clubs, None)), 3, 1, Some(Play), 1, [2, 1, 1], [0, 0, 1], [Card(7, Hearts, Some(0))], [])

  /** next_player_is_dealer looks only at the seat right after the current
      player. After seat 1 plays, that seat is 2, which holds no card, so
      the trick stays open and passes to seat 0, the dealer, who has already
      played in it: the dealer puts a second card into the same trick. */
  lemma AsWrittenDealerPlaysTwice()
    ensures Inv(RunOutState) && IsPermutation(seq(52, i => i), 52)
    ensures var r := PlayStep(RunOutState, 1, 0, seq(52, i => i));
      && r.status == Ok
      && r.state.played == [Card(7, Hearts, Some(0)), Card(5, Hearts, Some(1))]
      && r.state.current == RunOutState.dealer
      && |r.state.seats[RunOutState.dealer].cards| > 0
  {
    RunOutStateValid();
    var s := RunOutState;
    assert RemoveAt(s.seats[1].cards, 0) == [Card(6, Hearts, Some(1))];
    var p := PlayCard(s, 1, 0);
    RunOutPlayOpen(p);
  }

  lemma RunOutStateValid()
    ensures Inv(RunOutState) && Started(RunOutState) && InPlayTurn(RunOutState)
    ensures IsPermutation(seq(52, i => i), 52)
  {
    var s := RunOutState;
    assert Owned(s.seats[0].cards, 0) && Owned(s.seats[1].cards, 1) && Owned(s.seats[2].cards, 2);
  }

  /** After seat 1's card the trick stays open and seat 0 is next. */
  lemma RunOutPlayOpen(p: GameState)
    requires p == RunOutState.(seats := RunOutState.seats[1 := Seat(3, [Card(6, Hearts, Some(1))])],
      played := RunOutState.played + [Card(5, Hearts, Some(1))])
    ensures 0 <= p.current < |p.seats| && !TrickCloses(p)
    ensures true in HolderFlags(p.seats) && NextSeat(HolderFlags(p.seats), p.current) == 0
  {
    assert HolderFlags(p.seats) == [true, true, false];
    assert CountTrue([true, true, false]) == 2;
    assert NextOffset([true, true, false], 1, 1) == 2;
  }
}
