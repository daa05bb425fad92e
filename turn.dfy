/** One pass of the `while True` loop of `Game.start` for the current player
    (app.py:137-197), and the `skip_next` test before a player's turn
    (app.py:134-136), as functions of the game's state. `Engine.Game` runs
    the same pass on its objects. */
module Turn {
  import opened Options
  import opened Lists
  import opened Cards
  import opened Tokens
  import opened Rules

  /** A player's three card lists. */
  datatype Seat = Seat(hand: seq<Card>, table: seq<Card>, secret: seq<Card>)

  /** A player with no cards anywhere (app.py:190). */
  predicate Exhausted(s: Seat)
  {
    s.hand == [] && s.table == [] && s.secret == []
  }

  function SeatCards(s: Seat): multiset<Card>
  {
    multiset(s.hand) + multiset(s.table) + multiset(s.secret)
  }

  /** With hand and table cards used up, the last secret card is turned into
      the hand (app.py:138-139 and app.py:187-188). */
  function Reveal(s: Seat): Seat
  {
    if s.hand == [] && s.table == [] && s.secret != [] then
      s.(hand := s.hand + [Last(s.secret)], secret := DropLast(s.secret))
    else s
  }

  /** Revealing moves exactly one secret card into the hand when hand and table
      are empty, does nothing otherwise, and never loses a card. */
  lemma RevealMovesOneSecret(s: Seat)
    ensures SeatCards(Reveal(s)) == SeatCards(s)
    ensures Exhausted(Reveal(s)) == Exhausted(s)
    ensures s.hand == [] && s.table == [] && s.secret != [] ==>
      Reveal(s).hand == [s.secret[|s.secret| - 1]] && Reveal(s).secret == s.secret[..|s.secret| - 1] &&
      Reveal(s).table == []
    ensures !(s.hand == [] && s.table == [] && s.secret != []) ==> Reveal(s) == s
  {
    if s.hand == [] && s.table == [] && s.secret != [] {
      assert s.secret == DropLast(s.secret) + [Last(s.secret)];
    }
  }

  /** The state one pass reads and writes: the current player's lists, the
      deck, the pile, the 7's ceiling `upper_limit` and the `skip_next` flag. */
  datatype Board = Board(seat: Seat, deck: seq<Card>, pile: seq<Card>, upperLimit: Option<int>, skipNext: bool)

  function CardsIn(b: Board): multiset<Card>
  {
    SeatCards(b.seat) + multiset(b.deck) + multiset(b.pile)
  }

  /** How a pass ends. `Reprompted`: the choice was turned down and the player
      is asked again. `TookPile`: the player took the pile and goes again.
      `OverCeiling`: the card was above the ceiling and the player goes again.
      `Burned`: a 10 cleared the pile, `out` says whether the player was
      removed, and the player goes again. `TurnOver`: the turn passes on. */
  datatype Outcome =
    | Reprompted
    | TookPile
    | OverCeiling(card: Card)
    | Burned(card: Card, out: bool)
    | TurnOver(card: Card)

  /** The same player runs the loop body again. */
  predicate KeepsTurn(o: Outcome)
  {
    !o.TurnOver?
  }

  datatype Step = Step(board: Board, outcome: Outcome)

  /** A card above a set ceiling is turned down, except a 3 (app.py:149). */
  predicate OverLimit(limit: Option<int>, c: Card)
  {
    limit.Some? && c.value > limit.value && c.value != 3
  }

  /** One pass of the turn loop with the given choice (app.py:138-153). */
  function Attempt(b: Board, choice: Choice): Step
  {
    Apply(b, Play(Reveal(b.seat).hand, b.pile, b.deck, choice))
  }

  /** The rest of the pass once the secret card is revealed and `play_card`
      has returned `st` (app.py:142-153). */
  function Apply(b: Board, st: PlayStep): Step
  {
    var seat := Reveal(b.seat);
    var after := b.(seat := seat.(hand := st.hand), deck := st.deck, pile := st.pile);
    match st.result
    case Reprompt => Step(after, Reprompted)
    case PickedUp =>
      Step(after.(seat := after.seat.(hand := after.seat.hand + after.pile), pile := []), TookPile)
    case Played(c) =>
      if OverLimit(b.upperLimit, c) then Step(after, OverCeiling(c))
      else Resolve(Placed(after, c), c)
  }

  /** `b` once `c` is put on its pile (app.py:153). */
  function Placed(b: Board, c: Card): Board
  {
    b.(pile := b.pile + [c])
  }

  /** The effect of an accepted card, already on top of the pile, chosen by
      its value (app.py:157-197). */
  function Resolve(b: Board, c: Card): Step
  {
    if c.value == 10 then
      var seat := Reveal(b.seat);
      Step(b.(seat := seat, pile := []), Burned(c, Exhausted(seat)))
    else if c.value == 8 then Step(b.(skipNext := true, upperLimit := None), TurnOver(c))
    else if c.value == 7 then Step(b.(upperLimit := Some(7)), TurnOver(c))
    else if c.value == 2 then Step(b.(pile := [c], upperLimit := None), TurnOver(c))
    else if c.value == 3 then
      var p := b.pile;
      Step(b.(pile := if |p| >= 2 then p[|p| - 1 := p[|p| - 2]] else p, upperLimit := None), TurnOver(c))
    else Step(b.(upperLimit := None), TurnOver(c))
  }

  datatype SkipStep = SkipStep(skipped: bool, skipNext: bool)

  /** A set `skip_next` passes over the player whose turn it is and is cleared
      (app.py:134-136). */
  function SkipCheck(skipNext: bool): (r: SkipStep)
    ensures r.skipped == skipNext && !r.skipNext
  {
    if skipNext then SkipStep(true, false) else SkipStep(false, skipNext)
  }

  /** The card a pass accepted onto the pile, if any. */
  function Accepted(o: Outcome): Option<Card>
  {
    match o
    case Burned(c, _) => Some(c)
    case TurnOver(c) => Some(c)
    case _ => None
  }

  /** Which card a pass accepts, and the ceiling guard: a card above a set
      ceiling (other than a 3) is never accepted, it is taken from the hand
      but not put on the pile, and only such a card is turned down this way. */
  lemma CeilingGuard(b: Board, choice: Choice)
    ensures var st := Attempt(b, choice);
      var played := Play(Reveal(b.seat).hand, b.pile, b.deck, choice).result;
      (st.outcome.OverCeiling? <==> played.Played? && OverLimit(b.upperLimit, played.card)) &&
      (Accepted(st.outcome).Some? <==> played.Played? && !OverLimit(b.upperLimit, played.card)) &&
      (st.outcome.OverCeiling? ==>
        (st.outcome.card == played.card && st.board.pile == b.pile &&
         st.board.upperLimit == b.upperLimit && st.board.skipNext == b.skipNext)) &&
      (Accepted(st.outcome).Some? ==> Accepted(st.outcome).value == played.card)
  {
  }

  /** How the ceiling moves: an accepted 7 sets it to 7, any other accepted card
      except a 10 clears it, and nothing else touches it. */
  lemma CeilingUpdates(b: Board, choice: Choice)
    ensures var st := Attempt(b, choice);
      (st.outcome.TurnOver? ==>
        st.board.upperLimit == if st.outcome.card.value == 7 then Some(7) else None) &&
      (!st.outcome.TurnOver? ==> st.board.upperLimit == b.upperLimit)
  {
  }

  /** With the ceiling at 7 no 10 can be accepted, so a burn never happens
      under the ceiling. */
  lemma NoBurnUnderSeven(b: Board, choice: Choice)
    requires b.upperLimit == Some(7)
    ensures !Attempt(b, choice).outcome.Burned?
  {
  }

  /** A 10 empties the pile, the same player goes again, and the player is
      removed exactly when they hold no card after the reveal. */
  lemma TenBurns(b: Board, choice: Choice)
    ensures var st := Attempt(b, choice);
      st.outcome.Burned? ==>
        st.outcome.card.value == 10 && st.board.pile == [] && KeepsTurn(st.outcome) &&
        st.outcome.out == Exhausted(st.board.seat) &&
        st.board.skipNext == b.skipNext && st.board.upperLimit == b.upperLimit
  {
  }

  /** What each accepted card other than a 10 leaves on the pile: a 2 leaves
      itself alone, a 3 copies the card beneath it over itself, and every other
      value is simply added on top. */
  lemma PileAfterPlay(b: Board, choice: Choice)
    ensures var st := Attempt(b, choice);
      st.outcome.TurnOver? ==>
        var c := st.outcome.card;
        var p := st.board.pile;
        (c.value == 10 ==> false) &&
        (c.value == 2 ==> p == [c]) &&
        (c.value == 3 && b.pile != [] ==>
          |p| == |b.pile| + 1 && p[..|b.pile|] == b.pile && p[|p| - 1] == b.pile[|b.pile| - 1]) &&
        (c.value == 3 && b.pile == [] ==> p == [c]) &&
        (c.value != 2 && c.value != 3 ==> p == b.pile + [c])
  {
    var st := Attempt(b, choice);
    if st.outcome.TurnOver? && st.outcome.card.value == 3 && b.pile != [] {
      var p := st.board.pile;
      assert p == (b.pile + [st.outcome.card])[|b.pile| := b.pile[|b.pile| - 1]];
      assert p[..|b.pile|] == b.pile;
    }
  }

  /** An 8 sets `skip_next`: exactly the next player's turn is passed over and
      the flag is then clear, so the player after that plays. Only an 8 sets
      the flag. */
  lemma EightSkipsNext(b: Board, choice: Choice)
    ensures var st := Attempt(b, choice);
      var isEight := st.outcome.TurnOver? && st.outcome.card.value == 8;
      st.board.skipNext == (b.skipNext || isEight) &&
      (isEight ==>
        st.board.upperLimit == None &&
        SkipCheck(st.board.skipNext).skipped &&
        !SkipCheck(st.board.skipNext).skipNext &&
        !SkipCheck(SkipCheck(st.board.skipNext).skipNext).skipped)
  {
  }

  /** With no valid card the player takes the pile into the hand, the pile is
      left empty, the same player goes again, and nothing else changes. */
  lemma PickupKeepsTurn(b: Board, choice: Choice)
    ensures var st := Attempt(b, choice);
      var seat := Reveal(b.seat);
      (st.outcome.TookPile? <==> forall c :: c in seat.hand ==> !IsValid(c, b.pile)) &&
      (st.outcome.TookPile? ==>
        KeepsTurn(st.outcome) && st.board.pile == [] && st.board.seat.hand == seat.hand + b.pile &&
        st.board.seat.table == seat.table && st.board.seat.secret == seat.secret &&
        st.board.deck == b.deck && st.board.upperLimit == b.upperLimit && st.board.skipNext == b.skipNext)
  {
    var seat := Reveal(b.seat);
    PlayPicksUp(seat.hand, b.pile, b.deck, choice);
  }

  /** Where every card goes in a pass that started from `b`. A turned-down
      choice, a pickup and most plays only move cards. A card above the
      ceiling is lost. A 10 takes itself and the pile out of the game. A 2
      drops the old pile. A 3 on a non-empty pile is replaced by a second copy
      of the card under it. */
  predicate Accounted(b: Board, st: Step)
  {
    var after := CardsIn(st.board);
    match st.outcome
    case Reprompted => after == CardsIn(b)
    case TookPile => after == CardsIn(b)
    case OverCeiling(c) => after + multiset{c} == CardsIn(b)
    case Burned(c, _) => after + multiset(b.pile) + multiset{c} == CardsIn(b)
    case TurnOver(c) =>
      if c.value == 2 then after + multiset(b.pile) == CardsIn(b)
      else if c.value == 3 && b.pile != [] then after + multiset{c} == CardsIn(b) + multiset{b.pile[|b.pile| - 1]}
      else after == CardsIn(b)
  }

  /** Every pass accounts for its cards as `Accounted` says. */
  lemma AttemptAccounting(b: Board, choice: Choice)
    ensures Accounted(b, Attempt(b, choice))
  {
    var hand := Reveal(b.seat).hand;
    var st := Play(hand, b.pile, b.deck, choice);
    PlayConserves(hand, b.pile, b.deck, choice);
    PlayPicksUp(hand, b.pile, b.deck, choice);
    PlayPlays(hand, b.pile, b.deck, choice);
    PlayReprompts(hand, b.pile, b.deck, choice);
    ApplyAccounting(b, st);
  }

  /** `play_card`, called on the hand after the reveal, only moved cards and
      the one it returned, took the pile on a pickup and left it alone
      otherwise. */
  predicate PlayMoves(b: Board, st: PlayStep)
  {
    var seat := Reveal(b.seat);
    multiset(seat.hand) + multiset(b.pile) + multiset(b.deck) ==
      multiset(st.hand) + multiset(st.pile) + multiset(st.deck) +
      (if st.result.Played? then multiset{st.result.card} else multiset{}) &&
    (st.result.PickedUp? ==> st.pile == []) &&
    (!st.result.PickedUp? ==> st.pile == b.pile)
  }

  /** The rest of the pass accounts for its cards whenever `play_card` did. */
  lemma ApplyAccounting(b: Board, st: PlayStep)
    requires PlayMoves(b, st)
    ensures Accounted(b, Apply(b, st))
  {
    if !st.result.Played? {
      NoPlayAccounting(b, st);
    } else if OverLimit(b.upperLimit, st.result.card) {
      OverCeilingAccounting(b, st);
    } else {
      AcceptedAccounting(b, st);
    }
  }

  lemma NoPlayAccounting(b: Board, st: PlayStep)
    requires PlayMoves(b, st) && !st.result.Played?
    ensures Accounted(b, Apply(b, st))
  {
    var mid := Moved(b, st);
    MovedConserves(b, st);
    if st.result.Reprompt? {
      assert Apply(b, st) == Step(mid, Reprompted);
    } else {
      PickupAccounting(b, st);
    }
  }

  lemma PickupAccounting(b: Board, st: PlayStep)
    requires PlayMoves(b, st) && st.result.PickedUp?
    ensures Accounted(b, Apply(b, st))
  {
    var mid := Moved(b, st);
    MovedConserves(b, st);
    var r := Apply(b, st);
    assert r.board == mid.(seat := mid.seat.(hand := mid.seat.hand + []), pile := []);
    assert mid.seat.hand + [] == mid.seat.hand;
    assert r.outcome == TookPile;
    assert CardsIn(r.board) == CardsIn(mid);
  }

  lemma OverCeilingAccounting(b: Board, st: PlayStep)
    requires PlayMoves(b, st) && st.result.Played? && OverLimit(b.upperLimit, st.result.card)
    ensures Accounted(b, Apply(b, st))
  {
    MovedConserves(b, st);
    assert Apply(b, st) == Step(Moved(b, st), OverCeiling(st.result.card));
  }

  lemma AcceptedAccounting(b: Board, st: PlayStep)
    requires PlayMoves(b, st) && st.result.Played? && !OverLimit(b.upperLimit, st.result.card)
    ensures Accounted(b, Apply(b, st))
  {
    var c := st.result.card;
    if c.value == 10 {
      TenAccounting(b, st);
    } else if c.value == 2 {
      TwoAccounting(b, st);
    } else if c.value == 3 && b.pile != [] {
      ThreeAccounting(b, st);
    } else {
      OtherAccounting(b, st);
    }
  }

  lemma TenAccounting(b: Board, st: PlayStep)
    requires PlayMoves(b, st) && st.result.Played? && !OverLimit(b.upperLimit, st.result.card)
    requires st.result.card.value == 10
    ensures Accounted(b, Apply(b, st))
  {
    var mid, c := Moved(b, st), st.result.card;
    AcceptedStep(b, st);
    var r := Resolve(Placed(mid, c), c);
    PlacedTen(mid, c);
    assert r.outcome == Burned(c, r.outcome.out);
    assert CardsIn(r.board) + multiset(b.pile) + multiset{c} == CardsIn(b);
  }

  lemma TwoAccounting(b: Board, st: PlayStep)
    requires PlayMoves(b, st) && st.result.Played? && !OverLimit(b.upperLimit, st.result.card)
    requires st.result.card.value == 2
    ensures Accounted(b, Apply(b, st))
  {
    var mid, c := Moved(b, st), st.result.card;
    AcceptedStep(b, st);
    var r := Resolve(Placed(mid, c), c);
    PlacedTwo(mid, c);
    assert r.outcome == TurnOver(c);
    assert CardsIn(r.board) + multiset(b.pile) == CardsIn(b);
  }

  lemma ThreeAccounting(b: Board, st: PlayStep)
    requires PlayMoves(b, st) && st.result.Played? && !OverLimit(b.upperLimit, st.result.card)
    requires st.result.card.value == 3 && b.pile != []
    ensures Accounted(b, Apply(b, st))
  {
    AcceptedStep(b, st);
    ThreeResolved(b, Moved(b, st), st.result.card);
  }

  lemma ThreeResolved(b: Board, mid: Board, c: Card)
    requires c.value == 3 && b.pile != [] && mid.pile == b.pile
    requires CardsIn(b) == CardsIn(mid) + multiset{c}
    ensures Accounted(b, Resolve(Placed(mid, c), c))
  {
    var t := b.pile[|b.pile| - 1];
    var r := Resolve(Placed(mid, c), c);
    PlacedThree(mid, c);
    assert r.outcome == TurnOver(c);
    calc {
      CardsIn(r.board) + multiset{c};
      CardsIn(mid) + multiset{c} + multiset{t};
      CardsIn(b) + multiset{t};
    }
  }

  lemma OtherAccounting(b: Board, st: PlayStep)
    requires PlayMoves(b, st) && st.result.Played? && !OverLimit(b.upperLimit, st.result.card)
    requires st.result.card.value != 10 && st.result.card.value != 2 && !(st.result.card.value == 3 && b.pile != [])
    ensures Accounted(b, Apply(b, st))
  {
    AcceptedStep(b, st);
    OtherResolved(b, Moved(b, st), st.result.card);
  }

  lemma OtherResolved(b: Board, mid: Board, c: Card)
    requires c.value != 10 && c.value != 2 && !(c.value == 3 && b.pile != []) && mid.pile == b.pile
    requires CardsIn(b) == CardsIn(mid) + multiset{c}
    ensures Accounted(b, Resolve(Placed(mid, c), c))
  {
    var r := Resolve(Placed(mid, c), c);
    PlacedOther(mid, c);
    assert r.outcome == TurnOver(c);
    assert CardsIn(r.board) == CardsIn(b);
  }

  /** An accepted card: the pass is `Resolve` of the card placed on the board
      `play_card` left, which lacks only that card and still has the old pile. */
  lemma AcceptedStep(b: Board, st: PlayStep)
    requires PlayMoves(b, st) && st.result.Played? && !OverLimit(b.upperLimit, st.result.card)
    ensures var mid, c := Moved(b, st), st.result.card;
      Apply(b, st) == Resolve(Placed(mid, c), c) && mid.pile == b.pile &&
      CardsIn(b) == CardsIn(mid) + multiset{c}
  {
    MovedConserves(b, st);
  }

  /** The board once the secret card is revealed and `play_card` has returned `st`. */
  function Moved(b: Board, st: PlayStep): Board
  {
    var seat := Reveal(b.seat);
    b.(seat := seat.(hand := st.hand), deck := st.deck, pile := st.pile)
  }

  /** If `play_card` only moved cards and the one it returned, so does the board. */
  lemma MovedConserves(b: Board, st: PlayStep)
    requires PlayMoves(b, st)
    ensures CardsIn(b) == CardsIn(Moved(b, st)) + (if st.result.Played? then multiset{st.result.card} else multiset{})
  {
    var seat := Reveal(b.seat);
    RevealMovesOneSecret(b.seat);
    var mid := Moved(b, st);
    var x := if st.result.Played? then multiset{st.result.card} else multiset{};
    forall o ensures CardsIn(b)[o] == (CardsIn(mid) + x)[o] {
      assert SeatCards(b.seat)[o] == SeatCards(seat)[o];
      assert (multiset(seat.hand) + multiset(b.pile) + multiset(b.deck))[o] ==
        (multiset(st.hand) + multiset(st.pile) + multiset(st.deck) + x)[o];
    }
  }

  /** A 10 takes the pile, itself included, out of the game. */
  lemma PlacedTen(b: Board, c: Card)
    requires c.value == 10
    ensures CardsIn(Resolve(Placed(b, c), c).board) + multiset(b.pile) == CardsIn(b)
  {
    RevealMovesOneSecret(b.seat);
    assert Resolve(Placed(b, c), c).board == b.(seat := Reveal(b.seat), pile := []);
  }

  /** A 2 takes the pile under it out of the game. */
  lemma PlacedTwo(b: Board, c: Card)
    requires c.value == 2
    ensures CardsIn(Resolve(Placed(b, c), c).board) + multiset(b.pile) == CardsIn(b) + multiset{c}
  {
    var after := Resolve(Placed(b, c), c).board;
    assert after.pile == [c] && after.seat == b.seat && after.deck == b.deck;
    forall o ensures (CardsIn(after) + multiset(b.pile))[o] == (CardsIn(b) + multiset{c})[o] {
      assert multiset(after.pile)[o] == multiset{c}[o];
    }
  }

  /** A 3 on a non-empty pile leaves a second copy of the top card instead
      of itself. */
  lemma PlacedThree(b: Board, c: Card)
    requires c.value == 3 && b.pile != []
    ensures CardsIn(Resolve(Placed(b, c), c).board) + multiset{c} == CardsIn(b) + multiset{c} + multiset{b.pile[|b.pile| - 1]}
  {
    var t := b.pile[|b.pile| - 1];
    var p := Placed(b, c).pile;
    var after := Resolve(Placed(b, c), c).board;
    assert p[|p| - 2] == t;
    assert after.pile == b.pile + [t] && after.seat == b.seat && after.deck == b.deck;
    forall o ensures (CardsIn(after) + multiset{c})[o] == (CardsIn(b) + multiset{c} + multiset{t})[o] {
      assert multiset(after.pile)[o] == (multiset(b.pile) + multiset{t})[o];
    }
  }

  /** Every other accepted card simply stays on the pile. */
  lemma PlacedOther(b: Board, c: Card)
    requires c.value != 10 && c.value != 2 && !(c.value == 3 && b.pile != [])
    ensures CardsIn(Resolve(Placed(b, c), c).board) == CardsIn(b) + multiset{c}
  {
    var after := Resolve(Placed(b, c), c).board;
    assert after.pile == b.pile + [c] && after.seat == b.seat && after.deck == b.deck;
    forall o ensures CardsIn(after)[o] == (CardsIn(b) + multiset{c})[o] {
      assert multiset(after.pile)[o] == (multiset(b.pile) + multiset{c})[o];
    }
  }

  /** A player with an empty hand, facing an empty pile, picks up the empty
      pile and goes again with nothing changed, as long as no secret card is
      revealed (table cards are left, or no secret cards are). Once such a
      player is in the loop it never ends. */
  lemma EmptyHandedPlayerLoops(b: Board, choice: Choice)
    requires b.seat.hand == [] && (b.seat.table != [] || b.seat.secret == []) && b.pile == []
    ensures Attempt(b, choice) == Step(b, TookPile)
  {
  }

  /** With the deck empty, a player whose last hand card is a 10 and who
      still has table cards burns the pile, is not removed and keeps the turn,
      and from then on picks up the empty pile on every pass. */
  lemma LastTenHangs(choice: Choice)
    ensures var ten, t1, t2, t3 := Card(Spades, 10), Card(Hearts, 4), Card(Clubs, 5), Card(Diamonds, 6);
      var st := Attempt(Board(Seat([ten], [t1, t2, t3], []), [], [t1], None, false), Number(10));
      st.outcome == Burned(ten, false) && KeepsTurn(st.outcome) &&
      st.board.seat.hand == [] && st.board.pile == [] &&
      Attempt(st.board, choice) == Step(st.board, TookPile)
  {
    var ten, t1, t2, t3 := Card(Spades, 10), Card(Hearts, 4), Card(Clubs, 5), Card(Diamonds, 6);
    var st := Attempt(Board(Seat([ten], [t1, t2, t3], []), [], [t1], None, false), Number(10));
    EmptyHandedPlayerLoops(st.board, choice);
  }

  /** With a 2 on the pile, a 7 sets the ceiling to 7, so a 9 played next is
      turned down: it leaves the hand, never reaches the pile, and the pile
      stays [2, 7]. */
  lemma NineAfterSevenIsLost()
    ensures var two, seven, nine := Card(Spades, 2), Card(Hearts, 7), Card(Clubs, 9);
      var st7 := Attempt(Board(Seat([seven, nine], [], []), [], [two], None, false), Number(7));
      var st9 := Attempt(st7.board, Number(9));
      st7.outcome == TurnOver(seven) && st7.board.pile == [two, seven] && st7.board.upperLimit == Some(7) &&
      st9.outcome == OverCeiling(nine) && st9.board.pile == [two, seven] && st9.board.seat.hand == []
  {
  }
}
