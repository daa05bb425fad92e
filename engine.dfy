/** The objects of app.py with their lists updated in place: the deck
    (class Deck), a player (class Player) and the table of a game (class
    Game). Each method changes its objects as the functions of `Rules` and
    `Turn` say, so what is proved there holds of the objects. */
module Engine {
  import opened Options
  import opened Lists
  import opened Cards
  import opened Tokens
  import opened Rules
  import opened Turn

  class Deck {
    /** The cards still to be dealt; the top of the deck is the end. */
    var cards: seq<Card>

    /** A deck holding the 52 cards in the order `shuffled`, which stands
        for the outcome of `random.shuffle` (app.py:21-23). */
    constructor(shuffled: seq<Card>)
      requires multiset(shuffled) == multiset(FullDeck())
      ensures cards == shuffled
    {
      cards := shuffled;
    }

    /** `draw`: pops and returns the top card, or returns nothing and leaves an
        empty deck as it is (app.py:25-26). */
    method Draw() returns (c: Option<Card>)
      modifies this
      ensures old(cards) == [] ==> c == None && cards == []
      ensures old(cards) != [] ==> c == Some(old(cards)[|old(cards)| - 1]) && cards == old(cards)[..|old(cards)| - 1]
    {
      if cards == [] {
        c := None;
      } else {
        c := Some(Last(cards));
        cards := DropLast(cards);
      }
    }
  }

  /** `next((card for card in hand if card.value == card_value), None)`:
      the position of the first hand card the choice names, if any
      (app.py:63 and app.py:105). */
  method FindFirst(hand: seq<Card>, choice: Choice) returns (r: Option<nat>)
    ensures r == FirstWithValue(hand, choice)
  {
    var i := 0;
    while i < |hand|
      invariant i <= |hand|
      invariant forall j :: 0 <= j < i ==> !Names(choice, hand[j].value)
    {
      if Names(choice, hand[i].value) {
        return Some(i);
      }
      i := i + 1;
    }
    return None;
  }

  class Player {
    const name: string
    var hand: seq<Card>
    var tableCards: seq<Card>
    var secretCards: seq<Card>

    /** A player with no cards (app.py:29-33). */
    constructor(name: string)
      ensures this.name == name && hand == [] && tableCards == [] && secretCards == []
    {
      this.name := name;
      hand := [];
      tableCards := [];
      secretCards := [];
    }

    /** The player's three lists as a value. */
    function Seat(): Seat
      reads this
    {
      Turn.Seat(hand, tableCards, secretCards)
    }

    /** `initial_draw`: six draws from the deck into the hand, in the order
        they are popped (app.py:35-37). */
    method InitialDraw(deck: Deck)
      requires |deck.cards| >= 6
      modifies this, deck
      ensures hand == old(hand) + Popped(old(deck.cards), 6)
      ensures deck.cards == old(deck.cards)[..|old(deck.cards)| - 6]
      ensures tableCards == old(tableCards) && secretCards == old(secretCards)
    {
      ghost var d0 := deck.cards;
      for i := 0 to 6
        invariant deck.cards == d0[..|d0| - i]
        invariant hand == old(hand) + Popped(d0, i)
        invariant tableCards == old(tableCards) && secretCards == old(secretCards)
      {
        var c := deck.Draw();
        PoppedStep(d0, i);
        hand := hand + [c.value];
      }
    }

    /** `draw`: takes cards from the deck until the hand holds three or the
        deck is empty (app.py:39-41). */
    method Draw(deck: Deck)
      modifies this, deck
      ensures var n := TopUpCount(|old(hand)|, |old(deck.cards)|);
        hand == old(hand) + Popped(old(deck.cards), n) &&
        deck.cards == old(deck.cards)[..|old(deck.cards)| - n]
      ensures tableCards == old(tableCards) && secretCards == old(secretCards)
    {
      ghost var d0 := deck.cards;
      ghost var k := 0;
      while |hand| < 3 && deck.cards != []
        invariant k <= |d0|
        invariant deck.cards == d0[..|d0| - k]
        invariant hand == old(hand) + Popped(d0, k)
        invariant k == 0 || |old(hand)| + k <= 3
        invariant tableCards == old(tableCards) && secretCards == old(secretCards)
        decreases |deck.cards|
      {
        var c := deck.Draw();
        PoppedStep(d0, k);
        hand := hand + [c.value];
        k := k + 1;
      }
    }

    /** One accepted pass of the selection loop of `choose_table_cards`: the
        first hand card the choice names moves to the end of the table cards,
        and a choice naming no hand card moves nothing (app.py:63-69). */
    method ChooseTableCard(choice: Choice) returns (moved: bool)
      modifies this
      ensures var s := SelectTable(old(hand), old(tableCards), choice);
        hand == s.hand && tableCards == s.table && moved == s.moved
      ensures secretCards == old(secretCards)
    {
      var i := FindFirst(hand, choice);
      if i.None? {
        return false;
      }
      var card := hand[i.value];
      hand := Removed(hand, card);
      tableCards := tableCards + [card];
      return true;
    }

    /** `valid_cards`: the hand cards that may go on `pile` (app.py:80-81). */
    method ValidHandCards(pile: seq<Card>) returns (valid: seq<Card>)
      ensures valid == ValidCards(hand, pile)
    {
      valid := [];
      for i := 0 to |hand|
        invariant valid == ValidCards(hand[..i], pile)
      {
        ValidCardsAppend(hand[..i], [hand[i]], pile);
        assert hand[..i + 1] == hand[..i] + [hand[i]];
        if IsValid(hand[i], pile) {
          valid := valid + [hand[i]];
        }
      }
      assert hand[..|hand|] == hand;
    }

    /** One pass of `play_card` with the given choice (app.py:77-113). The
        pile list, which the method clears in place on a pickup, comes back
        as `pileAfter`. */
    method PlayCard(pile: seq<Card>, deck: Deck, choice: Choice) returns (result: PlayResult, pileAfter: seq<Card>)
      modifies this, deck
      ensures var st := Play(old(hand), pile, old(deck.cards), choice);
        result == st.result && hand == st.hand && pileAfter == st.pile && deck.cards == st.deck
      ensures tableCards == old(tableCards) && secretCards == old(secretCards)
    {
      var valid := ValidHandCards(pile);
      if valid == [] {
        hand := hand + pile;
        return PickedUp, [];
      }
      pileAfter := pile;
      var i := FindFirst(hand, choice);
      if i.None? || hand[i.value] !in valid {
        return Reprompt, pileAfter;
      }
      var card := hand[i.value];
      hand := Removed(hand, card);
      if deck.cards != [] {
        var drawn := deck.Draw();
        hand := hand + [drawn.value];
      }
      result := Played(card);
    }

    /** With hand and table cards used up, the last secret card goes into the
        hand (app.py:138-139 and app.py:187-188). */
    method RevealSecret()
      modifies this
      ensures Seat() == Reveal(old(Seat()))
    {
      if hand == [] && tableCards == [] && secretCards != [] {
        hand := hand + [Last(secretCards)];
        secretCards := DropLast(secretCards);
      }
    }
  }

  class Game {
    var players: seq<Player>
    const deck: Deck
    var pile: seq<Card>
    var upperLimit: Option<int>

    /** A game for the given names, dealt from the deck order `shuffled`
        (app.py:119-123). */
    constructor(names: seq<string>, shuffled: seq<Card>)
      requires multiset(shuffled) == multiset(FullDeck())
      ensures |players| == |names|
      ensures forall i :: 0 <= i < |names| ==>
        fresh(players[i]) && players[i].name == names[i] && players[i].Seat() == Turn.Seat([], [], [])
      ensures fresh(deck) && deck.cards == shuffled && pile == [] && upperLimit == None
    {
      var ps: seq<Player> := [];
      for i := 0 to |names|
        invariant |ps| == i
        invariant forall j :: 0 <= j < i ==>
          fresh(ps[j]) && ps[j].name == names[j] && ps[j].Seat() == Turn.Seat([], [], [])
      {
        var p := new Player(names[i]);
        ps := ps + [p];
      }
      players := ps;
      deck := new Deck(shuffled);
      pile := [];
      upperLimit := None;
    }

    /** The state a pass of the turn loop reads and writes, for player `p`. */
    function BoardOf(p: Player, skipNext: bool): Board
      reads this, p, deck
    {
      Board(p.Seat(), deck.cards, pile, upperLimit, skipNext)
    }

    /** One pass of the `while True` loop of `start` for player `p` with the
        given choice (app.py:137-197). `skipNext` is the loop's `skip_next`
        flag, returned updated. A player removed after a 10 leaves `players`
        but keeps the turn, so the pass also runs for a player no longer in
        `players`; such a player holds no card and can only pick up. */
    method TurnAttempt(p: Player, choice: Choice, skipNext: bool) returns (o: Outcome, skipNextAfter: bool)
      requires p in players || Exhausted(p.Seat())
      modifies this, p, deck
      ensures var st := Attempt(old(BoardOf(p, skipNext)), choice);
        BoardOf(p, skipNextAfter) == st.board && o == st.outcome
      ensures players == if o.Burned? && o.out then Removed(old(players), p) else old(players)
    {
      ghost var b0 := BoardOf(p, skipNext);
      p.RevealSecret();
      ghost var st := Play(p.hand, pile, deck.cards, choice);
      var card;
      card, pile := p.PlayCard(pile, deck, choice);
      assert BoardOf(p, skipNext) == Moved(b0, st);
      assert Attempt(b0, choice) == Apply(b0, st);
      match card
      case Reprompt =>
        o, skipNextAfter := Reprompted, skipNext;
      case PickedUp =>
        p.hand := p.hand + pile;
        pile := [];
        o, skipNextAfter := TookPile, skipNext;
      case Played(c) =>
        if upperLimit.Some? && c.value > upperLimit.value && c.value != 3 {
          o, skipNextAfter := OverCeiling(c), skipNext;
        } else {
          assert p in players;
          o, skipNextAfter := Accept(p, c, skipNext);
        }
    }

    /** The rest of the pass once `c` has passed the ceiling guard: it goes on
        the pile and takes effect by its value; after a 10 the player's last
        secret card is revealed and a player left without cards is removed
        (app.py:153-197). */
    method Accept(p: Player, c: Card, skipNext: bool) returns (o: Outcome, skipNextAfter: bool)
      requires p in players
      modifies this, p
      ensures var st := Resolve(Placed(old(BoardOf(p, skipNext)), c), c);
        BoardOf(p, skipNextAfter) == st.board && o == st.outcome
      ensures players == if o.Burned? && o.out then Removed(old(players), p) else old(players)
    {
      skipNextAfter := skipNext;
      pile := pile + [c];
      var keepTurn := false;
      if c.value == 10 {
        pile := [];
        keepTurn := true;
      } else if c.value == 8 {
        skipNextAfter := true;
        upperLimit := None;
        return TurnOver(c), skipNextAfter;
      } else if c.value == 7 {
        upperLimit := Some(7);
        return TurnOver(c), skipNextAfter;
      } else if c.value == 2 {
        pile := [c];
        upperLimit := None;
        return TurnOver(c), skipNextAfter;
      } else if c.value == 3 {
        if |pile| >= 2 {
          pile := pile[|pile| - 1 := pile[|pile| - 2]];
        }
        upperLimit := None;
        return TurnOver(c), skipNextAfter;
      } else {
        upperLimit := None;
        return TurnOver(c), skipNextAfter;
      }
      p.RevealSecret();
      var out := p.hand == [] && p.tableCards == [] && p.secretCards == [];
      if out {
        players := Removed(players, p);
      }
      assert keepTurn;
      o := Burned(c, out);
    }
  }
}
