/** What a player does with their cards, as functions of the lists involved
    (app.py, class Player). The methods of `Engine.Player` change a player's
    lists exactly as these functions say. */
module Rules {
  import opened Options
  import opened Lists
  import opened Cards
  import opened Tokens

  /** A hand card may be played when the pile is empty, when it is at least
      the top card's value, or when it is a 2 or a 3 (app.py:80-81). */
  predicate IsValid(c: Card, pile: seq<Card>)
  {
    pile == [] || c.value >= Last(pile).value || c.value == 2 || c.value == 3
  }

  /** `valid_cards`: the hand cards that may be played, in hand order. */
  function ValidCards(hand: seq<Card>, pile: seq<Card>): (r: seq<Card>)
    ensures forall c :: c in r <==> c in hand && IsValid(c, pile)
    ensures |r| <= |hand|
  {
    if hand == [] then []
    else (if IsValid(hand[0], pile) then [hand[0]] else []) + ValidCards(hand[1..], pile)
  }

  /** The filter works card by card: filtering two stretches of a hand one
      after the other gives the filter of the whole. */
  lemma {:induction false} ValidCardsAppend(a: seq<Card>, b: seq<Card>, pile: seq<Card>)
    ensures ValidCards(a + b, pile) == ValidCards(a, pile) + ValidCards(b, pile)
  {
    if a == [] {
      assert a + b == b;
    } else {
      assert (a + b)[1..] == a[1..] + b;
      ValidCardsAppend(a[1..], b, pile);
    }
  }

  /** A 2, a 3, or any card on an empty pile always gives the player a move. */
  lemma SpecialCardsAlwaysPlayable(hand: seq<Card>, pile: seq<Card>, c: Card)
    requires c in hand
    requires c.value == 2 || c.value == 3 || pile == []
    ensures c in ValidCards(hand, pile)
  {
  }

  /** `next((card for card in hand if card.value == card_value), None)`, as
      a position in the hand. */
  function FirstWithValue(hand: seq<Card>, choice: Choice): (r: Option<nat>)
    ensures r.Some? ==> r.value < |hand| && Names(choice, hand[r.value].value)
    ensures r.Some? ==> forall j :: 0 <= j < r.value ==> !Names(choice, hand[j].value)
    ensures r.None? <==> forall j :: 0 <= j < |hand| ==> !Names(choice, hand[j].value)
  {
    if hand == [] then None
    else if Names(choice, hand[0].value) then Some(0)
    else
      match FirstWithValue(hand[1..], choice)
      case None => None
      case Some(i) => Some(i + 1)
  }

  /** Removing the first card with the chosen value removes it at the
      position where it was found. */
  lemma RemovedFirstWithValue(hand: seq<Card>, choice: Choice, i: nat)
    requires FirstWithValue(hand, choice) == Some(i)
    ensures Removed(hand, hand[i]) == hand[..i] + hand[i + 1..]
  {
    assert forall j :: 0 <= j < i ==> hand[j] != hand[i];
    RemovedAt(hand, i);
  }

  datatype Selection = Selection(hand: seq<Card>, table: seq<Card>, moved: bool)

  /** One accepted table-card choice: the first hand card with the chosen
      value moves to the end of the table cards; a value not in hand is
      turned down and nothing moves (app.py:63-69). */
  function SelectTable(hand: seq<Card>, table: seq<Card>, choice: Choice): Selection
  {
    match FirstWithValue(hand, choice)
    case None => Selection(hand, table, false)
    case Some(i) => Selection(Removed(hand, hand[i]), table + [hand[i]], true)
  }

  lemma SelectTableMoves(hand: seq<Card>, table: seq<Card>, choice: Choice)
    ensures var r := SelectTable(hand, table, choice);
      (r.moved <==> exists c :: c in hand && Names(choice, c.value)) &&
      (!r.moved ==> r.hand == hand && r.table == table) &&
      (r.moved ==>
        |r.hand| == |hand| - 1 && |r.table| == |table| + 1 && r.table[..|table|] == table &&
        multiset(r.hand) + multiset(r.table) == multiset(hand) + multiset(table) &&
        exists i :: 0 <= i < |hand| && hand[i] == Last(r.table) && Names(choice, hand[i].value) &&
          r.hand == hand[..i] + hand[i + 1..] &&
          forall j :: 0 <= j < i ==> !Names(choice, hand[j].value))
  {
    var r := SelectTable(hand, table, choice);
    match FirstWithValue(hand, choice)
    case None =>
      forall c | c in hand ensures !Names(choice, c.value) {
        var j :| 0 <= j < |hand| && hand[j] == c;
      }
    case Some(i) =>
      RemovedFirstWithValue(hand, choice, i);
      RemovedOne(hand, hand[i]);
      assert r.table[..|table|] == table;
  }

  /** What `play_card` returns: `None` after a pickup, the card played, or
      (one pass of its input loop) a choice turned down. */
  datatype PlayResult = PickedUp | Reprompt | Played(card: Card)

  datatype PlayStep = PlayStep(result: PlayResult, hand: seq<Card>, pile: seq<Card>, deck: seq<Card>)

  /** One pass of `play_card` with the given choice (app.py:80-113): with no
      valid card the hand takes the whole pile; otherwise the first hand card
      with the chosen value is played if it is valid, and one card is drawn
      when the deck is not empty. */
  function Play(hand: seq<Card>, pile: seq<Card>, deck: seq<Card>, choice: Choice): PlayStep
  {
    var valid := ValidCards(hand, pile);
    if valid == [] then PlayStep(PickedUp, hand + pile, [], deck)
    else
      match FirstWithValue(hand, choice)
      case None => PlayStep(Reprompt, hand, pile, deck)
      case Some(i) =>
        var card := hand[i];
        if card !in valid then PlayStep(Reprompt, hand, pile, deck)
        else
          var rest := Removed(hand, card);
          if deck != [] then PlayStep(Played(card), rest + [Last(deck)], pile, DropLast(deck))
          else PlayStep(Played(card), rest, pile, deck)
  }

  /** Without a valid card the player takes the whole pile and nothing else
      changes; with one, there is no pickup. */
  lemma PlayPicksUp(hand: seq<Card>, pile: seq<Card>, deck: seq<Card>, choice: Choice)
    ensures var st := Play(hand, pile, deck, choice);
      (st.result.PickedUp? <==> forall c :: c in hand ==> !IsValid(c, pile)) &&
      (st.result.PickedUp? ==> st.hand == hand + pile && st.pile == [] && st.deck == deck)
  {
    var valid := ValidCards(hand, pile);
    if valid != [] {
      assert valid[0] in valid;
    }
  }

  /** A played card is the first hand card with the chosen value and is
      valid; exactly that occurrence leaves the hand, the pile is untouched,
      and exactly one card is drawn iff the deck was not empty. */
  lemma PlayPlays(hand: seq<Card>, pile: seq<Card>, deck: seq<Card>, choice: Choice)
    ensures var st := Play(hand, pile, deck, choice);
      st.result.Played? ==>
        var c := st.result.card;
        IsValid(c, pile) && st.pile == pile &&
        (deck == [] ==> st.deck == deck && |st.hand| == |hand| - 1) &&
        (deck != [] ==> st.deck == DropLast(deck) && |st.hand| == |hand| && Last(st.hand) == Last(deck)) &&
        exists i :: 0 <= i < |hand| && hand[i] == c && Names(choice, c.value) &&
          (forall j :: 0 <= j < i ==> !Names(choice, hand[j].value)) &&
          st.hand[..|hand| - 1] == hand[..i] + hand[i + 1..]
  {
    var st := Play(hand, pile, deck, choice);
    if st.result.Played? {
      var i := FirstWithValue(hand, choice).value;
      RemovedFirstWithValue(hand, choice, i);
      RemovedOne(hand, hand[i]);
      var rest := hand[..i] + hand[i + 1..];
      assert st.hand[..|hand| - 1] == rest;
    }
  }

  /** A choice is turned down exactly when some card is valid but the first
      hand card with the chosen value is missing or not valid; nothing changes. */
  lemma PlayReprompts(hand: seq<Card>, pile: seq<Card>, deck: seq<Card>, choice: Choice)
    ensures var st := Play(hand, pile, deck, choice);
      (st.result.Reprompt? <==>
        (exists c :: c in hand && IsValid(c, pile)) &&
        (FirstWithValue(hand, choice).None? || !IsValid(hand[FirstWithValue(hand, choice).value], pile))) &&
      (st.result.Reprompt? ==> st.hand == hand && st.pile == pile && st.deck == deck)
  {
    var valid := ValidCards(hand, pile);
    if valid != [] {
      assert valid[0] in valid;
    }
  }

  /** `play_card` moves cards and never creates or loses one; only the card
      it returns leaves the player's hand, the pile and the deck. */
  lemma PlayConserves(hand: seq<Card>, pile: seq<Card>, deck: seq<Card>, choice: Choice)
    ensures var st := Play(hand, pile, deck, choice);
      multiset(hand) + multiset(pile) + multiset(deck) ==
        multiset(st.hand) + multiset(st.pile) + multiset(st.deck) +
        (if st.result.Played? then multiset{st.result.card} else multiset{})
  {
    var st := Play(hand, pile, deck, choice);
    if st.result.Played? {
      PlayedConserves(hand, pile, deck, choice);
    } else if st.result.PickedUp? {
      PlayPicksUp(hand, pile, deck, choice);
      assert multiset(st.hand) == multiset(hand) + multiset(pile);
    } else {
      PlayReprompts(hand, pile, deck, choice);
    }
  }

  lemma PlayedConserves(hand: seq<Card>, pile: seq<Card>, deck: seq<Card>, choice: Choice)
    requires Play(hand, pile, deck, choice).result.Played?
    ensures var st := Play(hand, pile, deck, choice);
      multiset(hand) + multiset(pile) + multiset(deck) ==
        multiset(st.hand) + multiset(st.pile) + multiset(st.deck) + multiset{st.result.card}
  {
    var st := Play(hand, pile, deck, choice);
    var c := st.result.card;
    assert c in hand && st.pile == pile;
    RefillConserves(hand, pile, deck, c);
  }

  /** Taking `c` out of the hand and drawing one card when the deck is not
      empty moves cards and never creates or loses one. */
  lemma RefillConserves(hand: seq<Card>, pile: seq<Card>, deck: seq<Card>, c: Card)
    requires c in hand
    ensures var rest := Removed(hand, c);
      var h := if deck != [] then rest + [Last(deck)] else rest;
      var d := if deck != [] then DropLast(deck) else deck;
      multiset(hand) + multiset(pile) + multiset(deck) == multiset(h) + multiset(pile) + multiset(d) + multiset{c}
  {
    var rest := Removed(hand, c);
    RemovedOne(hand, c);
    if deck != [] {
      var top := Last(deck);
      assert deck == DropLast(deck) + [top];
      forall o ensures (multiset(hand) + multiset(pile) + multiset(deck))[o] ==
        (multiset(rest + [top]) + multiset(pile) + multiset(DropLast(deck)) + multiset{c})[o]
      {
        assert multiset(hand)[o] == (multiset(rest) + multiset{c})[o];
        assert multiset(deck)[o] == (multiset(DropLast(deck)) + multiset{top})[o];
      }
    } else {
      forall o ensures (multiset(hand) + multiset(pile) + multiset(deck))[o] ==
        (multiset(rest) + multiset(pile) + multiset(deck) + multiset{c})[o]
      {
        assert multiset(hand)[o] == (multiset(rest) + multiset{c})[o];
      }
    }
  }

  /** How many cards `Player.draw` takes to top the hand up to three. */
  function TopUpCount(handSize: nat, deckSize: nat): nat
  {
    if handSize >= 3 then 0
    else if 3 - handSize <= deckSize then 3 - handSize
    else deckSize
  }

  /** Topping up stops with three cards in hand or an empty deck, takes no
      card beyond the third, and moves cards from the deck without creating
      or losing any (app.py:39-41). */
  lemma TopUpStops(hand: seq<Card>, deck: seq<Card>)
    ensures var n := TopUpCount(|hand|, |deck|);
      n <= |deck| &&
      (|hand| + n >= 3 || n == |deck|) &&
      (n > 0 ==> |hand| + n <= 3) &&
      |Popped(deck, n)| == n &&
      multiset(hand + Popped(deck, n)) + multiset(deck[..|deck| - n]) == multiset(hand) + multiset(deck)
  {
    var n := TopUpCount(|hand|, |deck|);
    PoppedConserves(deck, n);
  }
}
