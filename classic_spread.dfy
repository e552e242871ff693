/** The classic three-card spread page (frontend/src/ClassicSpread.js): drawing three distinct
    cards from a 78-card deck, each upright or inverted, and looking a card up in the table.
    `Math.random` is an oracle: a finite sequence of draws, each in [0, 1), consumed in order. */
module ClassicSpread {
  import opened Wrappers
  import opened Js
  import opened Spread

  const TotalCards: int := 78
  const CardsToDisplay: nat := 3

  /** `{ number, inverted }` as the page builds it. */
  datatype DrawnCard = DrawnCard(number: int, inverted: bool)

  /** `Math.floor(r * TOTAL_CARDS) + 1` */
  function CardNumberOf(r: real): (n: int)
    ensures 0.0 <= r < 1.0 ==> 1 <= n <= TotalCards
  {
    var x := r * TotalCards as real;
    assert 0.0 <= r < 1.0 ==> 0.0 <= x < 78.0;
    x.Floor + 1
  }

  /** `r < 0.5` */
  predicate InvertedOf(r: real) {
    r < 0.5
  }

  /** The numbers already held: the contents of the `numbers` set. */
  function Numbers(cards: seq<DrawnCard>): set<int> {
    set k | 0 <= k < |cards| :: cards[k].number
  }

  predicate Distinct(cards: seq<DrawnCard>) {
    forall j, k :: 0 <= j < k < |cards| ==> cards[j].number != cards[k].number
  }

  predicate InDeck(cards: seq<DrawnCard>) {
    forall k :: 0 <= k < |cards| ==> 1 <= cards[k].number <= TotalCards
  }

  predicate ValidDraws(random: seq<real>) {
    forall k :: 0 <= k < |random| ==> 0.0 <= random[k] < 1.0
  }

  /** The draw as a recursive definition: with fewer than three cards held, one draw picks a
      number; a number already held is dropped, a new one takes one more draw for its flag.
      The deal ends with three cards, or when the oracle runs out (also between a new number
      and its flag, which then is not kept). */
  function Deal(random: seq<real>, held: seq<DrawnCard>): seq<DrawnCard>
    decreases |random|
  {
    if |held| >= CardsToDisplay || |random| == 0 then held
    else
      var n := CardNumberOf(random[0]);
      if n in Numbers(held) then Deal(random[1..], held)
      else if |random| == 1 then held
      else Deal(random[2..], held + [DrawnCard(n, InvertedOf(random[1]))])
  }

  lemma NumbersAppend(cards: seq<DrawnCard>, c: DrawnCard)
    ensures Numbers(cards + [c]) == Numbers(cards) + {c.number}
  {
    var grown := cards + [c];
    assert forall k :: 0 <= k < |cards| ==> grown[k] == cards[k];
    assert grown[|cards|] == c;
  }

  lemma NumbersOfDistinct(cards: seq<DrawnCard>)
    requires Distinct(cards)
    ensures |Numbers(cards)| == |cards|
    decreases |cards|
  {
    if |cards| > 0 {
      var front := cards[..|cards| - 1];
      var last := cards[|cards| - 1];
      assert cards == front + [last];
      NumbersOfDistinct(front);
      NumbersAppend(front, last);
      assert last.number !in Numbers(front);
    }
  }

  /** `generateUniqueRandomCards()`: the set `numbers` and the array `cards` grow together;
      a number already in the set is drawn again. The result is exactly the deal above:
      distinct numbers of the deck, three of them unless the oracle ran out. */
  method GenerateUniqueRandomCards(random: seq<real>) returns (cards: seq<DrawnCard>, complete: bool)
    requires ValidDraws(random)
    ensures cards == Deal(random, [])
    ensures complete <==> |cards| == CardsToDisplay
    ensures |cards| <= CardsToDisplay
    ensures Distinct(cards)
    ensures InDeck(cards)
  {
    var numbers: set<int> := {};
    cards := [];
    var i := 0;
    while |numbers| < CardsToDisplay && i < |random|
      invariant 0 <= i <= |random|
      invariant numbers == Numbers(cards)
      invariant |numbers| == |cards| <= CardsToDisplay
      invariant Distinct(cards)
      invariant InDeck(cards)
      invariant Deal(random[i..], cards) == Deal(random, [])
      decreases |random| - i
    {
      var rest := random[i..];
      var randomNum := CardNumberOf(random[i]);
      if randomNum !in numbers {
        if i + 1 < |random| {
          var card := DrawnCard(randomNum, InvertedOf(random[i + 1]));
          assert rest[2..] == random[i + 2..];
          NumbersAppend(cards, card);
          numbers := numbers + {randomNum};
          cards := cards + [card];
          i := i + 2;
        } else {
          i := |random|;
        }
      } else {
        assert rest[1..] == random[i + 1..];
        i := i + 1;
      }
    }
    complete := |numbers| == CardsToDisplay;
  }

  /** Whatever the draws, the deal holds distinct numbers of the deck, at most three. */
  lemma {:induction false} DealIsHand(random: seq<real>, held: seq<DrawnCard>)
    requires ValidDraws(random) && Distinct(held) && InDeck(held) && |held| <= CardsToDisplay
    ensures var r := Deal(random, held); Distinct(r) && InDeck(r) && |r| <= CardsToDisplay
    decreases |random|
  {
    if |held| >= CardsToDisplay || |random| == 0 {
    } else {
      var n := CardNumberOf(random[0]);
      assert ValidDraws(random[1..]);
      if n in Numbers(held) {
        DealIsHand(random[1..], held);
      } else if |random| > 1 {
        var grown := held + [DrawnCard(n, InvertedOf(random[1]))];
        assert ValidDraws(random[2..]);
        assert Distinct(grown);
        DealIsHand(random[2..], grown);
      }
    }
  }

  /** The deal only ever adds cards to those already held. */
  lemma {:induction false} DealExtends(random: seq<real>, held: seq<DrawnCard>)
    ensures held <= Deal(random, held)
    decreases |random|
  {
    if |held| >= CardsToDisplay || |random| == 0 {
    } else if CardNumberOf(random[0]) in Numbers(held) {
      DealExtends(random[1..], held);
    } else if |random| > 1 {
      var grown := held + [DrawnCard(CardNumberOf(random[0]), InvertedOf(random[1]))];
      DealExtends(random[2..], grown);
    }
  }

  /** More draws never take back a card: the deal of a prefix of the draws is a prefix of the
      deal of all of them, and when it already holds three cards the rest are never drawn. */
  lemma {:induction false} DealOfMoreDraws(random: seq<real>, more: seq<real>, held: seq<DrawnCard>)
    ensures Deal(random, held) <= Deal(random + more, held)
    ensures |Deal(random, held)| >= CardsToDisplay ==> Deal(random + more, held) == Deal(random, held)
    decreases |random|
  {
    var all := random + more;
    if |held| >= CardsToDisplay {
    } else if |random| == 0 {
      assert all == more;
      DealExtends(more, held);
    } else {
      var n := CardNumberOf(random[0]);
      assert all[0] == random[0];
      if n in Numbers(held) {
        assert all[1..] == random[1..] + more;
        DealOfMoreDraws(random[1..], more, held);
      } else if |random| == 1 {
        DealExtends(all, held);
      } else {
        assert all[1] == random[1];
        assert all[2..] == random[2..] + more;
        DealOfMoreDraws(random[2..], more, held + [DrawnCard(n, InvertedOf(random[1]))]);
      }
    }
  }

  /** A sample deal: card 1 upright, a repeated 1 that is drawn again, then 8 upright and
      78 inverted; the last draw is never used. */
  lemma SampleDeal()
    ensures Deal([0.0, 0.9, 0.0, 0.1, 0.5, 0.99, 0.2, 0.3], []) ==
            [DrawnCard(1, false), DrawnCard(8, false), DrawnCard(78, true)]
  {
    var r := [0.0, 0.9, 0.0, 0.1, 0.5, 0.99, 0.2, 0.3];
    var c1 := [DrawnCard(1, false)];
    var c2 := c1 + [DrawnCard(8, false)];
    var c3 := c2 + [DrawnCard(78, true)];
    assert CardNumberOf(0.0) == 1;
    assert CardNumberOf(0.1) == 8;
    assert CardNumberOf(0.99) == 78;
    NumbersAppend([], DrawnCard(1, false));
    assert [] + [DrawnCard(1, false)] == c1;
    NumbersAppend(c1, DrawnCard(8, false));
    assert r[2..] == [0.0, 0.1, 0.5, 0.99, 0.2, 0.3];
    assert r[3..] == [0.1, 0.5, 0.99, 0.2, 0.3];
    assert r[5..] == [0.99, 0.2, 0.3];
    assert Deal(r[5..], c2) == Deal([0.3], c3) == c3;
    assert Deal(r[3..], c1) == Deal(r[5..], c2);
    assert Deal(r[2..], c1) == Deal(r[3..], c1);
    assert Deal(r, []) == Deal(r[2..], c1);
  }

  /** `getCardData(n)`: the first table row whose number is n, or nothing. */
  function GetCardData(table: seq<CardEntry>, cardNumber: int): (r: Option<CardEntry>)
    ensures r.None? <==> forall i :: 0 <= i < |table| ==> table[i].number != cardNumber
    ensures r.Some? ==>
              exists i :: 0 <= i < |table| && table[i] == r.value && r.value.number == cardNumber &&
                          forall j :: 0 <= j < i ==> table[j].number != cardNumber
  {
    Find(table, (card: CardEntry) => card.number == cardNumber)
  }
}
