/** How the page and the backend meet: the page posts its drawn cards as `{ cards }` to the
    spread route (frontend/src/ClassicSpread.js, generateSpreadInterpretation), and shows the
    card table row that getCardData finds, while the backend names the same card through
    resolveCards. */
module Interplay {
  import opened Wrappers
  import opened Js
  import opened Spread
  import opened Server
  import opened ClassicSpread

  /** A drawn card as the JSON object the request carries. */
  function CardValue(c: DrawnCard): (v: JsValue)
    ensures Get(v, "number") == Num(Finite(c.number as real)) && Get(v, "inverted") == Bool(c.inverted)
  {
    Obj(map["number" := Num(Finite(c.number as real)), "inverted" := Bool(c.inverted)])
  }

  function HandValue(cards: seq<DrawnCard>): (v: JsValue)
    ensures v.Arr? && |v.items| == |cards| && forall i :: 0 <= i < |cards| ==> v.items[i] == CardValue(cards[i])
  {
    Arr(seq(|cards|, i requires 0 <= i < |cards| => CardValue(cards[i])))
  }

  /** Each card of a posted hand converts to the same number and flag. */
  lemma CardNormalizes(rt: Runtime, c: DrawnCard)
    ensures NormalizeCard(rt, CardValue(c)) == Success(SpreadCard(Finite(c.number as real), c.inverted))
  {
    assert ToNumber(rt, Num(Finite(c.number as real))) == Success(Finite(c.number as real));
  }

  /** Every hand the page deals, once it holds a card, passes the spread route's checks
      unchanged: same numbers, same flags, same order. */
  lemma DealtHandAccepted(rt: Runtime, random: seq<real>)
    requires ValidDraws(random) && |Deal(random, [])| > 0
    ensures var hand := Deal(random, []);
            var checked := ValidateSpread(rt, HandValue(hand));
            checked.Accepted? && |checked.cards| == |hand| &&
            forall i :: 0 <= i < |hand| ==>
              checked.cards[i] == SpreadCard(Finite(hand[i].number as real), hand[i].inverted)
  {
    var hand := Deal(random, []);
    DealIsHand(random, []);
    var v := HandValue(hand);
    forall i | 0 <= i < |hand|
      ensures NormalizeCard(rt, v.items[i]) == Success(SpreadCard(Finite(hand[i].number as real), hand[i].inverted))
    {
      CardNormalizes(rt, hand[i]);
    }
    var normalized := NormalizeCards(rt, v.items);
    assert normalized.Success?;
    assert forall i :: 0 <= i < |normalized.value| ==> !normalized.value[i].number.NaN?;
  }

  /** The name the backend gives a card is the name of the row getCardData shows, unless that
      row is missing or nameless (then `Card <number>`). */
  lemma CardNameAgreesWithCardData(rt: Runtime, table: seq<CardEntry>, n: int)
    requires 1 <= n <= TotalCards
    ensures var row := GetCardData(table, n);
            CardName(rt, table, Finite(n as real)) ==
            if row.Some? && row.value.name != "" then row.value.name else "Card " + NatToDecimal(n)
  {
    var row := GetCardData(table, n);
    var name := CardName(rt, table, Finite(n as real));
    assert NumberToString(rt, Finite(n as real)) == NatToDecimal(n);
    if row.Some? {
      var i :| 0 <= i < |table| && table[i] == row.value && row.value.number == n &&
               forall j :: 0 <= j < i ==> table[j].number != n;
      assert FirstMatch(table, Finite(n as real), i);
    }
  }
}
