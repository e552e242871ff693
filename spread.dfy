/** The three-card reading template (backend/templates/spread.js): each card is given its
    position in the spread and its name from the card table, and the cards are written into
    one request sentence by sentence. */
module Spread {
  import opened Wrappers
  import opened Js
  import opened Chat

  /** A row of the card table (data/cards.json): an integer card number and its name. */
  datatype CardEntry = CardEntry(number: int, name: string)

  /** A card as the spread route passes it on: a coerced number and an upright/inverted flag. */
  datatype SpreadCard = SpreadCard(number: JsNumber, inverted: bool)

  datatype ResolvedCard = ResolvedCard(position: string, name: string, inverted: bool)

  const MaxCards: nat := 3
  const Positions: seq<string> := ["The Past", "The Present", "The Future"]

  const ReaderPersona: string :=
    "You are an esteemed, empathetic tarot reader. Avoid deterministic prophecy; emphasize " +
    "reflection, agency, and possibilities. Write vivid but concise paragraphs."
  const Header: string := "Perform a three-card reading (Past, Present, Future) for this spread:"
  const ClosingSeeking: string :=
    "The querent is seeking something; infer gently without inventing specifics."
  const ClosingArc: string := "Offer a cohesive arc that connects the three positions."

  function Min(a: nat, b: nat): nat {
    if a < b then a else b
  }

  /** `x.number === c.number` for a table row x and a coerced number (NaN equals nothing). */
  predicate SameNumber(entry: CardEntry, n: JsNumber) {
    n == Finite(entry.number as real)
  }

  /** Row i is the first row of the table whose number is n. */
  predicate FirstMatch(table: seq<CardEntry>, n: JsNumber, i: int) {
    0 <= i < |table| && SameNumber(table[i], n) &&
    forall j :: 0 <= j < i ==> !SameNumber(table[j], n)
  }

  /** `['The Past', 'The Present', 'The Future'][idx] || `Pos${idx + 1}`` */
  function Position(idx: nat): string {
    if idx < |Positions| then Positions[idx] else "Pos" + NatToDecimal(idx + 1)
  }

  /** `meta?.name || `Card ${c.number}`` with meta the first row carrying the number. */
  function CardName(rt: Runtime, table: seq<CardEntry>, n: JsNumber): (name: string)
    ensures (exists i :: FirstMatch(table, n, i) && table[i].name != "" && name == table[i].name) ||
            (name == "Card " + NumberToString(rt, n) &&
             forall i :: FirstMatch(table, n, i) ==> table[i].name == "")
  {
    match Find(table, (x: CardEntry) => SameNumber(x, n))
    case Some(meta) =>
      assert exists i :: FirstMatch(table, n, i) && table[i] == meta;
      if meta.name != "" then meta.name else "Card " + NumberToString(rt, n)
    case None => "Card " + NumberToString(rt, n)
  }

  /** `resolveCards(cards)`: at most three cards, in order, each with its position, its table
      name and its flag. The `Pos…` fallback is never taken once the list is cut to three. */
  function ResolveCards(rt: Runtime, table: seq<CardEntry>, cards: seq<SpreadCard>): (r: seq<ResolvedCard>)
    ensures |r| == Min(MaxCards, |cards|)
    ensures forall i :: 0 <= i < |r| ==>
              r[i].position == Positions[i] &&
              r[i].name == CardName(rt, table, cards[i].number) &&
              r[i].inverted == cards[i].inverted
  {
    var taken := if |cards| <= MaxCards then cards else cards[..MaxCards];
    seq(|taken|, i requires 0 <= i < |taken| =>
      ResolvedCard(Position(i), CardName(rt, table, taken[i].number), taken[i].inverted))
  }

  /** `${c.position}: "${c.name}" (Inverted|Upright).` */
  function Clause(c: ResolvedCard): string {
    c.position + ": \"" + c.name + "\" (" + (if c.inverted then "Inverted" else "Upright") + ")."
  }

  function Clauses(cs: seq<ResolvedCard>): (r: seq<string>)
    ensures |r| == |cs| && forall i :: 0 <= i < |cs| ==> r[i] == Clause(cs[i])
  {
    seq(|cs|, i requires 0 <= i < |cs| => Clause(cs[i]))
  }

  /** `psychicSpread({ cards, tone })`: a system message with the reader persona, then a user
      message made of the header, one clause per resolved card and the two closing sentences,
      joined by single spaces. The tone is accepted and not used. */
  function PsychicSpread(rt: Runtime, table: seq<CardEntry>, cards: seq<SpreadCard>, tone: JsValue): (r: seq<Message>)
    ensures |r| == 2 && r[0] == Message("system", ReaderPersona) && r[1].role == "user"
    ensures r[1].content ==
              Header + " " + Terminated(Clauses(ResolveCards(rt, table, cards)), " ") +
              ClosingSeeking + " " + ClosingArc
  {
    var clauses := Clauses(ResolveCards(rt, table, cards));
    var content := Join([Header] + clauses + [ClosingSeeking, ClosingArc], " ");
    UserContentLayout(clauses);
    [Message("system", ReaderPersona), Message("user", content)]
  }

  /** The user content: every part but the last is followed by one space. */
  lemma UserContentLayout(clauses: seq<string>)
    ensures Join([Header] + clauses + [ClosingSeeking, ClosingArc], " ") ==
            Header + " " + Terminated(clauses, " ") + ClosingSeeking + " " + ClosingArc
  {
    JoinFramed(Header, clauses, ClosingSeeking, ClosingArc, " ");
  }

  lemma JoinFramed(first: string, middle: seq<string>, penultimate: string, last: string, sep: string)
    ensures Join([first] + middle + [penultimate, last], sep) ==
            first + sep + Terminated(middle, sep) + penultimate + sep + last
  {
    var front := [first] + middle + [penultimate];
    assert [first] + middle + [penultimate, last] == front + [last];
    JoinLast(front, last, sep);
    TerminatedAppend([first] + middle, [penultimate], sep);
    TerminatedAppend([first], middle, sep);
  }

  /** The tone changes nothing. */
  lemma ToneIgnored(rt: Runtime, table: seq<CardEntry>, cards: seq<SpreadCard>, t1: JsValue, t2: JsValue)
    ensures PsychicSpread(rt, table, cards, t1) == PsychicSpread(rt, table, cards, t2)
  {
  }

  /** Only the first three cards reach the template's output. */
  lemma ExtraCardsIgnored(rt: Runtime, table: seq<CardEntry>, cards: seq<SpreadCard>, tone: JsValue)
    requires |cards| > MaxCards
    ensures PsychicSpread(rt, table, cards, tone) == PsychicSpread(rt, table, cards[..MaxCards], tone)
  {
    assert ResolveCards(rt, table, cards) == ResolveCards(rt, table, cards[..MaxCards]);
  }

  /** One inverted card found in the table, and one missing from it. */
  lemma SampleResolution(rt: Runtime)
    ensures ResolveCards(rt, [CardEntry(0, "The Fool")], [SpreadCard(Finite(0.0), true), SpreadCard(Finite(7.0), false)]) ==
            [ResolvedCard("The Past", "The Fool", true), ResolvedCard("The Present", "Card 7", false)]
  {
    var table := [CardEntry(0, "The Fool")];
    assert CardName(rt, table, Finite(0.0)) == "The Fool";
    assert NumberToString(rt, Finite(7.0)) == "7";
    assert CardName(rt, table, Finite(7.0)) == "Card 7";
  }
}
