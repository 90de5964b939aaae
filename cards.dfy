/** Playing cards of the Spider-Solitaire engine: suits, ranks from King down
    to Ace with their successor relation, cards as plain values, and the
    unshuffled 104-card deck the game is dealt from. */
module Cards {

  datatype Option<T> = None | Some(value: T)

  /** Suits carry identity only. */
  datatype Suit = Hearts | Spades | Diamonds | Clubs

  /** The thirteen ranks, highest first. */
  datatype Value = King | Queen | Jack | Ten | Nine | Eight | Seven | Six | Five | Four | Three | Two | Ace

  /** The ranks in order, King first and Ace last. */
  const Values: seq<Value> := [King, Queen, Jack, Ten, Nine, Eight, Seven, Six, Five, Four, Three, Two, Ace]

  /** The rank that may be placed on top of `v`: the next lower one, none below an Ace. */
  function Succ(v: Value): Option<Value> {
    match v
    case King  => Some(Queen)
    case Queen => Some(Jack)
    case Jack  => Some(Ten)
    case Ten   => Some(Nine)
    case Nine  => Some(Eight)
    case Eight => Some(Seven)
    case Seven => Some(Six)
    case Six   => Some(Five)
    case Five  => Some(Four)
    case Four  => Some(Three)
    case Three => Some(Two)
    case Two   => Some(Ace)
    case Ace   => None
  }

  /** Position of a rank in `Values` (King is 0, Ace is 12). */
  function Rank(v: Value): (r: nat)
    ensures r < |Values| && Values[r] == v
  {
    match v
    case King  => 0
    case Queen => 1
    case Jack  => 2
    case Ten   => 3
    case Nine  => 4
    case Eight => 5
    case Seven => 6
    case Six   => 7
    case Five  => 8
    case Four  => 9
    case Three => 10
    case Two   => 11
    case Ace   => 12
  }

  /** `Succ` walks `Values` one step: it is exactly "next rank down". */
  lemma SuccIsNextRank(v: Value, w: Value)
    ensures Succ(v) == Some(w) <==> Rank(w) == Rank(v) + 1
    ensures Succ(v) == None <==> v == Ace
  {
  }

  /** `Values` is the chain King, Succ(King), ..., ending at Ace. */
  lemma ValuesChain()
    ensures |Values| == 13 && Values[0] == King && Values[12] == Ace
    ensures forall i :: 0 <= i < 12 ==> Succ(Values[i]) == Some(Values[i + 1])
    ensures forall i :: 0 <= i < 13 ==> Rank(Values[i]) == i
  {
  }

  datatype Card = Card(value: Value, suit: Suit)

  /** The 13 cards of one suit from King down to Ace. */
  function SuitRun(s: Suit): seq<Card> {
    seq(13, k requires 0 <= k < 13 => Card(Values[k], s))
  }

  /** The eight suit slots of a deck with 1, 2 or 4 distinct suits. */
  function SuitSlots(suits: nat): seq<Suit>
    requires suits == 1 || suits == 2 || suits == 4
  {
    match suits
    case 1 => [Spades, Spades, Spades, Spades, Spades, Spades, Spades, Spades]
    case 2 => [Spades, Spades, Spades, Spades, Hearts, Hearts, Hearts, Hearts]
    case 4 => [Hearts, Spades, Diamonds, Clubs, Hearts, Spades, Diamonds, Clubs]
  }

  /** Cartesian product of suit slots and ranks, slot-major. */
  function Product(slots: seq<Suit>): seq<Card> {
    if slots == [] then [] else SuitRun(slots[0]) + Product(slots[1..])
  }

  /** The deck before shuffling. */
  function OrderedDeck(suits: nat): seq<Card>
    requires suits == 1 || suits == 2 || suits == 4
  {
    Product(SuitSlots(suits))
  }

  lemma {:induction false} ProductAt(slots: seq<Suit>, j: nat, k: nat)
    requires j < |slots| && k < 13
    ensures |Product(slots)| == 13 * |slots|
    ensures Product(slots)[13 * j + k] == Card(Values[k], slots[j])
  {
    if j > 0 {
      ProductAt(slots[1..], j - 1, k);
    } else if |slots| > 1 {
      ProductAt(slots[1..], 0, k);
    }
  }

  /** The unshuffled deck has 104 cards; slot `j` holds King..Ace of its suit. */
  lemma OrderedDeckShape(suits: nat)
    requires suits == 1 || suits == 2 || suits == 4
    ensures |OrderedDeck(suits)| == 104
    ensures forall j, k :: 0 <= j < 8 && 0 <= k < 13 ==>
      OrderedDeck(suits)[13 * j + k] == Card(Values[k], SuitSlots(suits)[j])
  {
    ProductAt(SuitSlots(suits), 0, 0);
    forall j, k | 0 <= j < 8 && 0 <= k < 13
      ensures OrderedDeck(suits)[13 * j + k] == Card(Values[k], SuitSlots(suits)[j])
    {
      ProductAt(SuitSlots(suits), j, k);
    }
  }
}
