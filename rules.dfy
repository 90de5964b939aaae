/** The run predicate of the tableau and the facts about runs that suit
    completion and the smart move rely on. */
module Rules {
  import opened Cards

  /** The playable (last) card of a non-empty pile. */
  function Top(pile: seq<Card>): Card
    requires |pile| > 0
  {
    pile[|pile| - 1]
  }

  /** `upper` may lie directly on `lower` inside a run: next rank down, same suit. */
  predicate Follows(lower: Card, upper: Card) {
    Succ(lower.value) == Some(upper.value) && lower.suit == upper.suit
  }

  /** Every adjacent pair from `index` to the top of the pile follows.
      Hidden cards play no part: the predicate sees only the cards. */
  predicate InSequence(pile: seq<Card>, index: nat)
    requires index < |pile|
  {
    forall k :: index <= k < |pile| - 1 ==> Follows(pile[k], pile[k + 1])
  }

  /** The zip loop that decides whether the cards from `index` up form a run. */
  method IsSequence(pile: seq<Card>, index: nat) returns (r: bool)
    requires index < |pile|
    ensures r == InSequence(pile, index)
  {
    if index + 1 == |pile| {
      return true;
    }
    var k := index;
    while k < |pile| - 1
      invariant index <= k <= |pile| - 1
      invariant forall j :: index <= j < k ==> Follows(pile[j], pile[j + 1])
    {
      var pred, succ := pile[k], pile[k + 1];
      if Succ(pred.value).None? {
        return false;
      }
      if Succ(pred.value).value != succ.value {
        return false;
      }
      if pred.suit != succ.suit {
        return false;
      }
      k := k + 1;
    }
    return true;
  }

  /** A single top card is a run of its own. */
  lemma SingleCardIsSequence(pile: seq<Card>)
    requires |pile| > 0
    ensures InSequence(pile, |pile| - 1)
  {
  }

  /** Inside a run, ranks go down one step per card and the suit never changes. */
  lemma {:induction false} RunShape(pile: seq<Card>, i: nat, k: nat)
    requires i <= k < |pile| && InSequence(pile, i)
    ensures Rank(pile[k].value) == Rank(pile[i].value) + (k - i)
    ensures pile[k].suit == pile[i].suit
    decreases k - i
  {
    if k > i {
      RunShape(pile, i, k - 1);
      assert Follows(pile[k - 1], pile[k]);
      SuccIsNextRank(pile[k - 1].value, pile[k].value);
    }
  }

  /** A pile whose top 13 cards can be removed as a finished suit. */
  predicate Completable(pile: seq<Card>) {
    |pile| >= 13 && InSequence(pile, |pile| - 13)
  }

  /** The top 13 cards form a run exactly when they are King..Ace of the
      top card's suit, so a completed suit can be rebuilt from its suit alone. */
  lemma FullRunIsSuitRun(pile: seq<Card>)
    requires |pile| >= 13
    ensures Completable(pile) <==> pile[|pile| - 13..] == SuitRun(Top(pile).suit)
  {
    var i := |pile| - 13;
    var s := Top(pile).suit;
    ValuesChain();
    if InSequence(pile, i) {
      RunShape(pile, i, |pile| - 1);
      forall k | 0 <= k < 13 ensures pile[i + k] == Card(Values[k], s) {
        RunShape(pile, i, i + k);
      }
      assert pile[i..] == SuitRun(s);
    }
    if pile[i..] == SuitRun(s) {
      forall k | i <= k < |pile| - 1 ensures Follows(pile[k], pile[k + 1]) {
        assert pile[k] == SuitRun(s)[k - i] && pile[k + 1] == SuitRun(s)[k - i + 1];
      }
    }
  }

  /** A completable pile has an Ace on top, so testing for the Ace first
      rejects nothing that the run test would accept. */
  lemma CompletableEndsInAce(pile: seq<Card>)
    requires Completable(pile)
    ensures Top(pile).value == Ace
  {
    FullRunIsSuitRun(pile);
    assert Top(pile) == pile[|pile| - 13..][12];
  }

  /** The highest index holding a card of rank `v`, scanning from the top down. */
  function TopmostWith(pile: seq<Card>, v: Value): (r: Option<nat>)
    ensures r.Some? ==> r.value < |pile| && pile[r.value].value == v
    ensures r.Some? ==> forall j :: r.value < j < |pile| ==> pile[j].value != v
    ensures r.None? ==> forall j :: 0 <= j < |pile| ==> pile[j].value != v
  {
    if |pile| == 0 then None
    else if Top(pile).value == v then Some(|pile| - 1)
    else TopmostWith(pile[..|pile| - 1], v)
  }
}
