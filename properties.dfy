/** What the engine promises: the deal, the log cursor, discovery, explicit
    and smart moves, suit completion, and how undo and redo undo and replay
    a single action. */
module Properties {
  import opened Cards
  import opened Rules
  import opened Engine

  /** All piles, bottom card of pile 0 first. */
  function Concat(piles: seq<seq<Card>>): seq<Card> {
    if piles == [] then [] else piles[0] + Concat(piles[1..])
  }

  /** Concatenating the piles from `i` on is pile `i` followed by the rest. */
  lemma ConcatFrom(ps: seq<seq<Card>>, i: nat)
    requires i < |ps|
    ensures Concat(ps[i..]) == ps[i] + Concat(ps[i + 1..])
  {
    assert ps[i..][1..] == ps[i + 1..];
  }

  /** One step of reading the piles in order against the deck: if pile `i` is
      `deck[lo..hi]` and the piles after it read `deck[hi..]`, then the piles
      from `i` read `deck[lo..]`. */
  lemma ConcatStep(ps: seq<seq<Card>>, i: nat, deck: seq<Card>, lo: nat, hi: nat)
    requires i < |ps| && lo <= hi <= |deck|
    requires ps[i] == deck[lo..hi] && Concat(ps[i + 1..]) == deck[hi..]
    ensures Concat(ps[i..]) == deck[lo..]
  {
    ConcatFrom(ps, i);
    assert deck[lo..] == deck[lo..hi] + deck[hi..];
  }

  /** Ten piles cut from the deck at the deal's boundaries read, in order,
      as the deck after its first 50 cards. */
  lemma DealtPilesConcat(ps: seq<seq<Card>>, deck: seq<Card>)
    requires |ps| == 10 && |deck| >= 98
    requires ps[0] == deck[50..55] && ps[1] == deck[55..60] && ps[2] == deck[60..65]
    requires ps[3] == deck[65..70] && ps[4] == deck[70..75] && ps[5] == deck[75..80]
    requires ps[6] == deck[80..86] && ps[7] == deck[86..92] && ps[8] == deck[92..98]
    requires ps[9] == deck[98..]
    ensures Concat(ps) == deck[50..]
  {
    assert Concat(ps[10..]) == deck[|deck|..] by {
      assert ps[10..] == [];
    }
    ConcatStep(ps, 9, deck, 98, |deck|);
    ConcatStep(ps, 8, deck, 92, 98);
    ConcatStep(ps, 7, deck, 86, 92);
    ConcatStep(ps, 6, deck, 80, 86);
    ConcatStep(ps, 5, deck, 75, 80);
    ConcatStep(ps, 4, deck, 70, 75);
    ConcatStep(ps, 3, deck, 65, 70);
    ConcatStep(ps, 2, deck, 60, 65);
    ConcatStep(ps, 1, deck, 55, 60);
    ConcatStep(ps, 0, deck, 50, 55);
    assert ps[0..] == ps;
  }

  /** The initial state contains the deck exactly once: stack, then the piles
      in order. For the 104-card deck piles 0-5 hold 5 cards and piles 6-9
      hold 6, and all but the top card of every pile is hidden. */
  lemma InitGameDealsDeck(deck: seq<Card>)
    requires |deck| >= 98
    ensures var g := InitGame(deck);
      g.stack + Concat(g.piles) == deck &&
      (|deck| == 104 ==> forall p :: 0 <= p < 10 ==>
         |g.piles[p]| == (if p < 6 then 5 else 6) && g.hidden[p] == |g.piles[p]| - 1)
  {
    DealtPilesConcat(InitGame(deck).piles, deck);
    assert deck == deck[..50] + deck[50..];
  }

  /** Writing drops the undone future, appends the action and leaves the cursor
      at the end of the log, so a following Redo does nothing. The tableau is
      not touched. */
  lemma WriteTruncates(g: Game, a: Action)
    requires WellFormed(g) && ActionInRange(a)
    ensures var r := Write(g, a);
      r.history == g.history[..g.head] + [a] && r.head == |r.history| &&
      r.stack == g.stack && r.piles == g.piles && r.hidden == g.hidden &&
      r.completed == g.completed &&
      RedoReady(r) && StepRedo(r) == r
  {
  }

  /** Undo at the start of the log and Redo at its end change nothing. */
  lemma CursorEnds(g: Game)
    requires WellFormed(g)
    ensures g.head == 0 ==> UndoReady(g) && StepUndo(g) == g
    ensures g.head == |g.history| ==> RedoReady(g) && StepRedo(g) == g
  {
  }

  /** Discovery turns exactly one card face-up, exactly when the pile has
      shrunk to its hidden part; otherwise it changes nothing. */
  lemma DiscoverFlipsOne(g: Game, p: nat)
    requires WellFormed(g) && p < 10
    ensures var (r, d) := Discover(g, p);
      (d <==> g.hidden[p] == |g.piles[p]| && g.hidden[p] > 0) &&
      (d ==> r.hidden[p] == g.hidden[p] - 1 &&
             r == g.(hidden := g.hidden[p := g.hidden[p] - 1])) &&
      (!d ==> r == g)
  {
  }

  /** A pile can never be moved onto itself: the run from `index` keeps the
      top card's rank below that of `index`, the target test wants it above. */
  lemma SelfMoveRejected(g: Game, source: nat, index: nat, target: nat)
    requires MoveOk(g, source, index, target) && Accepts(g, source, index, target)
    ensures source != target
  {
    if source == target {
      var src := g.piles[source];
      RunShape(src, index, |src| - 1);
      SuccIsNextRank(Top(src).value, src[index].value);
      assert false;
    }
  }

  /** An explicit move that fails its tests changes nothing; one that passes
      splits the source at `index`, puts the upper part on the target, runs
      discovery on the source once and logs the old target length. */
  lemma MoveEffect(g: Game, source: nat, index: nat, target: nat)
    requires MoveOk(g, source, index, target)
    ensures var r := StepMove(g, source, index, target);
      var src := g.piles[source];
      var dst := g.piles[target];
      var d := Flips(g.hidden[source], index);
      (!Accepts(g, source, index, target) ==> r == g) &&
      (Accepts(g, source, index, target) ==>
         source != target &&
         r.piles[source] == src[..index] &&
         r.piles[target] == dst + src[index..] &&
         (forall q :: 0 <= q < 10 && q != source && q != target ==> r.piles[q] == g.piles[q]) &&
         r.hidden == (if d then g.hidden[source := g.hidden[source] - 1] else g.hidden) &&
         r.stack == g.stack && r.completed == g.completed &&
         r.history == g.history[..g.head] + [MoveAction(source, index, target, |dst|, d)] &&
         r.head == |r.history|)
  {
    if Accepts(g, source, index, target) {
      SelfMoveRejected(g, source, index, target);
    }
  }

  /** Undoing an accepted move restores every pile and hidden count, and
      redoing it then gives back exactly the state after the move. */
  lemma UndoRedoMove(g: Game, source: nat, index: nat, target: nat)
    requires MoveOk(g, source, index, target) && Accepts(g, source, index, target)
    ensures var m := StepMove(g, source, index, target);
      UndoReady(m) &&
      var u := StepUndo(m);
      u.piles == g.piles && u.hidden == g.hidden && u.stack == g.stack &&
      u.completed == m.completed == g.completed && u.head == g.head &&
      RedoReady(u) && StepRedo(u) == m
  {
    SelfMoveRejected(g, source, index, target);
    var src := g.piles[source];
    var dst := g.piles[target];
    var m := StepMove(g, source, index, target);
    var moved := Transfer(g.piles, source, index, target);
    assert m.piles == moved;
    assert moved[target][|dst|..] == src[index..];
    assert src[..index] + src[index..] == src;
    var back := Transfer(moved, target, |dst|, source);
    assert moved[target][..|dst|] == dst;
    assert back == g.piles;
    var d := Flips(g.hidden[source], index);
    if d {
      assert g.hidden[source := g.hidden[source] - 1][source := g.hidden[source]] == g.hidden;
    }
  }

  /** Suit completion acts exactly when the top 13 cards are King..Ace of one
      suit; it then removes them, bumps the 8-bit counter, runs discovery on
      the pile and logs the suit. */
  lemma CompleteSuitEffect(g: Game, pos: nat)
    requires WellFormed(g) && pos < 10 && |g.piles[pos]| >= 13
    ensures var r := StepCompleteSuit(g, pos);
      var pile := g.piles[pos];
      var n := |pile| - 13;
      var d := Flips(g.hidden[pos], n);
      (r == g <==> pile[n..] != SuitRun(Top(pile).suit)) &&
      (r != g ==>
         r.piles == g.piles[pos := pile[..n]] &&
         r.hidden == (if d then g.hidden[pos := g.hidden[pos] - 1] else g.hidden) &&
         r.completed == (g.completed + 1) % 256 && r.stack == g.stack &&
         r.history == g.history[..g.head] + [CompleteSuitAction(pos, Top(pile).suit, d)] &&
         r.head == |r.history|)
  {
    FullRunIsSuitRun(g.piles[pos]);
    var r := StepCompleteSuit(g, pos);
    if Completable(g.piles[pos]) {
      assert |r.history| == g.head + 1 && r.history[g.head].CompleteSuitAction?;
    }
  }

  /** Undoing a completion rebuilds the pile and its hidden count exactly but
      keeps the completed counter; redoing it gives back the completed state. */
  lemma UndoRedoCompleteSuit(g: Game, pos: nat)
    requires WellFormed(g) && pos < 10 && Completable(g.piles[pos])
    ensures var m := StepCompleteSuit(g, pos);
      UndoReady(m) &&
      var u := StepUndo(m);
      u.piles == g.piles && u.hidden == g.hidden && u.stack == g.stack &&
      u.completed == m.completed == (g.completed + 1) % 256 && u.head == g.head &&
      RedoReady(u) && StepRedo(u) == m
  {
    var pile := g.piles[pos];
    var n := |pile| - 13;
    FullRunIsSuitRun(pile);
    assert pile[..n] + SuitRun(Top(pile).suit) == pile;
    var d := Flips(g.hidden[pos], n);
    if d {
      assert g.hidden[pos := g.hidden[pos] - 1][pos := g.hidden[pos]] == g.hidden;
    }
  }

  /** A deal on an empty stack changes nothing. Otherwise pile `p` receives
      the stack's card at `len - 1 - p`, the stack loses its top ten cards
      (so a multiple of ten stays one) and one Stack action is logged. */
  lemma StackEffect(g: Game)
    requires WellFormed(g) && (|g.stack| == 0 || |g.stack| >= 10)
    ensures var r := StepStack(g);
      var n := |g.stack|;
      (n == 0 ==> r == g) &&
      (n > 0 ==>
         (forall p :: 0 <= p < 10 ==> r.piles[p] == g.piles[p] + [g.stack[n - 1 - p]]) &&
         r.stack == g.stack[..n - 10] && |r.stack| == n - 10 &&
         (n % 10 == 0 ==> |r.stack| % 10 == 0) &&
         r.hidden == g.hidden && r.completed == g.completed &&
         r.history == g.history[..g.head] + [StackAction] && r.head == |r.history|)
  {
  }

  /** The ten cards a deal takes, in the order undo pushes them back:
      pile 0's card (the stack's old top) first. */
  function DealtCards(stack: seq<Card>): seq<Card>
    requires |stack| >= 10
  {
    seq(10, j requires 0 <= j < 10 => stack[|stack| - 1 - j])
  }

  /** Undoing a deal restores every pile and hidden count, but the ten cards
      go back onto the stack in pile order 0 to 9, so they sit there reversed. */
  lemma UndoStack(g: Game)
    requires WellFormed(g) && |g.stack| >= 10
    ensures var m := StepStack(g);
      UndoReady(m) &&
      var u := StepUndo(m);
      var n := |g.stack|;
      u.piles == g.piles && u.hidden == g.hidden && u.completed == g.completed &&
      u.head == g.head && u.stack == g.stack[..n - 10] + DealtCards(g.stack)
  {
    var m := StepStack(g);
    var n := |g.stack|;
    var u := StepUndo(m);
    forall p | 0 <= p < 10 ensures u.piles[p] == g.piles[p] && u.stack[n - 10 + p] == DealtCards(g.stack)[p] {
      assert m.piles[p] == g.piles[p] + [g.stack[n - 1 - p]];
    }
  }

  /** Redoing a deal after undoing it deals the reversed cards: pile `p` now
      receives the card that originally sat at `len - 10 + p` rather than
      `len - 1 - p`. */
  lemma RedoAfterUndoStack(g: Game)
    requires WellFormed(g) && |g.stack| >= 10
    ensures var u := StepUndo(StepStack(g));
      var n := |g.stack|;
      RedoReady(u) &&
      var r := StepRedo(u);
      r.stack == g.stack[..n - 10] && r.hidden == g.hidden && r.head == g.head + 1 &&
      (forall p :: 0 <= p < 10 ==> r.piles[p] == g.piles[p] + [g.stack[n - 10 + p]])
  {
    var m := StepStack(g);
    var u := StepUndo(m);
    UndoStack(g);
    assert u.history[u.head] == StackAction by {
      assert m.history[g.head] == StackAction;
    }
    RedoDealt(u);
    RedealReversed(g.piles, g.stack);
  }

  /** Dealing from the stack as undo leaves it: the cards come out in the
      opposite order to the first deal. */
  lemma RedealReversed(piles: seq<seq<Card>>, stack: seq<Card>)
    requires |piles| == 10 && |stack| >= 10
    ensures var n := |stack|;
      var back := stack[..n - 10] + DealtCards(stack);
      |back| == n && back[..n - 10] == stack[..n - 10] &&
      forall p :: 0 <= p < 10 ==> Dealt(piles, back)[p] == piles[p] + [stack[n - 10 + p]]
  {
    var n := |stack|;
    var back := stack[..n - 10] + DealtCards(stack);
    assert back[..n - 10] == stack[..n - 10];
    forall p | 0 <= p < 10 ensures Dealt(piles, back)[p] == piles[p] + [stack[n - 10 + p]] {
      assert back[n - 1 - p] == DealtCards(stack)[9 - p];
    }
  }

  /** Redoing a logged deal pops onto the piles exactly as the deal did. */
  lemma RedoDealt(u: Game)
    requires WellFormed(u) && u.head < |u.history| && u.history[u.head] == StackAction
    requires |u.stack| >= 10
    ensures RedoReady(u) &&
      var r := StepRedo(u);
      r.piles == Dealt(u.piles, u.stack) && r.stack == u.stack[..|u.stack| - 10] &&
      r.hidden == u.hidden && r.head == u.head + 1
  {
  }

  /** SmartMove from an empty source, or onto an Ace, changes nothing. */
  lemma SmartMoveRefuses(g: Game, source: nat, target: nat)
    requires WellFormed(g) && source < 10 && target < 10
    requires |g.piles[source]| == 0 ||
             (|g.piles[target]| > 0 && Top(g.piles[target]).value == Ace)
    ensures StepSmartMove(g, source, target) == g
  {
  }

  /** Onto a non-empty target without an Ace, SmartMove is the explicit move at
      the highest source index holding the needed rank, and does nothing when
      the source has no such card. */
  lemma SmartMoveIsMove(g: Game, source: nat, target: nat)
    requires WellFormed(g) && source < 10 && target < 10
    requires |g.piles[source]| > 0 && |g.piles[target]| > 0
    requires Top(g.piles[target]).value != Ace
    ensures var v := Succ(Top(g.piles[target]).value).value;
      match TopmostWith(g.piles[source], v)
      case None => StepSmartMove(g, source, target) == g
      case Some(i) =>
        MoveOk(g, source, i, target) &&
        StepSmartMove(g, source, target) == StepMove(g, source, i, target)
  {
    SuccIsNextRank(Top(g.piles[target]).value, Top(g.piles[target]).value);
  }

  /** Onto an empty target, SmartMove acts only for a one-card source and then
      copies the card: the source keeps it. Undoing that move puts the copy
      back on the source, which then holds the card twice. */
  lemma SmartMoveOntoEmpty(g: Game, source: nat, target: nat)
    requires WellFormed(g) && source < 10 && target < 10
    requires |g.piles[source]| > 0 && |g.piles[target]| == 0
    ensures var r := StepSmartMove(g, source, target);
      var c := g.piles[source][0];
      (|g.piles[source]| > 1 ==> r == g) &&
      (|g.piles[source]| == 1 ==>
         r.piles == g.piles[target := [c]] && r.hidden == g.hidden &&
         r.stack == g.stack && r.completed == g.completed && r.head == |r.history| &&
         r.history == g.history[..g.head] + [MoveAction(source, 0, target, 0, false)] &&
         UndoReady(r) &&
         StepUndo(r).piles == g.piles[source := [c, c]])
  {
    if |g.piles[source]| == 1 {
      var c := g.piles[source][0];
      var r := StepSmartMove(g, source, target);
      assert g.piles[target] + [g.piles[source][0]] == [c];
      assert r.piles[source] == [c];
      assert r.piles[target] == [c];
      var back := Transfer(r.piles, target, 0, source);
      assert back == g.piles[target := []][source := [c] + [c]];
      assert g.piles[target := []] == g.piles;
      assert r.history[r.head - 1] == MoveAction(source, 0, target, 0, false);
      assert StepUndo(r).piles == back;
      assert [c] + [c] == [c, c];
    }
  }

  /** Positions below 8 whose pile is completable, ascending from `from`. */
  function CompletedPositions(piles: seq<seq<Card>>, from: nat): (ps: seq<nat>)
    requires |piles| == 10 && from <= 8
    ensures forall i :: 0 <= i < |ps| ==> from <= ps[i] < 8 && Completable(piles[ps[i]])
    ensures forall i, j :: 0 <= i < j < |ps| ==> ps[i] < ps[j]
    decreases |piles| - from
  {
    if from == 8 then []
    else (if Completable(piles[from]) then [from] else []) + CompletedPositions(piles, from + 1)
  }

  /** Every completable pile among `from`..7 is listed. */
  lemma {:induction false} CompletedPositionsCover(piles: seq<seq<Card>>, from: nat, q: nat)
    requires |piles| == 10 && from <= q < 8 && Completable(piles[q])
    ensures q in CompletedPositions(piles, from)
    decreases 8 - from
  {
    if from < q {
      CompletedPositionsCover(piles, from + 1, q);
    }
  }

  lemma {:induction false} CompletedPositionsFrame(a: seq<seq<Card>>, b: seq<seq<Card>>, from: nat)
    requires |a| == 10 && |b| == 10 && from <= 8
    requires forall q :: from <= q < 8 ==> a[q] == b[q]
    ensures CompletedPositions(a, from) == CompletedPositions(b, from)
    decreases 8 - from
  {
    if from < 8 {
      CompletedPositionsFrame(a, b, from + 1);
    }
  }

  /** Whether SmartComp, started at `from`, completes pile `q`. */
  predicate CompletesAt(piles: seq<seq<Card>>, q: nat, from: nat)
    requires |piles| == 10 && q < 10
  {
    from <= q < 8 && Completable(piles[q])
  }

  /** The action logged when pile `q` of `g` is completed. */
  function CompletionLogged(g: Game, q: nat): Action
    requires WellFormed(g) && q < 10 && |g.piles[q]| >= 13
  {
    CompleteSuitAction(q, Top(g.piles[q]).suit, Flips(g.hidden[q], |g.piles[q]| - 13))
  }

  lemma CompleteAtEffect(g: Game, pos: nat)
    requires WellFormed(g) && pos < 10 && |g.piles[pos]| >= 13
    ensures var r := CompleteAt(g, pos);
      var n := |g.piles[pos]| - 13;
      r.stack == g.stack && r.piles == g.piles[pos := g.piles[pos][..n]] &&
      r.hidden == (if Flips(g.hidden[pos], n) then g.hidden[pos := g.hidden[pos] - 1] else g.hidden) &&
      r.completed == (g.completed + 1) % 256 &&
      r.history == g.history[..g.head] + [CompletionLogged(g, pos)] && r.head == g.head + 1
  {
  }

  /** What a SmartComp pass from `from` does to the stack, piles and hidden counts. */
  lemma {:induction false} SmartCompTableau(g: Game, from: nat)
    requires WellFormed(g) && from <= 8
    ensures var r := SmartCompFrom(g, from);
      r.stack == g.stack &&
      (forall q :: 0 <= q < 10 ==>
         r.piles[q] == (if CompletesAt(g.piles, q, from) then g.piles[q][..|g.piles[q]| - 13] else g.piles[q])) &&
      (forall q :: 0 <= q < 10 ==>
         r.hidden[q] == (if CompletesAt(g.piles, q, from) && Flips(g.hidden[q], |g.piles[q]| - 13)
                         then g.hidden[q] - 1 else g.hidden[q]))
    decreases 8 - from
  {
    if from < 8 {
      var pile := g.piles[from];
      if Completable(pile) {
        CompletableEndsInAce(pile);
        var g1 := CompleteAt(g, from);
        assert SmartCompFrom(g, from) == SmartCompFrom(g1, from + 1);
        CompleteAtEffect(g, from);
        SmartCompTableau(g1, from + 1);
        assert forall q :: 0 <= q < 10 && q != from ==> g1.piles[q] == g.piles[q] && g1.hidden[q] == g.hidden[q];
      } else {
        assert SmartCompFrom(g, from) == SmartCompFrom(g, from + 1);
        SmartCompTableau(g, from + 1);
      }
    }
  }

  /** A SmartComp pass with nothing to complete changes nothing at all. */
  lemma {:induction false} SmartCompIdle(g: Game, from: nat)
    requires WellFormed(g) && from <= 8 && CompletedPositions(g.piles, from) == []
    ensures SmartCompFrom(g, from) == g
    decreases 8 - from
  {
    if from < 8 {
      var pile := g.piles[from];
      if Completable(pile) {
        CompletableEndsInAce(pile);
      }
      assert SmartCompFrom(g, from) == SmartCompFrom(g, from + 1);
      SmartCompIdle(g, from + 1);
    }
  }

  lemma ModStep(c: nat, k: nat)
    ensures ((c + 1) % 256 + k) % 256 == (c + 1 + k) % 256
  {
  }

  /** A SmartComp pass from `from` adds one (modulo 256) to the counter per completion. */
  lemma {:induction false} SmartCompCount(g: Game, from: nat)
    requires WellFormed(g) && from <= 8
    ensures SmartCompFrom(g, from).completed == (g.completed + |CompletedPositions(g.piles, from)|) % 256
    decreases 8 - from
  {
    if from < 8 {
      var pile := g.piles[from];
      var rest := CompletedPositions(g.piles, from + 1);
      if Completable(pile) {
        CompletableEndsInAce(pile);
        var g1 := CompleteAt(g, from);
        assert SmartCompFrom(g, from) == SmartCompFrom(g1, from + 1);
        SmartCompCount(g1, from + 1);
        CompleteAtEffect(g, from);
        CompletedPositionsFrame(g.piles, g1.piles, from + 1);
        assert CompletedPositions(g.piles, from) == [from] + rest;
        ModStep(g.completed, |rest|);
      } else {
        assert SmartCompFrom(g, from) == SmartCompFrom(g, from + 1);
        SmartCompCount(g, from + 1);
        assert CompletedPositions(g.piles, from) == rest;
      }
    }
  }

  /** The actions a SmartComp pass from `from` appends to the log. */
  lemma {:induction false} SmartCompLog(g: Game, from: nat)
    requires WellFormed(g) && from <= 8
    ensures var r := SmartCompFrom(g, from);
      var ps := CompletedPositions(g.piles, from);
      ps != [] ==>
         |r.history| == g.head + |ps| && r.head == |r.history| &&
         r.history[..g.head] == g.history[..g.head] &&
         forall j :: 0 <= j < |ps| ==> r.history[g.head + j] == CompletionLogged(g, ps[j])
    decreases 8 - from
  {
    if from < 8 {
      var pile := g.piles[from];
      var rest := CompletedPositions(g.piles, from + 1);
      if Completable(pile) {
        CompletableEndsInAce(pile);
        var g1 := CompleteAt(g, from);
        var r := SmartCompFrom(g1, from + 1);
        assert SmartCompFrom(g, from) == r;
        CompleteAtEffect(g, from);
        CompletedPositionsFrame(g.piles, g1.piles, from + 1);
        assert CompletedPositions(g.piles, from) == [from] + rest;
        if rest == [] {
          SmartCompIdle(g1, from + 1);
        } else {
          SmartCompLog(g1, from + 1);
          LogAfterCompletion(g, g1, from, rest, r);
        }
      } else {
        assert SmartCompFrom(g, from) == SmartCompFrom(g, from + 1);
        assert CompletedPositions(g.piles, from) == rest;
        SmartCompLog(g, from + 1);
      }
    }
  }

  /** The induction step of SmartCompLog when pile `from` was completed and
      later piles were completed too. */
  lemma LogAfterCompletion(g: Game, g1: Game, from: nat, rest: seq<nat>, r: Game)
    requires WellFormed(g) && WellFormed(g1) && from < 8 && |g.piles[from]| >= 13
    requires rest == CompletedPositions(g.piles, from + 1) && rest != []
    requires g1.history == g.history[..g.head] + [CompletionLogged(g, from)] && g1.head == g.head + 1
    requires forall q :: from < q < 10 ==> g1.piles[q] == g.piles[q] && g1.hidden[q] == g.hidden[q]
    requires WellFormed(r)
    requires |r.history| == g1.head + |rest| && r.head == |r.history|
    requires r.history[..g1.head] == g1.history[..g1.head]
    requires forall j :: 0 <= j < |rest| ==> r.history[g1.head + j] == CompletionLogged(g1, rest[j])
    ensures var ps := [from] + rest;
      |r.history| == g.head + |ps| &&
      r.history[..g.head] == g.history[..g.head] &&
      forall j :: 0 <= j < |ps| ==> r.history[g.head + j] == CompletionLogged(g, ps[j])
  {
    var ps := [from] + rest;
    assert r.history[..g1.head] == g1.history;
    assert r.history[..g.head] == r.history[..g1.head][..g.head];
    forall j | 0 <= j < |ps| ensures r.history[g.head + j] == CompletionLogged(g, ps[j]) {
      if j == 0 {
        assert r.history[g.head] == r.history[..g1.head][g.head];
      } else {
        assert ps[j] == rest[j - 1];
        assert r.history[g1.head + (j - 1)] == CompletionLogged(g1, rest[j - 1]);
      }
    }
  }

  /** SmartComp completes every completable pile among 0-7 and never touches
      piles 8 and 9 or the stack. */
  lemma SmartCompPiles(g: Game)
    requires WellFormed(g)
    ensures var r := StepSmartComp(g);
      r.stack == g.stack &&
      r.piles[8] == g.piles[8] && r.piles[9] == g.piles[9] &&
      forall q :: 0 <= q < 8 ==>
        r.piles[q] == (if Completable(g.piles[q]) then g.piles[q][..|g.piles[q]| - 13] else g.piles[q])
  {
    SmartCompTableau(g, 0);
    var r := StepSmartComp(g);
    assert !CompletesAt(g.piles, 8, 0) && !CompletesAt(g.piles, 9, 0);
    forall q | 0 <= q < 8
      ensures r.piles[q] == (if Completable(g.piles[q]) then g.piles[q][..|g.piles[q]| - 13] else g.piles[q])
    {
      assert CompletesAt(g.piles, q, 0) == Completable(g.piles[q]);
    }
  }

  /** The positions SmartComp visits are exactly the completable piles among
      0-7, in ascending order. */
  lemma CompletedPositionsExact(piles: seq<seq<Card>>)
    requires |piles| == 10
    ensures var ps := CompletedPositions(piles, 0);
      (forall q :: q in ps <==> 0 <= q < 8 && Completable(piles[q])) &&
      (forall i, j :: 0 <= i < j < |ps| ==> ps[i] < ps[j])
  {
    var ps := CompletedPositions(piles, 0);
    forall q | 0 <= q < 8 && Completable(piles[q]) ensures q in ps {
      CompletedPositionsCover(piles, 0, q);
    }
  }

  /** SmartComp logs one CompleteSuit action per completed pile, in ascending
      pile order, counts each completion, and changes nothing when no pile
      among 0-7 is completable. Which piles those are is stated by
      CompletedPositionsExact. */
  lemma SmartCompLogged(g: Game)
    requires WellFormed(g)
    ensures var r := StepSmartComp(g);
      var ps := CompletedPositions(g.piles, 0);
      r.completed == (g.completed + |ps|) % 256 &&
      (ps == [] ==> r == g) &&
      (ps != [] ==>
         r.head == |r.history| && |r.history| == g.head + |ps| &&
         r.history[..g.head] == g.history[..g.head] &&
         forall j :: 0 <= j < |ps| ==> r.history[g.head + j] == CompletionLogged(g, ps[j]))
  {
    var r := StepSmartComp(g);
    var ps := CompletedPositions(g.piles, 0);
    SmartCompCount(g, 0);
    if ps == [] {
      SmartCompIdle(g, 0);
      assert r == g;
    } else {
      SmartCompLog(g, 0);
    }
  }

  /** Restart ends at the start of the log and keeps the whole log, so Redo
      can replay the game; the completed counter is untouched. */
  lemma RestartKeepsLog(g: Game)
    requires WellFormed(g) && CanRewind(g)
    ensures var r := StepRestart(g);
      r.head == 0 && r.history == g.history && r.completed == g.completed &&
      StepUndo(r) == r
  {
  }

  /** The run test ignores hidden cards: a face-down card can be moved away,
      after which the hidden count exceeds the pile length. */
  lemma MoveFromHiddenRegion(c: Card)
    ensures var g := Game([], [[c], [], [], [], [], [], [], [], [], []], [1, 0, 0, 0, 0, 0, 0, 0, 0, 0], 0, [], 0);
      MoveOk(g, 0, 0, 1) && 0 < g.hidden[0] && Accepts(g, 0, 0, 1) &&
      var r := StepMove(g, 0, 0, 1);
      r.piles[1] == [c] && r.hidden[0] == 1 > |r.piles[0]|
  {
    var g := Game([], [[c], [], [], [], [], [], [], [], [], []], [1, 0, 0, 0, 0, 0, 0, 0, 0, 0], 0, [], 0);
    SingleCardIsSequence(g.piles[0]);
  }
}
