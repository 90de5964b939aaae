/** The Spider-Solitaire game state as a value, and the effect of every
    command and of undoing or redoing every logged action on it. The class
    in module Board carries out the same effects in place; each of its
    methods is proved to agree with the matching function here (the same
    name for a helper, `Step<Name>` for a command arm, `Step` for GameStep). */
module Engine {
  import opened Cards
  import opened Rules

  /** Commands that reach the engine (the parser is not part of the model). */
  datatype Input =
    | NewGame
    | Help
    | Move(source: nat, index: nat, target: nat)
    | Stack
    | CompleteSuit(pos: nat)
    | Undo
    | Redo
    | SmartMove(source: nat, target: nat)
    | SmartComp
    | Restart

  /** One logged, reversible effect. `discover` records whether a hidden card
      was turned face-up by it. */
  datatype Action =
    | MoveAction(source: nat, sourceIndex: nat, target: nat, targetIndex: nat, discover: bool)
    | StackAction
    | CompleteSuitAction(pos: nat, suit: Suit, discover: bool)

  /** Reserve stack, ten piles, per-pile hidden counts, completed suits
      (an 8-bit counter), the action log and its cursor. */
  datatype Game = Game(
    stack: seq<Card>,
    piles: seq<seq<Card>>,
    hidden: seq<nat>,
    completed: nat,
    history: seq<Action>,
    head: nat)

  predicate ActionInRange(a: Action) {
    match a
    case MoveAction(s, _, t, _, _) => s < 10 && t < 10
    case StackAction => true
    case CompleteSuitAction(p, _, _) => p < 10
  }

  /** Shape of every state the engine produces: ten piles, ten hidden counts,
      an 8-bit completed counter, a cursor inside the log. */
  predicate WellFormed(g: Game) {
    |g.piles| == 10 && |g.hidden| == 10 && g.completed < 256 &&
    g.head <= |g.history| &&
    forall a :: a in g.history ==> ActionInRange(a)
  }

  /** What the two-deck deal gives: the first 50 cards to the stack, then
      5 cards to each of piles 0-5 and the rest to piles 6-9 (6 each for a
      104-card deck). */
  function InitGame(deck: seq<Card>): (g: Game)
    requires |deck| >= 98
    ensures WellFormed(g) && g.completed == 0 && g.history == [] && g.head == 0
  {
    Game(
      deck[..50],
      [deck[50..55], deck[55..60], deck[60..65], deck[65..70], deck[70..75],
       deck[75..80], deck[80..86], deck[86..92], deck[92..98], deck[98..]],
      [4, 4, 4, 4, 4, 4, 5, 5, 5, 5],
      0, [], 0)
  }

  /** Log an action: the undone future is dropped and the cursor moves past it. */
  function Write(g: Game, a: Action): (r: Game)
    requires WellFormed(g) && ActionInRange(a)
    ensures WellFormed(r)
  {
    g.(history := g.history[..g.head] + [a], head := g.head + 1)
  }

  /** Discovery fires when the pile has shrunk to its hidden part. */
  predicate Flips(hidden: nat, length: nat) {
    hidden == length && hidden > 0
  }

  /** Turn the top hidden card of pile `p` face-up if the pile has shrunk
      to its hidden cards; report whether that happened. */
  function Discover(g: Game, p: nat): (r: (Game, bool))
    requires WellFormed(g) && p < 10
    ensures WellFormed(r.0)
  {
    if Flips(g.hidden[p], |g.piles[p]|) then
      (g.(hidden := g.hidden[p := g.hidden[p] - 1]), true)
    else
      (g, false)
  }

  /** Take the cards of pile `from` from position `at` up and put them, in
      order, on top of pile `to` (first the drain, then the append). */
  function Transfer(piles: seq<seq<Card>>, from: nat, at: nat, to: nat): (r: seq<seq<Card>>)
    requires from < |piles| && to < |piles| && at <= |piles[from]|
    ensures |r| == |piles|
  {
    var moved := piles[from][at..];
    var drained := piles[from := piles[from][..at]];
    drained[to := drained[to] + moved]
  }

  /** When the Move arm can run without a panic: valid pile numbers, an index
      inside the source, and no Ace on a non-empty target once the run test
      has passed (the successor of an Ace is unwrapped). */
  predicate MoveOk(g: Game, source: nat, index: nat, target: nat) {
    WellFormed(g) && source < 10 && target < 10 && index < |g.piles[source]| &&
    (InSequence(g.piles[source], index) && |g.piles[target]| > 0 ==>
       Top(g.piles[target]).value != Ace)
  }

  /** The two tests of an explicit move: a run from `index`, and an empty
      target or a target whose top rank's successor is the moved card's rank.
      Suits across piles are not compared. */
  predicate Accepts(g: Game, source: nat, index: nat, target: nat)
    requires MoveOk(g, source, index, target)
  {
    InSequence(g.piles[source], index) &&
    (|g.piles[target]| == 0 ||
     Succ(Top(g.piles[target]).value) == Some(g.piles[source][index].value))
  }

  /** Effect of a move that passed its tests: transfer, discover, log. */
  function MoveCards(g: Game, source: nat, index: nat, target: nat): (r: Game)
    requires WellFormed(g) && source < 10 && target < 10 && index <= |g.piles[source]|
    ensures WellFormed(r)
  {
    var targetIndex := |g.piles[target]|;
    var (g1, d) := Discover(g.(piles := Transfer(g.piles, source, index, target)), source);
    Write(g1, MoveAction(source, index, target, targetIndex, d))
  }

  function StepMove(g: Game, source: nat, index: nat, target: nat): (r: Game)
    requires MoveOk(g, source, index, target)
    ensures WellFormed(r)
  {
    if Accepts(g, source, index, target) then MoveCards(g, source, index, target) else g
  }

  /** Effect of removing the top 13 cards of a pile as a finished suit:
      truncate, bump the 8-bit counter, discover, log the suit. */
  function CompleteAt(g: Game, pos: nat): (r: Game)
    requires WellFormed(g) && pos < 10 && |g.piles[pos]| >= 13
    ensures WellFormed(r)
  {
    var pile := g.piles[pos];
    var suit := Top(pile).suit;
    var (g1, d) := Discover(
      g.(piles := g.piles[pos := pile[..|pile| - 13]], completed := (g.completed + 1) % 256), pos);
    Write(g1, CompleteSuitAction(pos, suit, d))
  }

  /** The CompleteSuit arm; the pile needs 13 cards (`len - 13` in usize). */
  function StepCompleteSuit(g: Game, pos: nat): (r: Game)
    requires WellFormed(g) && pos < 10 && |g.piles[pos]| >= 13
    ensures WellFormed(r)
  {
    if Completable(g.piles[pos]) then CompleteAt(g, pos) else g
  }

  /** Pile `p` gets the stack's card at position `len - 1 - p`
      (pop onto pile 0 first). */
  function Dealt(piles: seq<seq<Card>>, stack: seq<Card>): (r: seq<seq<Card>>)
    requires |piles| == 10 && |stack| >= 10
    ensures |r| == 10
  {
    seq(10, p requires 0 <= p < 10 => piles[p] + [stack[|stack| - 1 - p]])
  }

  /** The Stack arm (a deal). A stack that is neither empty nor at least
      ten cards long would make `pop().unwrap()` panic. */
  function StepStack(g: Game): (r: Game)
    requires WellFormed(g) && (|g.stack| == 0 || |g.stack| >= 10)
    ensures WellFormed(r)
  {
    if |g.stack| == 0 then g
    else Write(g.(piles := Dealt(g.piles, g.stack), stack := g.stack[..|g.stack| - 10]), StackAction)
  }

  /** One SmartComp iteration: positions below 8 only, skip short piles and
      piles without an Ace on top, then the run test. */
  function SmartCompFrom(g: Game, pos: nat): (r: Game)
    requires WellFormed(g) && pos <= 8
    ensures WellFormed(r)
    decreases |g.piles| - pos
  {
    if pos == 8 then g
    else
      var pile := g.piles[pos];
      var g1 := if |pile| >= 13 && Top(pile).value == Ace && InSequence(pile, |pile| - 13)
                then CompleteAt(g, pos) else g;
      SmartCompFrom(g1, pos + 1)
  }

  function StepSmartComp(g: Game): (r: Game)
    requires WellFormed(g)
    ensures WellFormed(r)
  {
    SmartCompFrom(g, 0)
  }

  /** The SmartMove arm. Onto an empty target only a one-card source acts,
      and it pushes a copy of that card (the source keeps it). Otherwise the
      topmost card of the needed rank is located and moved if it starts a run. */
  function StepSmartMove(g: Game, source: nat, target: nat): (r: Game)
    requires WellFormed(g) && source < 10 && target < 10
    ensures WellFormed(r)
  {
    var src := g.piles[source];
    var dst := g.piles[target];
    if |src| == 0 then g
    else if |dst| == 0 then
      if |src| == 1 then
        Write(g.(piles := g.piles[target := dst + [src[0]]]), MoveAction(source, 0, target, 0, false))
      else g
    else
      match Succ(Top(dst).value)
      case None => g
      case Some(v) =>
        match TopmostWith(src, v)
        case None => g
        case Some(i) => if InSequence(src, i) then MoveCards(g, source, i, target) else g
  }

  /** What undoing `a` needs so that no drain, pop or index panics. */
  predicate UndoOk(g: Game, a: Action)
    requires WellFormed(g) && ActionInRange(a)
  {
    match a
    case MoveAction(_, _, t, ti, _) => ti <= |g.piles[t]|
    case StackAction => forall p :: 0 <= p < 10 ==> |g.piles[p]| > 0
    case CompleteSuitAction(_, _, _) => true
  }

  /** Replay the inverse of `a`. A deal is undone pile 0 first, each top card
      pushed onto the stack; a completed suit is rebuilt King..Ace from its
      suit. The completed counter and the log are left alone. */
  function UndoAction(g: Game, a: Action): (r: Game)
    requires WellFormed(g) && ActionInRange(a) && UndoOk(g, a)
    ensures WellFormed(r)
    ensures r.completed == g.completed && r.history == g.history && r.head == g.head
  {
    match a
    case StackAction =>
      g.(stack := g.stack + seq(10, p requires 0 <= p < 10 => Top(g.piles[p])),
         piles := seq(10, p requires 0 <= p < 10 => g.piles[p][..|g.piles[p]| - 1]))
    case CompleteSuitAction(pos, suit, d) =>
      g.(piles := g.piles[pos := g.piles[pos] + SuitRun(suit)],
         hidden := if d then g.hidden[pos := g.hidden[pos] + 1] else g.hidden)
    case MoveAction(s, _, t, ti, d) =>
      g.(piles := Transfer(g.piles, t, ti, s),
         hidden := if d then g.hidden[s := g.hidden[s] + 1] else g.hidden)
  }

  /** What redoing `a` needs so that no drain, pop, subtraction or index panics. */
  predicate RedoOk(g: Game, a: Action)
    requires WellFormed(g) && ActionInRange(a)
  {
    match a
    case MoveAction(s, si, _, _, d) => si <= |g.piles[s]| && (d ==> g.hidden[s] > 0)
    case StackAction => |g.stack| >= 10
    case CompleteSuitAction(pos, _, d) => |g.piles[pos]| >= 13 && (d ==> g.hidden[pos] > 0)
  }

  /** Replay `a` from its recorded parameters, without re-checking the rules.
      The completed counter and the log are left alone. */
  function RedoAction(g: Game, a: Action): (r: Game)
    requires WellFormed(g) && ActionInRange(a) && RedoOk(g, a)
    ensures WellFormed(r)
    ensures r.completed == g.completed && r.history == g.history && r.head == g.head
  {
    match a
    case StackAction =>
      g.(piles := Dealt(g.piles, g.stack), stack := g.stack[..|g.stack| - 10])
    case CompleteSuitAction(pos, _, d) =>
      g.(piles := g.piles[pos := g.piles[pos][..|g.piles[pos]| - 13]],
         hidden := if d then g.hidden[pos := g.hidden[pos] - 1] else g.hidden)
    case MoveAction(s, si, t, _, d) =>
      g.(piles := Transfer(g.piles, s, si, t),
         hidden := if d then g.hidden[s := g.hidden[s] - 1] else g.hidden)
  }

  predicate UndoReady(g: Game)
    requires WellFormed(g)
  {
    g.head == 0 || UndoOk(g, g.history[g.head - 1])
  }

  predicate RedoReady(g: Game)
    requires WellFormed(g)
  {
    g.head == |g.history| || RedoOk(g, g.history[g.head])
  }

  /** The Undo arm: step the cursor back and undo the action it now points at. */
  function StepUndo(g: Game): (r: Game)
    requires WellFormed(g) && UndoReady(g)
    ensures WellFormed(r) && r.history == g.history && r.completed == g.completed
    ensures r.head == if g.head == 0 then 0 else g.head - 1
  {
    if g.head == 0 then g
    else UndoAction(g.(head := g.head - 1), g.history[g.head - 1])
  }

  /** The Redo arm: redo the action under the cursor and step past it. */
  function StepRedo(g: Game): (r: Game)
    requires WellFormed(g) && RedoReady(g)
    ensures WellFormed(r) && r.history == g.history && r.completed == g.completed
    ensures r.head == if g.head == |g.history| then g.head else g.head + 1
  {
    if g.head == |g.history| then g
    else RedoAction(g, g.history[g.head]).(head := g.head + 1)
  }

  /** Every undo that Restart will perform can run. */
  predicate CanRewind(g: Game)
    requires WellFormed(g)
    decreases g.head
  {
    g.head == 0 || (UndoReady(g) && CanRewind(StepUndo(g)))
  }

  /** The Restart arm: undo until the cursor is at the start of the log. */
  function StepRestart(g: Game): (r: Game)
    requires WellFormed(g) && CanRewind(g)
    ensures WellFormed(r) && r.head == 0
    ensures r.history == g.history && r.completed == g.completed
    decreases g.head
  {
    if g.head == 0 then g else StepRestart(StepUndo(g))
  }

  /** The conditions under which `game_step` does not panic on `input`. */
  predicate StepOk(g: Game, input: Input)
    requires WellFormed(g)
  {
    match input
    case NewGame => true
    case Help => true
    case Move(s, i, t) => MoveOk(g, s, i, t)
    case Stack => |g.stack| == 0 || |g.stack| >= 10
    case CompleteSuit(pos) => pos < 10 && |g.piles[pos]| >= 13
    case Undo => UndoReady(g)
    case Redo => RedoReady(g)
    case SmartMove(s, t) => s < 10 && t < 10
    case SmartComp => true
    case Restart => CanRewind(g)
  }

  /** One state transition of `game_step`; NewGame and Help only print. */
  function Step(g: Game, input: Input): (r: Game)
    requires WellFormed(g) && StepOk(g, input)
    ensures WellFormed(r)
  {
    match input
    case NewGame => g
    case Help => g
    case Move(s, i, t) => StepMove(g, s, i, t)
    case Stack => StepStack(g)
    case CompleteSuit(pos) => StepCompleteSuit(g, pos)
    case Undo => StepUndo(g)
    case Redo => StepRedo(g)
    case SmartMove(s, t) => StepSmartMove(g, s, t)
    case SmartComp => StepSmartComp(g)
    case Restart => StepRestart(g)
  }
}
