/** The game state as the program keeps it: one object whose piles and hidden
    counts are fixed-size arrays updated in place, and whose stack, counter
    and log are fields reassigned by each command. Every method is proved to
    have exactly the effect the matching Engine function describes (the same
    name for a helper, `Step<Name>` for a command arm, `Step` for GameStep);
    DealRound, which has no Engine counterpart, is specified through
    Engine.Dealt. */
module Board {
  import opened Cards
  import opened Rules
  import Engine

  class GameState {
    var stack: seq<Card>
    const piles: array<seq<Card>>
    const hidden: array<nat>
    var completed: nat
    var history: seq<Engine.Action>
    var historyHead: nat

    /** The state as a value. */
    ghost function Model(): Engine.Game
      reads this, piles, hidden
    {
      Engine.Game(stack, piles[..], hidden[..], completed, history, historyHead)
    }

    ghost predicate Valid()
      reads this, piles, hidden
    {
      piles.Length == 10 && hidden.Length == 10 && Engine.WellFormed(Model())
    }

    /** Deal a 104-card (at least 98-card) deck. */
    constructor (deck: seq<Card>)
      requires |deck| >= 98
      ensures Valid() && Model() == Engine.InitGame(deck)
      ensures fresh(piles) && fresh(hidden)
    {
      stack := deck[..50];
      piles := new seq<Card>[10] [deck[50..55], deck[55..60], deck[60..65], deck[65..70], deck[70..75],
                                 deck[75..80], deck[80..86], deck[86..92], deck[92..98], deck[98..]];
      hidden := new nat[10] [4, 4, 4, 4, 4, 4, 5, 5, 5, 5];
      completed := 0;
      history := [];
      historyHead := 0;
    }

    /** Append an action to the log, dropping everything past the cursor. */
    method Write(action: Engine.Action)
      requires Valid() && Engine.ActionInRange(action)
      modifies this
      ensures Valid() && Model() == Engine.Write(old(Model()), action)
    {
      history := history[..historyHead] + [action];
      historyHead := historyHead + 1;
    }

    /** Turn the top hidden card of `pile` face-up if the pile has shrunk to it. */
    method Discover(pile: nat) returns (d: bool)
      requires Valid() && pile < 10
      modifies hidden
      ensures Valid() && (Model(), d) == Engine.Discover(old(Model()), pile)
    {
      if hidden[pile] == |piles[pile]| && hidden[pile] > 0 {
        hidden[pile] := hidden[pile] - 1;
        return true;
      } else {
        return false;
      }
    }

    /** Drain `source` from `index` onto `target`, discover, log. */
    method MoveCards(source: nat, index: nat, target: nat)
      requires Valid() && source < 10 && target < 10 && index <= |piles[source]|
      modifies this, piles, hidden
      ensures Valid() && Model() == Engine.MoveCards(old(Model()), source, index, target)
    {
      var targetIndex := |piles[target]|;
      var cards := piles[source][index..];
      piles[source] := piles[source][..index];
      piles[target] := piles[target] + cards;
      var d := Discover(source);
      Write(Engine.MoveAction(source, index, target, targetIndex, d));
    }

    /** The explicit move command. */
    method Move(source: nat, index: nat, target: nat)
      requires Valid() && Engine.MoveOk(Model(), source, index, target)
      modifies this, piles, hidden
      ensures Valid() && Model() == Engine.StepMove(old(Model()), source, index, target)
    {
      var run := IsSequence(piles[source], index);
      if !run {
        return;
      }
      if |piles[target]| > 0 {
        SuccIsNextRank(Top(piles[target]).value, piles[source][index].value);
        if Succ(Top(piles[target]).value).value != piles[source][index].value {
          return;
        }
      }
      MoveCards(source, index, target);
    }

    /** Remove the top 13 cards of `pos` as a finished suit. */
    method CompleteAt(pos: nat)
      requires Valid() && pos < 10 && |piles[pos]| >= 13
      modifies this, piles, hidden
      ensures Valid() && Model() == Engine.CompleteAt(old(Model()), pos)
    {
      var i := |piles[pos]| - 13;
      var suit := Top(piles[pos]).suit;
      piles[pos] := piles[pos][..i];
      completed := (completed + 1) % 256;
      var d := Discover(pos);
      Write(Engine.CompleteSuitAction(pos, suit, d));
    }

    /** The complete-suit command. */
    method CompleteSuit(pos: nat)
      requires Valid() && pos < 10 && |piles[pos]| >= 13
      modifies this, piles, hidden
      ensures Valid() && Model() == Engine.StepCompleteSuit(old(Model()), pos)
    {
      var i := |piles[pos]| - 13;
      var run := IsSequence(piles[pos], i);
      if !run {
        return;
      }
      CompleteAt(pos);
    }

    /** Pop one card off the stack onto each pile, pile 0 first. */
    method DealRound()
      requires Valid() && |stack| >= 10
      modifies this, piles
      ensures Valid()
      ensures Model() == old(Model()).(piles := Engine.Dealt(old(piles[..]), old(stack)),
                                       stack := old(stack)[..|old(stack)| - 10])
    {
      var p := 0;
      while p < 10
        invariant 0 <= p <= 10
        invariant stack == old(stack)[..|old(stack)| - p]
        invariant forall q :: 0 <= q < p ==> piles[q] == old(piles[q]) + [old(stack)[|old(stack)| - 1 - q]]
        invariant forall q :: p <= q < 10 ==> piles[q] == old(piles[q])
        invariant completed == old(completed) && history == old(history) && historyHead == old(historyHead)
      {
        piles[p] := piles[p] + [stack[|stack| - 1]];
        stack := stack[..|stack| - 1];
        p := p + 1;
      }
    }

    /** The deal command. */
    method Stack()
      requires Valid() && (|stack| == 0 || |stack| >= 10)
      modifies this, piles
      ensures Valid() && Model() == Engine.StepStack(old(Model()))
    {
      if |stack| == 0 {
        return;
      }
      DealRound();
      Write(Engine.StackAction);
    }

    /** Complete every finished suit among piles 0-7, in pile order. */
    method SmartComp()
      requires Valid()
      modifies this, piles, hidden
      ensures Valid() && Model() == Engine.StepSmartComp(old(Model()))
    {
      var pos := 0;
      while pos < 8
        invariant 0 <= pos <= 8 && Valid()
        invariant Engine.SmartCompFrom(Model(), pos) == Engine.SmartCompFrom(old(Model()), 0)
      {
        if |piles[pos]| >= 13 && Top(piles[pos]).value == Ace {
          var run := IsSequence(piles[pos], |piles[pos]| - 13);
          if run {
            CompleteAt(pos);
          }
        }
        pos := pos + 1;
      }
    }

    /** The smart move command: find the index to move from `source` onto `target`. */
    method SmartMove(source: nat, target: nat)
      requires Valid() && source < 10 && target < 10
      modifies this, piles, hidden
      ensures Valid() && Model() == Engine.StepSmartMove(old(Model()), source, target)
    {
      if |piles[source]| == 0 {
        return;
      }
      if |piles[target]| == 0 {
        if |piles[source]| == 1 {
          piles[target] := piles[target] + [piles[source][0]];
          Write(Engine.MoveAction(source, 0, target, 0, false));
        }
        return;
      }
      var value: Value;
      match Succ(Top(piles[target]).value) {
        case None =>
          return;
        case Some(v) =>
          value := v;
      }
      var top := |piles[source]|;
      var i := top;
      while i > 0
        invariant 0 <= i <= top == |piles[source]| && Valid() && Model() == old(Model())
        invariant TopmostWith(piles[source], value) == TopmostWith(piles[source][..i], value)
      {
        var sourceIndex := i - 1;
        if piles[source][sourceIndex].value == value {
          assert piles[source][..i][..sourceIndex] == piles[source][..sourceIndex];
          var run := IsSequence(piles[source], sourceIndex);
          if !run {
            return;
          }
          MoveCards(source, sourceIndex, target);
          return;
        }
        assert piles[source][..i][..sourceIndex] == piles[source][..sourceIndex];
        i := i - 1;
      }
    }

    /** Replay the inverse of a logged action. */
    method UndoAction(action: Engine.Action)
      requires Valid() && Engine.ActionInRange(action) && Engine.UndoOk(Model(), action)
      modifies this, piles, hidden
      ensures Valid() && Model() == Engine.UndoAction(old(Model()), action)
    {
      match action
      case StackAction =>
        ghost var before := piles[..];
        var p := 0;
        while p < 10
          invariant 0 <= p <= 10
          invariant stack == old(stack) + seq(p, j requires 0 <= j < p => Top(before[j]))
          invariant forall q :: 0 <= q < p ==> piles[q] == old(piles[q])[..|old(piles[q])| - 1]
          invariant forall q :: p <= q < 10 ==> piles[q] == old(piles[q])
          invariant completed == old(completed) && history == old(history) && historyHead == old(historyHead)
          invariant hidden[..] == old(hidden[..])
        {
          stack := stack + [Top(piles[p])];
          piles[p] := piles[p][..|piles[p]| - 1];
          p := p + 1;
        }
      case CompleteSuitAction(pos, suit, d) =>
        for k := 0 to 13
          invariant piles[pos] == old(piles[pos]) + SuitRun(suit)[..k]
          invariant forall q :: 0 <= q < 10 && q != pos ==> piles[q] == old(piles[q])
          invariant stack == old(stack) && completed == old(completed)
          invariant history == old(history) && historyHead == old(historyHead)
          invariant hidden[..] == old(hidden[..])
        {
          piles[pos] := piles[pos] + [Card(Values[k], suit)];
        }
        assert SuitRun(suit)[..13] == SuitRun(suit);
        assert piles[..] == old(piles[..])[pos := old(piles[pos]) + SuitRun(suit)];
        if d {
          hidden[pos] := hidden[pos] + 1;
        }
      case MoveAction(source, _, target, targetIndex, d) =>
        var cards := piles[target][targetIndex..];
        piles[target] := piles[target][..targetIndex];
        piles[source] := piles[source] + cards;
        if d {
          hidden[source] := hidden[source] + 1;
        }
    }

    /** Replay a logged action forward from its recorded parameters. */
    method RedoAction(action: Engine.Action)
      requires Valid() && Engine.ActionInRange(action) && Engine.RedoOk(Model(), action)
      modifies this, piles, hidden
      ensures Valid() && Model() == Engine.RedoAction(old(Model()), action)
    {
      match action
      case StackAction =>
        DealRound();
      case CompleteSuitAction(pos, _, d) =>
        var i := |piles[pos]| - 13;
        piles[pos] := piles[pos][..i];
        if d {
          hidden[pos] := hidden[pos] - 1;
        }
      case MoveAction(source, sourceIndex, target, _, d) =>
        var cards := piles[source][sourceIndex..];
        piles[source] := piles[source][..sourceIndex];
        piles[target] := piles[target] + cards;
        if d {
          hidden[source] := hidden[source] - 1;
        }
    }

    /** The undo command. */
    method Undo()
      requires Valid() && Engine.UndoReady(Model())
      modifies this, piles, hidden
      ensures Valid() && Model() == Engine.StepUndo(old(Model()))
    {
      if historyHead == 0 {
        return;
      }
      historyHead := historyHead - 1;
      UndoAction(history[historyHead]);
    }

    /** The redo command. */
    method Redo()
      requires Valid() && Engine.RedoReady(Model())
      modifies this, piles, hidden
      ensures Valid() && Model() == Engine.StepRedo(old(Model()))
    {
      if historyHead == |history| {
        return;
      }
      RedoAction(history[historyHead]);
      historyHead := historyHead + 1;
    }

    /** The restart command: undo back to the start of the log. */
    method Restart()
      requires Valid() && Engine.CanRewind(Model())
      modifies this, piles, hidden
      ensures Valid() && Model() == Engine.StepRestart(old(Model()))
    {
      while historyHead > 0
        invariant Valid() && Engine.CanRewind(Model())
        invariant Engine.StepRestart(Model()) == Engine.StepRestart(old(Model()))
        decreases historyHead
      {
        historyHead := historyHead - 1;
        UndoAction(history[historyHead]);
      }
    }

    /** One command of the game loop. */
    method GameStep(input: Engine.Input)
      requires Valid() && Engine.StepOk(Model(), input)
      modifies this, piles, hidden
      ensures Valid() && Model() == Engine.Step(old(Model()), input)
    {
      match input
      case NewGame =>
      case Help =>
      case Move(source, index, target) =>
        Move(source, index, target);
      case Stack =>
        Stack();
      case CompleteSuit(pos) =>
        CompleteSuit(pos);
      case Undo =>
        Undo();
      case Redo =>
        Redo();
      case SmartMove(source, target) =>
        SmartMove(source, target);
      case SmartComp =>
        SmartComp();
      case Restart =>
        Restart();
    }
  }
}
