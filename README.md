# Spider-Solitaire game state, modelled in Dafny

This project models the game-state machine of `rusty-spider`, a terminal
Spider-Solitaire engine. The model covers:

- the cards: ranks King..Ace, their successor relation, four suits and the
  unshuffled 104-card deck;
- the run predicate `is_sequence`;
- the initial deal `init_game`;
- hidden-card discovery and the undo log (`write`);
- every state-changing arm of `game_step`: explicit Move, CompleteSuit,
  Stack (deal), SmartComp, SmartMove, Undo, Redo and Restart;
- `undo_action` and `redo_action`.

The project has two layers:

- `engine.dfy` (module `Engine`) describes the game as a value, `Game`. It
  has one function per command and one per undo or redo of each logged
  `Action`.
- `state.dfy` (module `Board`) is the program's actual shape. `GameState` is
  a class whose ten piles and ten hidden counts are fixed-size arrays updated
  in place, and whose stack, counter and log are fields. Each method mirrors
  one Rust function, one `game_step` arm, or a block that several arms repeat
  (`MoveCards` for src/main.rs:267-271 and 337-341, `CompleteAt` for 276-281
  and 299-304, `DealRound` for 288-290 and 377-379), loops included. Each is proved to end
  in `Model() == Engine.F(old(Model()), …)`, where `F` is the matching Engine
  function: the same name for a helper (`Write`, `Discover`, `MoveCards`,
  `CompleteAt`, `UndoAction`, `RedoAction`), `Step<Name>` for a command arm,
  and `Step` for `GameStep`. `DealRound` has no Engine counterpart of its own;
  its ensures spells out the new piles through `Engine.Dealt`.

The other files:

- `properties.dfy` (module `Properties`) proves what the engine does: per
  arm effects, plus single-step undo/redo laws (apply an action then undo it;
  undo it then redo it).
- `cards.dfy` and `rules.dfy` hold the card model, the run predicate and the
  facts about runs.

The model follows the code as written, also where it departs from the usual
Spider rules or from what the source's own TODO comments say is wanted:

- The run test never looks at hidden counts. So a face-down card can be
  moved, after which a hidden count can exceed its pile length
  (`Properties.MoveFromHiddenRegion`). The TODO at src/main.rs:342 ("don't
  allow movement of hidden cards") marks this as unintended.
- SmartComp scans piles 0 to 7 only (`for pos in 0..8`, src/main.rs:294), so
  a finished suit on pile 8 or 9 is never completed by it
  (`Properties.SmartCompPiles`). The TODO on that line suggests iterating
  over the piles instead.
- Undo and redo never change the completed-suit counter
  (`Engine.UndoAction`, `Engine.RedoAction`). So undoing a completion and
  completing the same suit again counts it twice.
- Undoing a deal pushes the ten cards back in pile order 0 to 9
  (src/main.rs:353-355). They sit on the stack reversed, and a redo then
  deals them out reversed (`Properties.RedoAfterUndoStack`). The TODO at
  src/main.rs:353 ("reverse this in a nice way") marks the order as known.
- SmartMove onto an empty target acts only when the source has exactly one
  card. It pushes a copy and leaves the source unchanged, and logs
  `Move{source_i: 0, target_i: 0, discover: false}` (src/main.rs:313-321).
  Undoing that puts a second copy on the source
  (`Properties.SmartMoveOntoEmpty`). Under the usual rules the card would
  move. The TODO at src/main.rs:323 ("allow move if only one card in
  sequence") asks for a move to be allowed when only the top card of the
  source is in sequence; the code refuses every source of more than one card.
- A deal needs the stack to be empty (a no-op) or at least ten cards long:
  `stack.pop().unwrap()` at src/main.rs:289 panics otherwise. From the
  50-card initial stack, deals always leave a multiple of ten
  (`Properties.StackEffect`).

## Model

| member | source | states |
|---|---|---|
| `Cards.Rank` | src/main.rs:45-59 | every rank has a position below 13 in `Values`, and `Values` at that position is that rank |
| `Cards.SuccIsNextRank` | src/main.rs:61-77 | `succ(v) == Some(w)` exactly when `w` is the next rank down from `v`, and `succ(v)` is none exactly for the Ace |
| `Cards.ValuesChain` | src/main.rs:45-77 | `VALUES` runs King..Ace, each entry followed by its successor |
| `Cards.ProductAt` | src/main.rs:178-180 | the suit × value product has 13 cards per suit slot; card `13j+k` is value `k` of slot `j` |
| `Cards.OrderedDeckShape` | src/main.rs:167-180 | for 1, 2 or 4 suits the unshuffled deck has 104 cards; slot `j` holds King..Ace of its suit |
| `Rules.IsSequence` | src/main.rs:211-229 | the zip loop returns true exactly when every adjacent pair from `index` to the top has the successor rank and the same suit |
| `Rules.SingleCardIsSequence` | src/main.rs:212 | the top card alone is always a run |
| `Rules.RunShape` | src/main.rs:217-227 | inside a run each card is one rank lower than the one below it, and the suit is constant |
| `Rules.FullRunIsSuitRun` | src/main.rs:358-359 | the top 13 cards form a run exactly when they are King..Ace of the top card's suit, which is what undo rebuilds |
| `Rules.CompletableEndsInAce` | src/main.rs:296-298 | a completable pile has an Ace on top, so SmartComp's Ace test rejects nothing the run test accepts |
| `Rules.TopmostWith` | src/main.rs:330-332 | the reverse scan finds the highest index holding the wanted rank, or reports that no card has it |
| `Engine.InitGame` | src/main.rs:188-209 | the dealt state is well formed, with nothing completed and an empty log |
| `Engine.Write` | src/main.rs:150-154 | logging keeps the state well formed (cursor inside the log) |
| `Engine.Discover` | src/main.rs:156-164 | discovery keeps the state well formed |
| `Engine.Transfer` | src/main.rs:268-269 | draining one pile onto another keeps ten piles |
| `Engine.MoveCards` | src/main.rs:267-271 | an accepted move keeps the state well formed |
| `Engine.StepMove` | src/main.rs:261-272 | the explicit move keeps the state well formed |
| `Engine.CompleteAt` | src/main.rs:276-281 | removing a finished suit keeps the state well formed |
| `Engine.StepCompleteSuit` | src/main.rs:273-282 | the CompleteSuit arm keeps the state well formed |
| `Engine.Dealt` | src/main.rs:288-290 | a deal round keeps ten piles |
| `Engine.StepStack` | src/main.rs:283-292 | the Stack arm keeps the state well formed |
| `Engine.SmartCompFrom` | src/main.rs:294-305 | every SmartComp iteration keeps the state well formed |
| `Engine.StepSmartComp` | src/main.rs:293-306 | the SmartComp arm keeps the state well formed |
| `Engine.StepSmartMove` | src/main.rs:307-345 | the SmartMove arm keeps the state well formed |
| `Engine.UndoAction` | src/main.rs:349-369 | undoing an action keeps the state well formed and never changes the completed counter or the log |
| `Engine.RedoAction` | src/main.rs:371-392 | redoing an action keeps the state well formed and never changes the completed counter or the log |
| `Engine.StepUndo` | src/main.rs:236-243 | Undo moves the cursor back one step (not below 0), keeps the log and the completed counter |
| `Engine.StepRedo` | src/main.rs:244-251 | Redo moves the cursor forward one step (not past the end), keeps the log and the completed counter |
| `Engine.StepRestart` | src/main.rs:252-257 | Restart ends with the cursor at 0, the log unchanged and the completed counter unchanged |
| `Engine.Step` | src/main.rs:231-347 | every command keeps the state well formed |
| `Properties.InitGameDealsDeck` | src/main.rs:188-209 | the stack followed by piles 0..9 is the deck; with 104 cards piles 0-5 hold 5, piles 6-9 hold 6, and each hidden count is its pile's length minus one |
| `Properties.WriteTruncates` | src/main.rs:150-154 | write keeps the log up to the cursor, appends the action and puts the cursor at the end, so a following Redo is a no-op; the tableau is untouched |
| `Properties.CursorEnds` | src/main.rs:236-251 | Undo at cursor 0 and Redo at the end of the log change nothing |
| `Properties.DiscoverFlipsOne` | src/main.rs:156-164 | discover returns true exactly when the hidden count equals the pile length and is positive, then lowers it by one; otherwise nothing changes |
| `Properties.SelfMoveRejected` | src/main.rs:262-265 | no move passes both tests with source equal to target |
| `Properties.MoveEffect` | src/main.rs:261-272 | a rejected move changes nothing; an accepted one leaves `source[..index]`, puts `source[index..]` on the target, discovers once and logs the old target length |
| `Properties.UndoRedoMove` | src/main.rs:363-367 | after an accepted move, undo restores every pile and hidden count, and redo then reproduces the post-move state exactly |
| `Properties.CompleteSuitEffect` | src/main.rs:273-282 | CompleteSuit changes something exactly when the top 13 cards are King..Ace of one suit; it then truncates them, adds one to the 8-bit counter, discovers and logs the suit |
| `Properties.UndoRedoCompleteSuit` | src/main.rs:357-362 | undoing a completion restores every pile and hidden count but keeps the incremented counter; redo then reproduces the completed state |
| `Properties.StackEffect` | src/main.rs:283-292 | an empty stack changes nothing; otherwise pile `p` gets the stack's card at `len-1-p`, the stack loses ten cards (a multiple of ten stays one) and one Stack action is logged |
| `Properties.UndoStack` | src/main.rs:352-356 | undoing a deal restores every pile and hidden count, and puts the ten cards back on the stack reversed |
| `Properties.RedoDealt` | src/main.rs:376-380 | redoing a logged deal pops the stack's last ten cards onto piles 0..9 in turn, as the deal did, and steps the cursor past it |
| `Properties.RedoAfterUndoStack` | src/main.rs:376-380 | redoing a deal after its undo gives pile `p` the card from `len-10+p`, not the one the original deal gave it |
| `Properties.SmartMoveRefuses` | src/main.rs:308-329 | SmartMove from an empty source or onto an Ace changes nothing |
| `Properties.SmartMoveIsMove` | src/main.rs:326-343 | onto a non-empty, non-Ace target, SmartMove equals the explicit Move at the highest source index of the needed rank, and does nothing if there is no such card |
| `Properties.SmartMoveOntoEmpty` | src/main.rs:312-324 | onto an empty target, only a one-card source acts: the card is copied (the source keeps it), the stack, hidden counts and counter are unchanged, `Move{0,0,false}` is logged with the cursor at the end, and undoing leaves that card twice on the source |
| `Properties.CompletedPositions` | src/main.rs:294-298 | the positions SmartComp completes lie in 0..7, are completable, and ascend strictly |
| `Properties.CompletedPositionsCover` | src/main.rs:294-298 | every completable pile among 0..7 is among those positions |
| `Properties.CompletedPositionsExact` | src/main.rs:294-298 | the positions SmartComp completes from pile 0 are exactly the completable piles among 0-7, listed in ascending order |
| `Properties.CompleteAtEffect` | src/main.rs:299-304 | one completion truncates the pile, discovers, adds one to the counter and appends its action |
| `Properties.SmartCompTableau` | src/main.rs:293-306 | a SmartComp pass truncates exactly the completable piles in its range and lowers their hidden counts when discovery fires; the stack is untouched |
| `Properties.SmartCompIdle` | src/main.rs:293-306 | with nothing completable SmartComp changes nothing |
| `Properties.SmartCompCount` | src/main.rs:301 | the counter rises (mod 256) by the number of completions |
| `Properties.SmartCompLog` | src/main.rs:304 | one CompleteSuit action is logged per completion, in ascending pile order, after the log up to the old cursor |
| `Properties.SmartCompPiles` | src/main.rs:293-306 | SmartComp completes each completable pile among 0-7 and never touches piles 8 and 9 or the stack |
| `Properties.SmartCompLogged` | src/main.rs:293-306 | SmartComp logs exactly one action per position `CompletedPositionsExact` names, in that ascending order, after the log up to the old cursor; it adds their number to the counter (mod 256), and changes nothing when there are none |
| `Properties.RestartKeepsLog` | src/main.rs:252-257 | Restart leaves the cursor at 0 with the whole log kept, so a further Undo does nothing |
| `Properties.MoveFromHiddenRegion` | src/main.rs:262 | a move can start at a hidden card, after which the hidden count exceeds the pile length |
| `Board.GameState.constructor` | src/main.rs:188-209 | the new object holds exactly the deal `InitGame` describes |
| `Board.GameState.Write` | src/main.rs:150-154 | truncate-and-push on the log field, as `Engine.Write` |
| `Board.GameState.Discover` | src/main.rs:156-164 | in-place decrement of `hidden[pile]` and the returned flag, as `Engine.Discover` |
| `Board.GameState.MoveCards` | src/main.rs:267-271 | drain, append, discover and write, as `Engine.MoveCards` |
| `Board.GameState.Move` | src/main.rs:261-272 | the Move arm's effect on the object, as `Engine.StepMove` |
| `Board.GameState.CompleteAt` | src/main.rs:276-281 | truncate, count, discover and write, as `Engine.CompleteAt` |
| `Board.GameState.CompleteSuit` | src/main.rs:273-282 | the CompleteSuit arm, as `Engine.StepCompleteSuit` |
| `Board.GameState.DealRound` | src/main.rs:288-290 | the push-pop loop over the ten piles deals `Engine.Dealt` and shortens the stack by ten |
| `Board.GameState.Stack` | src/main.rs:283-292 | the Stack arm, as `Engine.StepStack` |
| `Board.GameState.SmartComp` | src/main.rs:293-306 | the loop over piles 0..7, as `Engine.StepSmartComp` |
| `Board.GameState.SmartMove` | src/main.rs:307-345 | the SmartMove arm with its reverse scan, as `Engine.StepSmartMove` |
| `Board.GameState.UndoAction` | src/main.rs:349-369 | in-place inverse of a logged action, as `Engine.UndoAction` |
| `Board.GameState.RedoAction` | src/main.rs:371-392 | in-place replay of a logged action, as `Engine.RedoAction` |
| `Board.GameState.Undo` | src/main.rs:236-243 | the Undo arm, as `Engine.StepUndo` |
| `Board.GameState.Redo` | src/main.rs:244-251 | the Redo arm, as `Engine.StepRedo` |
| `Board.GameState.Restart` | src/main.rs:252-257 | the Restart while-loop, as `Engine.StepRestart` |
| `Board.GameState.GameStep` | src/main.rs:231-347 | dispatch of one command, as `Engine.Step` |

## Left out

- `parse_text_input` (byte-level reading of standard input) is an input adapter. The model takes `Engine.Input` values directly.
- `print_game`, `Card::to_string`, `Card::to_char`, `Suit::to_char` and `Value::to_char` only render the board. They are not modelled.
- Every `println!` is left out, including the debug line in `discover`, "You win!" at eight completions, and the refusal messages. Refused commands are modelled as leaving the state unchanged.
- The shuffle in `generate_deck` uses a random number generator. `Engine.InitGame` and the `GameState` constructor take the deck as a parameter. `Cards.OrderedDeck` gives the deck's composition before shuffling.
- `main`, and the `Quit` arm: it ends the process by panicking. `NewGame` and `Help` only print, so they are modelled as no-ops.
- Rust panics are preconditions, not results:
  - an index outside a pile, or a target topped by an Ace once the run test has passed (`Engine.MoveOk`);
  - a pile shorter than 13 for CompleteSuit;
  - a non-empty stack shorter than ten for a deal;
  - drains, pops and decrements that undo or redo cannot perform (`Engine.UndoOk`, `Engine.RedoOk`, `Engine.CanRewind`);
  - a suit count other than 1, 2 or 4 for the deck.
- Engine.CompleteAt: the `u8` completed counter is modelled with the release build's wrap-around modulo 256. A debug build would panic on the 256th increment instead. The counter passes 8 only when a suit is completed again after its completion was undone (undo never lowers the counter), or is completed from cards that SmartMove copied onto an empty pile, since undoing that copy leaves the card twice on the tableau.
- Engine.RedoAction: the `hidden[..] -= 1` decrements (src/main.rs:384, 389) and the `len() - 13` subtraction (src/main.rs:382) are preconditions (`Engine.RedoOk`), which is the debug build's panic on `usize` underflow. A release build would wrap the decrement to `usize::MAX`, and `truncate` at a wrapped index would do nothing. The model does not follow that release behaviour here, unlike the counter above.
- `hidden` counts and indices are `usize` in the source and unbounded `nat` here. Hidden counts start at 4 or 5, and each undo that re-hides a card raises one count by one, so they stay far below the `usize` range. Overflow is not modelled.
- `Vec::with_capacity` hints have no effect on behaviour and are not modelled.
