# Quantum Animal Shogi: a verified model of the engine

This project models the C++ engine for quantum Animal Shogi (eight pieces whose identities are
superposed) and proves what its rules, its successor reduction, its search and its protocol boundary
are for. Everything is Dafny; `dafny verify dfyconfig.toml` checks the whole project.

## How it is organised

**Rules as a state machine.** `Animals`, `States`, `MoveTables` and `LineageTables` hold the data and
the tables. `Propagation` states the quota rule without labels or loops: an assignment gives every piece
a lineage it may still have, distinct within its origin, and *closing* keeps exactly the forms some
assignment uses. `Propagators` holds the two in-place propagators (permutation loop and lookup table)
and the fixed-point loop, all proved to compute that closure. `Transition` states one move as a function
with its phases in order; `Rules` is the in-place pipeline on a mutable `Position`, proved phase by phase
against it, with undo. `MoveGeneration` holds the generators. `Invariants` and `Outcomes` prove what every
transition and every run keeps, and exactly when and by whom a game is won.

The inductive invariant is `Playable`: board and positions agree, no slot is shared, masks are at the
propagation fixed point, no mask has both Chick and Hen, no Hen is in hand, every Lion-capable piece is
on the board in its origin owner's hands, the side to move has no pending Try, the turn is below 256, and
the hash is current. `Sound` is the part that a final position keeps too. `Lawful` is much less: placement
agrees and the quotas can be met. It is what the validity check accepts and all that the canonical keys ask
for; `Searchable` adds a current hash and a turn within the limit, and is all that the search asks of its root.

**One symmetry theorem.** `Symmetry` proves that a renaming of pieces and hand slots, with or without a
half turn that exchanges the colours, is a bisimulation of the whole transition. It is used twice:
`CanonicalKeys` shows that equal keys mean related states and so justifies the reduction in `Successors`;
`Boundary` shows that the engine and the referee see one game.

**What the functions mean.** Much is stated through specification functions. The lemmas whose names end in
`InWords` and the modules `Effects`, `DuplicateDrops`, `ForcedWins` and `ScoreTerms` say what those functions
amount to without using them: in rows and columns, form by form, in complete assignments, in forced wins told
from legal moves alone, and by comparing the scores of two positions.

**Search.** `Minimax` defines the value: plain depth-limited negamax over all legal moves. `Evaluation`
states the heuristic for both evaluators, `Evaluators` holds the two and proves when they agree, and
`EvaluatorChoice` carries that to whole searches in play. `SearchTree`, `MateDistance` and `Ordering` carry
the reasoning; `Search` is the engine class with its table, pooled buffers, killers, history, null windows,
re-search, aspiration, iterative deepening and interruption.

**Boundary.** `Actions` (action numbers), `Observations` (the 20 by 9 observation), `Boundary` (both
sides together), `ProtocolTurns` (a request answered, from observation to action number), `Streams` and
`StateText` (the text form), `QuantumStates` (the four-piece identity object). `FiniteSets` and `Permuting`
hold the counting the proofs share.

## Reading notes

- `docs/04_STATE_AND_MOVE_RULES.md:30-47` and the code agree that Try is delayed by one reply;
  `README.md:137-138` describes an immediate test. The model follows the code.
- The Zobrist key is modelled as the record of the hashed fields. The search works on an arbitrary
  integer key of that record, and `NoCollision` assumes that no two positions of the searched tree share
  a key, which `NoCollisionIsAboutKeys` shows to be a demand on the key alone; no 64-bit material is modelled.
- The state record is copied as a value throughout the code, so the mutable `Position` keeps its fixed
  arrays as sequence fields that the phases reassign, and `Snapshot` is the copied record.
- Masks are records of five booleans, so the test for bits above the fifth cannot fail and has no
  counterpart.
- Clocks and the stop policy are arbitrary functions of a call counter, so the stop may come anywhere.
- The move-ordering score is an arbitrary function of the position, the moves, the distance and the
  ordering memory: the search result does not depend on it.
- The exceptions of the parsers and of the identity object are `Option`, `Result` and `Outcome` values.
- A side without a legal move is lost for the search, whatever the rules say of it. So a forced win may end in
  such a position, and a move that leaves the opponent none is worth as much as one that wins at once.
- A mate score ends the iterations early in the code. `MateIsFinal` shows that nothing is lost: the
  score equals the value at every greater depth.

## Model

| member | source | states |
|---|---|---|
| Propagation.ClosureKeepsAssignments | src/rules/game.cpp:317-343 | closing neither loses nor adds a complete lineage assignment |
| Propagation.ClosureKeepsExactlySupported | src/rules/game.cpp:53-89 | a lineage survives closing if and only if some assignment of the original masks uses it |
| Propagation.ClosureFormByForm | src/rules/game.cpp:72-89 | each of the five forms survives closing exactly when the piece had it and some assignment gives the piece the form's lineage, Chick and Hen being of one lineage |
| Propagation.ClosureIsClosed | src/rules/game.cpp:475-497 | closing once reaches the fixed point, from any satisfiable masks |
| Propagation.ClosedIsFixedPoint | src/rules/game.cpp:475-497 | masks are a fixed point of closing exactly when every form that is left has a witnessing assignment |
| Propagation.ClosureBySides | src/rules/game.cpp:486-496 | closing South's pieces and then North's is closing the whole position |
| Propagation.SatisfiableGroupsOfFour | src/rules/game.cpp:103-113 | satisfiable masks force exactly four pieces of each origin |
| LineageTables.EveryPermutationIsListed | src/rules/game.cpp:147-166 | the enumeration of lineage orders misses none |
| LineageTables.PermutationsDiffer | src/rules/game.cpp:147-166 | and lists none twice |
| LineageTables.UnpackInvertsKey | src/rules/game.cpp:135-141 | unpacking a packed key gives back the four lineage sets |
| LineageTables.KeyInvertsUnpack | src/rules/game.cpp:170-181 | packing an unpacked table index gives back the index |
| LineageTables.BuildLineageTable | src/rules/game.cpp:170-181 | each of the 65536 entries holds the verdict and the exact support of its four lineage sets |
| MoveTables.BuildMoveTables | src/rules/game.cpp:245-303 | the filled tables hold exactly the geometric targets, their unions over masks, and the forms able to make each step |
| MoveTables.TablesInWords | src/rules/game.cpp:245-303 | for every form, mask, side and pair of squares the built tables hold the steps counted in rows towards the far rank and columns aside, Hen having every Lion step but the two backward diagonals |
| Propagators.PropagateOriginReference | src/rules/game.cpp:317-343 | the permutation loop succeeds exactly when the origin has four pieces and an assignment; it leaves the closure of the origin, or on failure the masks as they were |
| Propagators.PropagateOriginLut | src/rules/game.cpp:349-362 | the table lookup has the same verdict and leaves the same masks, on success and on failure |
| Propagators.Propagate | src/rules/game.cpp:475-497 | in either mode: success if and only if an assignment exists, the masks become the closure, or on failure one and the same function of the old masks; at most two passes |
| States.BoardConsistent | src/rules/game.cpp:367-394 | the consistency scan accepts exactly the states whose board and positions agree without shared slots |
| Rules.UnusedHandSlot | src/rules/game.cpp:548-560 | finds the lowest hand slot no other piece uses, or none |
| Rules.ApplyMoveOriginEffects | src/rules/game.cpp:651-669 | collapse, promotion and removal from the source, in place, with the exact refusal condition |
| Rules.CaptureDestinationPiece | src/rules/game.cpp:676-697 | transfer to the captor's lowest free slot with Hen demoted, in place, with the exact refusal condition |
| Rules.ResolveCapturedLionCandidates | src/rules/game.cpp:732-751 | captured Lion candidates are refuted and propagated while the opponent still owns a candidate |
| Rules.UpdateTerminalStatus | src/rules/game.cpp:766-778 | surviving Try first, then Catch, then the turn limit |
| Rules.ApplyMove | src/rules/game.cpp:796-825 | the pipeline succeeds exactly when the transition function accepts the move, computes its result in either propagation mode, and leaves a refused state unchanged |
| Rules.UndoMove | src/rules/game.cpp:908-910 | undo restores every field |
| Effects.MoverFormByForm | src/rules/game.cpp:651-669 | form by form, what the moved piece may still be: the forms able to make the step, with Chick replaced by Hen on the far rank only |
| Effects.OthersFormByForm | src/rules/game.cpp:676-697 | a captured piece is no Hen and may be a Chick if it could be either; no other piece changes |
| Effects.PlacementInWords | src/rules/game.cpp:676-705 | the piece on its destination, a captured piece its captor's in the lowest slot no other piece has, the source empty, all else where it was |
| Effects.ResolutionByAssignments | src/rules/game.cpp:732-751 | on any position: while the opponent may own the Lion exactly the assignments that put a Lion in the mover's hand are struck out, and it fails exactly when no other is left |
| Effects.AcceptedByAssignments | src/rules/game.cpp:796-825 | a move that can be made on the board is accepted if and only if it leaves some assignment possible |
| Effects.FormsByAssignments | src/rules/game.cpp:796-825 | after a move a piece keeps a form exactly when it had it once moved and some possible assignment gives it the form's lineage |
| Effects.FarRankMakesHen | src/rules/game.cpp:663-666 | after a whole transition a piece moved to its far rank is no Chick, and a certain Chick is a certain Hen |
| Effects.VerdictInWords | src/rules/game.cpp:766-778 | who has won after any accepted move, in squares, hand positions and winner numbers |
| Invariants.FreeSlotExists | src/rules/game.cpp:548-560 | seven other pieces never fill the eight hand slots |
| Invariants.MovedSatisfiable | src/rules/game.cpp:712-724 | the propagation after a pseudo-legal move from a coherent state cannot contradict |
| Invariants.ResolutionOutcome | src/rules/game.cpp:732-751 | resolution after a move from custody cannot fail, and custody survives exactly when the opponent still owns a Lion candidate |
| Invariants.ApplyKeepsSound | src/rules/game.cpp:796-825 | every accepted transition from a coherent state keeps agreement, fixed point, forms and hash, passes the turn, and moves, captures and adds no Lion as stated |
| Invariants.ApplyKeepsLawful | src/rules/game.cpp:796-825 | from any agreeing position, whatever its masks, an accepted move leads to an agreeing one at the fixed point with a current hash |
| Outcomes.AcceptsExactlyPseudoLegal | src/rules/game.cpp:855-882 | from play a move is accepted if and only if it is pseudo-legal |
| Outcomes.LegalIsPseudoLegal | src/rules/game.cpp:855-882 | from play the legal list is the pseudo-legal list, in order |
| Outcomes.StepOfPlay | src/rules/game.cpp:766-825 | one step: invariant kept or game over; Catch if and only if the opponent owns no Lion candidate after the first propagation; Try only for the opponent of the mover; exact winner and draw conditions |
| Outcomes.TryOrCatch | src/rules/game.cpp:766-778 | after a settled move the Try and Catch conditions never hold together |
| Outcomes.TryIsThePreviousMove | src/rules/game.cpp:592-600 | a Try is won by the very piece, on the very square, of the winner's previous move |
| Outcomes.RunsStayPlayable | src/rules/game.cpp:796-825 | along every run all states but the last are in play, the last is sound, and a run has at most 256 - turn moves |
| Outcomes.EachSideOwnsALion | src/rules/game.cpp:566-586 | in play each side owns a Lion candidate of its own origin on the board |
| Outcomes.InitialState | src/rules/game.cpp:422-435 | the setup loop builds the initial state |
| Outcomes.InitialIsPlayable | src/rules/game.cpp:422-435 | play starts inside the invariant |
| MoveGeneration.GeneratePseudoLegalMoves | src/rules/game.cpp:912-945 | the generator returns the specified list: pieces ascending, destinations ascending |
| MoveGeneration.GenerateLegalMoves | src/rules/game.cpp:954-968 | the filter returns the accepted candidates in order, in either mode |
| MoveGeneration.PseudoLegalMember | src/rules/game.cpp:912-945 | the list holds exactly the moves that geometry, ownership and occupancy allow |
| MoveGeneration.BoardMovesInWords | src/rules/game.cpp:912-945 | the moves listed for a piece on the board, form by form in rows and columns, to squares its owner does not hold |
| MoveGeneration.DropsInWords | src/rules/game.cpp:912-945 | the moves listed for a hand piece are to every empty square, and only from where a piece stands |
| MoveGeneration.GeneratedInOrder | src/rules/game.cpp:912-968 | both lists go by ascending piece and destination |
| MoveGeneration.LegalMember | src/rules/game.cpp:855-882 | legal means pseudo-legal and accepted |
| MoveGeneration.LegalMovesDistinct | src/rules/game.cpp:889-895 | no legal move is listed twice |
| Symmetry.PropagationMatches | src/rules/game.cpp:475-497 | propagation does not see names, hand slots or orientation |
| Symmetry.StepMatches | src/rules/game.cpp:796-825 | related states accept corresponding moves and the same renaming relates the results |
| Symmetry.LegalMovesMatch | src/rules/game.cpp:954-968 | legal moves of related states correspond one to one, with related successors |
| CanonicalKeys.CanonicalKey | src/exact/equivalence.cpp:146-175 | the filled key is the specified one: board entries and the sorted piece tuples of each origin |
| CanonicalKeys.KeyCharacterization | src/exact/equivalence.cpp:146-175 | any two states that agree and are satisfiable, at the fixed point or not, have one key if and only if an origin-preserving renaming of pieces and hand slots maps one to the other |
| CanonicalKeys.EqualKeysStepAlike | src/exact/equivalence.cpp:146-175 | such states with one key have matching moves whose successors are such states with one key again |
| Successors.GenerateEquivalentSuccessorClasses | src/exact/equivalence.cpp:177-221 | classes have distinct keys in the order they are first led to, exact multiplicities, the chosen member as representative, and together count every accepted move once |
| Successors.RepresentativeIsChosen | src/exact/equivalence.cpp:35-51 | the representative is the preferred move if it is a member, otherwise a member that captures a certain Lion if one does, else any capture if one does, and among those the lowest source, destination and place in the list |
| Successors.AllLegalCounted | src/exact/equivalence.cpp:177-221 | on legal moves the multiplicities add up to the number of moves |
| Successors.HasDuplicateDropHint | src/exact/equivalence.cpp:64-78 | the hint is given exactly when two hand pieces of the mover share origin and mask |
| DuplicateDrops.DropsShareKey | src/exact/equivalence.cpp:64-78 | at the fixed point two hand pieces dropped on one square lead to one key if and only if they share origin and mask |
| DuplicateDrops.HintMeansDuplicates | src/exact/equivalence.cpp:64-78 | at the fixed point the hint is given if and only if two different drops on one square lead to one key |
| Successors.ReduceSuccessors | src/exact/equivalence.cpp:93-124 | every legal move is kept or leads to the key of a kept one; reduction applies exactly when all gates hold, the share of duplicate keys included; then the chosen move is kept for each key, otherwise all moves; a preferred legal move is always kept |
| Evaluation.EvaluationBounds | src/search/alpha_beta.cpp:407-457 | heuristic scores of either evaluator stay within 23000, far inside the mate band |
| Evaluation.EvaluationMatches | src/search/alpha_beta.cpp:407-457 | related positions have one heuristic score under either evaluator |
| Evaluators.SideHasImmediateWin | src/search/alpha_beta.cpp:206-241 | the trial loop finds a win exactly when some pseudo-legal move wins at once |
| Evaluators.WinsCaptureALion | src/search/alpha_beta.cpp:561-568 | in custody only the capture of a Lion candidate can win at once |
| Evaluators.EvaluateBaseline | src/search/alpha_beta.cpp:407-457 | the reference evaluator computes the specified score |
| Evaluators.EvaluateOptimized | src/search/alpha_beta.cpp:459-590 | occupancy, mobility and attack masks compute the score with the filtered win test on every state; in custody it is the reference score |
| ScoreTerms.MobilityIsMoveCount | src/search/alpha_beta.cpp:162-190 | a side's mobility is the number of moves listed for it, were it on turn |
| ScoreTerms.WinsInWords | src/search/alpha_beta.cpp:206-241 | an immediate win is a transition, were the side on turn, that ends the game in its favour |
| ScoreTerms.FilteredWinsInWords | src/search/alpha_beta.cpp:559-568 | the optimized evaluator sees exactly those that capture a possible Lion or take one to the far rank |
| ScoreTerms.LionOnBoard | src/search/alpha_beta.cpp:429-441 | with mobility and win bonuses set aside, moving one Lion candidate changes the score by 90 or 25 for each row towards the far rank, and by -700 or -180 for a threat, to its owner |
| ScoreTerms.LionInHand | src/search/alpha_beta.cpp:442-443 | a certain Lion in hand costs its holder 900 against one safe at home, an uncertain one nothing |
| ScoreTerms.FormsAndOwner | src/search/alpha_beta.cpp:416-423 | changing one piece's forms or owner changes the score by its mean value, 12 for each form beyond the first and 80 for a possible Lion, counted for the owner |
| ScoreTerms.MeanOfForms | src/search/alpha_beta.cpp:92-105 | the mean is 100, 320, 310, 1050 and 420 over the forms there are, rounded down |
| Evaluators.EvaluatorsAgree | src/search/alpha_beta.cpp:407-590 | on every coherent state in custody the two scores agree: the filter drops no winning move |
| Evaluators.EvaluatorsAgreeExactly | src/search/alpha_beta.cpp:407-590 | on any ongoing state the two scores agree if and only if the filter misses a win for both sides or for neither |
| Minimax.BestIsMaximum | src/search/alpha_beta.cpp:781-900 | the value of a node is an attained maximum over its moves |
| Minimax.RelatedValue | src/search/alpha_beta.cpp:781-900 | related positions have one negamax value at every depth, under either evaluator and with nothing asked of their masks |
| Minimax.ReductionKeepsValue | src/exact/equivalence.cpp:93-124 | at every depth, from any agreeing position, the best kept move is worth the best legal move |
| ForcedWins.ValueIsSecured | src/search/alpha_beta.cpp:781-900 | the value is the most the player to move can secure in the game of results, evaluations at the last ply, and replies |
| ForcedWins.ScoreTellsForced | src/search/alpha_beta.cpp:390-400 | a score is in the mate band if and only if a win or a loss is forced within the depth, and names its length in plies |
| ForcedWins.ResultReports | src/search/alpha_beta.cpp:902-962 | a root result scores a mate score exactly for the shortest forced win or the longest loss, its move starts that win, and with neither, if every line ends within the depth, it scores a draw |
| ForcedWins.WinningAtOnce | src/search/alpha_beta.cpp:390-395 | if a legal move wins at once the score is 999999 and the move played wins at once or leaves the opponent without a move |
| ForcedWins.OnlyDraws | src/search/alpha_beta.cpp:390-391 | if every legal move draws the score is 0 |
| EvaluatorChoice.SameValueInPlay | src/search/alpha_beta.cpp:597-612 | in play both evaluators give one negamax value at every depth |
| SearchTree.SamePly | src/rules/game.cpp:505-521 | the turn counter fixes the distance at which a position can be met |
| SearchTree.NoCollisionIsAboutKeys | src/rules/game.cpp:505-521 | the no-collision assumption holds if and only if the key tells the hashed fields of the tree's positions apart: those fields determine the position |
| SearchTree.ValueBounds | src/search/alpha_beta.cpp:390-400 | values stay within the mate score less the distance, hence inside the infinite window |
| SearchTree.ScoreRoundTrip | src/search/alpha_beta.cpp:279-297 | a score survives the table at the same distance |
| SearchTree.MatesMoveWithTheNode | src/search/alpha_beta.cpp:279-297 | a mate stored at one distance from the root is read back at any other as a mate as far from the node, and other scores are stored as they are |
| SearchTree.PackRoundTrip | src/search/alpha_beta.cpp:257-273 | packing a move into sixteen bits loses nothing but invalid moves' fields |
| SearchTree.StoredEntrySound | src/search/alpha_beta.cpp:347-373 | an entry made from a true bound is a true statement about every position of its key, and is used at its own depth only |
| SearchTree.EntrySoundDeeper | src/search/alpha_beta.cpp:1008-1028 | entries of a shallower iteration are too shallow to be used in a deeper one |
| SearchTree.NarrowedWindow | src/search/alpha_beta.cpp:795-900 | an answer for a window narrowed by the table is fail-soft for the original window, and the flag chosen is true |
| MateDistance.MateIsFinal | src/search/alpha_beta.cpp:1064-1065 | a mate score at one depth is the value at every greater depth; without one, any later mate is beyond the horizon |
| Ordering.StableSort | src/search/alpha_beta.cpp:703-725 | the same elements, best score first, equal scores in their old order |
| Search.AlphaBetaEngine.ShouldStop | src/search/alpha_beta.cpp:375-388 | stops exactly when the policy says so or, on every 64th node, the deadline has passed, and stays stopped |
| Search.AlphaBetaEngine.Store | src/search/alpha_beta.cpp:347-373 | the exact replacement rule, all other slots untouched, the table still sound, never after a stop |
| Search.AlphaBetaEngine.Probe | src/search/alpha_beta.cpp:795-820 | a usable entry answers fail-softly or narrows the window by true bounds; exactly which entry does what |
| Search.AlphaBetaEngine.GenerateSearchMoves | src/search/alpha_beta.cpp:727-779 | the moves searched cover all legal moves, whichever way the gates and the low-time test go |
| Search.AlphaBetaEngine.OrderMoves | src/search/alpha_beta.cpp:703-725 | the buffer is rearranged into a stable sort by ordering score |
| Search.AlphaBetaEngine.FillBuffer | src/search/alpha_beta.cpp:822-829 | the buffer of a ply holds kept moves whose best is the node's value, none exactly when the side is blocked, and no other buffer changes |
| Search.AlphaBetaEngine.RecordCutoff | src/search/alpha_beta.cpp:866-886 | only quiet moves are remembered: the new killers of their ply, their history cell grown to at most the cap, and the halving of all cells when it is due |
| Search.AlphaBetaEngine.SearchChild | src/search/alpha_beta.cpp:839-848 | null window and re-search answer for the asked window |
| Search.AlphaBetaEngine.SearchMoves | src/search/alpha_beta.cpp:831-891 | the loop over kept moves is fail-soft, restores the state, and no child touches the buffer it reads |
| Search.AlphaBetaEngine.SearchInside | src/search/alpha_beta.cpp:822-900 | a node searched in a window narrowed by the table is fail-soft for the window asked for, and what is stored is true |
| Search.AlphaBetaEngine.Negamax | src/search/alpha_beta.cpp:781-900 | with no key collision the node is fail-soft correct against plain negamax for any window, table contents of this search, reduction and ordering; stopped or not, the state is restored and the table stays sound |
| Search.AlphaBetaEngine.SearchRoot | src/search/alpha_beta.cpp:902-962 | a completed root search is fail-soft with a legal move that attains an inner score; an abandoned one leaves the caller's answer alone |
| Search.AlphaBetaEngine.SearchDepth | src/search/alpha_beta.cpp:1016-1049 | aspiration terminates within two more root searches than the retries; if it completes the score is exact; it gives up unstopped only with negative retries |
| Search.AlphaBetaEngine.Deepen | src/search/alpha_beta.cpp:1008-1068 | the result is the exact value and a best move of the last completed depth, or the fallback; a stop at once completes no depth, and a soft deadline that has passed allows one |
| Search.AlphaBetaEngine.FindBestMove | src/search/alpha_beta.cpp:964-1075 | from any root the text reader accepts, with either evaluator and a cleared table: won, lost, drawn and blocked roots score 1000000, -1000000, 0 and -1000000; otherwise a legal move with the exact value of the last completed depth, wherever the stop came, or the first legal move, and a mate score exactly for a forced win or loss with a move that starts the shortest win; with nothing stopping it, all that at the requested depth; with a stop at once, the first legal move; with no time left, one iteration |
| Actions.ActionIndexRoundTrip | src/io/protocol.cpp:185-198 | encoding and decoding of action numbers undo each other and fail on exactly the values out of range; the number is twelve times the source plus the destination |
| Actions.MoveRoundTrip | evaluation/native/referee_adapter.cpp:23-50 | a move from a piece's own square and its public number determine each other, for both perspectives |
| Actions.NumbersInWords | evaluation/native/referee_adapter.cpp:23-36 | the public numbers of both perspectives in digits: North counts board squares from the other end |
| Actions.ActionInWords | evaluation/native/referee_adapter.cpp:38-50 | every number is the move of the piece seen on its source, or the invalid move if none is |
| Actions.ActualMove | evaluation/native/referee_adapter.cpp:38-50 | the scan finds the move an action number stands for |
| Actions.LegalActions | evaluation/native/referee_adapter.cpp:52-58 | the sorted numbers of exactly the legal moves, one for each |
| Actions.NumbersIdentifyMoves | evaluation/native/referee_adapter.cpp:33-36 | different legal moves have different public numbers |
| Actions.SameActions | evaluation/native/referee_adapter.cpp:52-58 | states that show one picture have the same legal action numbers |
| Actions.EngineReply | src/io/protocol.cpp:212-216 | the number of an engine move is legal for the referee and read as the corresponding move |
| Actions.StepKeepsView | evaluation/native/referee_adapter.cpp:227-240 | playing one action number on both states keeps one picture, hand slots included |
| Actions.RunsAgree | evaluation/native/referee_adapter.cpp:227-240 | along every run the same action lists are legal on both sides, with the same verdict and again the same legal numbers |
| Observations.WriteObservation | evaluation/native/referee_adapter.cpp:88-105 | each row shows exactly the piece seen there, all other rows are empty |
| Observations.ShownInWords | evaluation/native/referee_adapter.cpp:88-105 | the nine values shown of a piece and where, for both perspectives |
| Observations.ReadRows | src/io/protocol.cpp:120-175 | reading fails exactly on malformed observations and otherwise gives the placement the rows describe |
| Observations.ReadInWords | src/io/protocol.cpp:120-175 | what is read of a piece from its nine values; own-origin pieces are numbered first, each origin in row order |
| Observations.StateFromObservation | src/io/protocol.cpp:120-181 | succeeds exactly on well-formed observations whose masks can be satisfied, and gives their closed state |
| Boundary.ReadIsShown | src/io/protocol.cpp:120-181 | what is read from an observation is shown by that observation |
| Boundary.ShownIsWellFormed | evaluation/native/referee_adapter.cpp:88-105 | what is written for a satisfiable state is well formed, four rows of each origin |
| Boundary.ObservationIsFaithful | src/io/protocol.cpp:120-181 | the state read is a relabelled, for North turned, copy of the state written, in play, showing the same picture |
| Boundary.ExchangeState | evaluation/native/referee_adapter.cpp:88-133 | after one exchange referee and engine play one game: the same action lists are legal, with the same verdicts |
| ProtocolTurns.ChooseAction | src/main.cpp:278-299 | the search result if allowed, else the first allowed legal move, else the lowest allowed number; an error exactly when nothing is allowed |
| ProtocolTurns.FirstAllowedInWords | src/main.cpp:281-288 | the fallback is the number of the first listed move whose number is allowed |
| ProtocolTurns.AnswerRequest | src/main.cpp:272-300 | a whole turn: for a written state in play the engine answers exactly when there is a legal move, with a number legal for the referee; undisturbed, that number names a best move of the referee's own position at the requested depth, and starts the shortest forced win there if one is in sight |
| QuantumStates.AnimalsForMoveAreMovers | src/core/quantum_state.cpp:54-74 | the displacement test is the board geometry without Hen |
| QuantumStates.DisplacementInWords | src/core/quantum_state.cpp:54-74 | the animals able to make each displacement, in coordinates |
| QuantumStates.RequireAndEliminate | src/core/quantum_state.cpp:111-117 | to require an animal is to give the piece its lineage, to eliminate it is to give it another; a required Hen contradicts |
| QuantumStates.QuantumState.Assignments | src/core/quantum_state.cpp:126-145 | lists exactly the permutations that meet every accepted observation |
| QuantumStates.QuantumState.Constrain | src/core/quantum_state.cpp:91-101 | accepted exactly when the observation can hold with all earlier ones; otherwise nothing changes; masks stay the exact projection |
| QuantumStates.QuantumState.ObserveMove | src/core/quantum_state.cpp:103-109 | the same for an observed displacement, with the refusal reported: an impossible displacement contradicts before the piece is checked |
| QuantumStates.QuantumState.MeasureCapture | src/core/quantum_state.cpp:119-124 | a capture never measures a Lion, and otherwise requires the animal |
| QuantumStates.QuantumState.ProbabilityOf | src/core/quantum_state.cpp:162-170 | counts matching and remaining permutations |
| QuantumStates.CountsAreSizes | src/core/quantum_state.cpp:162-170 | the two counts are the sizes of the set of remaining assignments and of those that give the piece the animal |
| QuantumStates.MasksDetermined | src/core/quantum_state.cpp:147-170 | the same observations in any order give the same masks and the same probabilities |
| QuantumStates.AnyOrderIsAccepted | src/core/quantum_state.cpp:91-101 | observations that can hold together are accepted in every order |
| StateText.WriteState | src/rules/state_text.cpp:79-91 | the loop emits the specified text |
| StateText.ParseState | src/rules/state_text.cpp:12-77 | the reader computes the specified parse, errors included |
| StateText.HeaderInWords | src/rules/state_text.cpp:12-29 | a header is a side in either case and a turn up to 256 |
| StateText.LineInWords | src/rules/state_text.cpp:31-66 | which piece lines are accepted, and what each says |
| StateText.PositionInWords | src/rules/state_text.cpp:48-62 | H for the slot of the own number, H and one of eight slots, or one of twelve squares |
| StateText.MaskInWords | src/rules/state_text.cpp:63-66 | a mask word is accepted exactly if all its letters are among the five, in either case, and may be in any order |
| Streams.AnySpacing | src/rules/state_text.cpp:12-41 | any run of white space may stand before a word or number |
| StateText.InitialInText | src/rules/game.cpp:422-435 | the words of the initial state's text |
| StateText.ValidateState | src/rules/game.cpp:437-466 | accepts exactly agreeing, satisfiable states with a current hash, fixed point or not |
| StateText.ParsedIsWritable | src/rules/state_text.cpp:12-77 | whatever the text, an accepted state is at its fixed point with board, verdict and hash as implied |
| StateText.ParsedIsSearchable | src/main.cpp:391-394 | every state the reader accepts is a root the search accepts |
| StateText.TextRoundTrip | src/rules/state_text.cpp:12-91 | a state comes back from its text in every field if and only if it agrees, is at the fixed point with a current hash, has no winner, and is ongoing below turn 256 or a draw at 256 |
| StateText.PlayableIsWritable | src/rules/state_text.cpp:12-91 | every state in play comes back unchanged |

## Left out

- Timing, metrics, profiling counters, principal variations and depth reports: they do not affect values.
- Zobrist material and SplitMix64: replaced by the hashed fields and the `NoCollision` assumption.
- FindBestMove: requires a cleared or empty table; entries carried over from another search may be deeper, and equality with fixed-depth negamax is then not intended.
- The power-of-two table size and its mask: a slot is the key modulo the number of entries.
- The move-ordering score itself: an arbitrary function, because no property of the search depends on it.
- Windows, scores and counters are unbounded integers; only the sixteen-bit depth of a table entry, the eight-bit age and the sixteen-bit turn wrap in the model.
- Pooled candidate and score buffers: only the move buffer of each ply, the one live across recursive calls, is modelled.
- The duplicate ratio is an exact rational, not a rounded quotient.
- `std::next_permutation`, `std::sort` and `std::stable_sort`: a fixed list of the 24 orders and insertion sorts.
- Move tables are maps and bit sets are sets; the reachable-square loops keep their order.
- JSON scanning, configuration, command line, standard input and output, and the error texts of refused input.
- Integer overflow while reading numbers: every number read is then checked against a small range.
- That a side always has a legal move: the invariant does not exclude a blocked side, which the search scores as lost.
- `search_fixed_depth`, `is_immediate_winning_move` and text names of moves and verdicts: easy members.
- The Python evaluation pipeline, benchmarks, fixtures and the web application.
