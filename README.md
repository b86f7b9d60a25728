# Pushdown automata and context-free grammars

This project models a small teaching toolkit for pushdown automata. It has:

- a deterministic PDA (`DPDA`) and a nondeterministic one (`NPDA`), which
  read an input and report `(result, message, sequence)` for each
  computation;
- the conversion of an NPDA into a context-free grammar in Greibach normal
  form (`NPDA.toCfg`, the triple construction `[p A q]`);
- the grammar class `CFG` with its conversion back to an NPDA that accepts
  on empty stack (`CFG.toPda`);
- the `Stack` class and the two palindrome checkers built on it.

The automata and the grammar are set once by their constructors and never
changed. They are datatypes, and each is built by a method whose loops derive
the states, the alphabets and the non-terminal set. `Stack` changes in place,
so it is a class whose field `elements` holds the contents, bottom first.

`pda.py` reads with `Stack` objects and `pdaClass.py` reads with Python lists.
Both versions of `read` are proved equal to one run semantics (module
`PdaRun`). That semantics is then proved sound and complete with respect to
the computations of the automaton. The conversion `toCfg` is the same in both
files; `_findUnterminated` in `pdaClass.py` is `_removeUnterminated` from
`pda.py` under another name. So the conversion is modelled once (modules
`Triples`, `CfgRules`, `Unterminated`, `PdaToCfg`), and the rows below cite
`pda.py`.

Some behaviour of the source is replaced:

- **Recursion depth.** `_readSub` recurses once per move. An ε-loop keeps going
  until Python raises `RecursionError`. The model bounds the recursion with a
  `fuel` parameter: `None` means the fuel ran out.
- **Iteration order.** Python iterates over sets and dictionaries in an
  order the model does not fix. `Util.Enumerate` picks some order, and every
  property is stated for all orders.
- **Removal in the second pass.** `_removeUnterminated` removes one occurrence
  of each marked symbol (see Findings). Its passes and loop take a `Removal`
  argument: `AsWritten` is the source's removal and `Intended` removes every
  occurrence. Both are proved about. `toCfg` uses `Intended`.

## Model

| member | source | states |
|---|---|---|
| Stacks.InitAsWritten | stack.py:13-22 | Stack(data) as written: it builds only when data is None (an empty stack). Any other argument raises TypeError, since `isinstance` is given a string. |
| Stacks.Stack.constructor | stack.py:13-15 | Stack() with no argument starts empty. |
| Stacks.StackArgumentRaises | stack.py:16-19 | Passing a stack or a sequence raises TypeError, so copying a stack fails. |
| Stacks.Stack.FromSequence | stack.py:18-20 | A stack built from a sequence holds its elements in order, the last one on top. |
| Stacks.Stack.Copy | stack.py:16-17 | The intended copy: a new stack with the other stack's elements. |
| Stacks.Stack.IsEmpty | stack.py:24-25 | True exactly when the stack holds nothing. |
| Stacks.Stack.Push | stack.py:27-28 | The element goes on top and nothing below it changes. |
| Stacks.Stack.Pop | stack.py:30-31 | Returns the top and leaves the rest as it was. |
| Stacks.Stack.Peek | stack.py:33-34 | Returns the top without changing the stack. |
| Stacks.Stack.Size | stack.py:36-37 | The number of elements. |
| Stacks.Stack.Reversed | stack.py:42-49 | Despite its name, a fresh stack with the same elements in the same order. |
| Stacks.PushThenPop | stack.py:27-37 | A push then a pop hands back the pushed element and restores the contents; the size goes up by one and back down. |
| Stacks.PalindromeIsMirrored | stack.py:52-61 | The recursive checker accepts exactly the strings in which each character equals its mirror image. |
| Stacks.PalindromeIffReversed | stack.py:52-61 | palindrome(s) holds exactly when s equals its reverse. |
| Stacks.Palindrome2 | stack.py:64-80 | The stack-based checker gives the same answer as the recursive one for every string, and its pops never meet an empty stack. |
| PdaModel.Lift | pda.py:264-300 | A DPDA table as an NPDA table: the same keys, each with its single outcome as a one-element list. |
| PdaModel.AddSymbols | pda.py:294-296 | The loop over a pushed list adds each of its symbols to the stack alphabet and nothing else. |
| PdaModel.ScanOutcomes | pda.py:291-296 | The scan of one key's outcomes adds their target states to the states and all their pushed symbols to the stack alphabet. |
| PdaModel.DeriveSets | pda.py:282-300 | The constructor's scan: the states are the key states and outcome targets, the alphabet is the non-empty input symbols, and the stack alphabet is the key tops and every pushed symbol, whatever the key order. |
| PdaModel.NewDpda | pda.py:30-64 | DPDA.__init__ keeps its four arguments and derives the three sets from the table alone. |
| PdaModel.NewNpda | pda.py:264-300 | NPDA.__init__ does the same, over every outcome of every key. |
| PdaModel.StatesOfMembership | pda.py:285-293 | A state is derived exactly when some key starts in it or some outcome goes to it. |
| PdaModel.PushAll | pda.py:226-229 | Pushing Z leaves the old stack below, Z[0] on top and Z[\|Z\|-1] right above the old top. |
| PdaModel.PushAllTwice | pda.py:226-229 | Pushing Z and then W is the same as pushing W followed by Z. |
| Pda.StackPush | pda.py:226-229 | _stackPush changes the Stack object into the stack PushAll describes. |
| Pda.DpdaReadSub | pda.py:93-138 | DPDA._readSub on a Stack object returns the run semantics' verdict for its configuration. |
| Pda.DpdaRead | pda.py:66-91 | DPDA.read is the run from q_0 with Z_0 alone on a new stack. |
| Pda.NpdaReadSub | pda.py:312-366 | NPDA._readSub, with the intended stack copy (see Findings), appends to sequenceList exactly the results the run semantics lists for its configuration. |
| Pda.NpdaBranches | pda.py:335-341 | With the intended stack copy (see Findings), each outcome of the popped key runs on its own copy of the stack, in list order, and the results are appended in that order. |
| Pda.NpdaRead | pda.py:302-310 | With the intended stack copy (see Findings), NPDA.read returns the results of every computation from q_0 with Z_0. |
| PdaClass.StackPush | pdaClass.py:219-223 | _stackPush on a list appends Z last to first, giving PushAll. |
| PdaClass.DpdaReadSub | pdaClass.py:86-131 | The list-based DPDA._readSub returns the same verdict as the run semantics. |
| PdaClass.DpdaRead | pdaClass.py:60-84 | The list-based DPDA.read equals the run from q_0 with Z_0. |
| PdaClass.NpdaReadSub | pdaClass.py:306-360 | The list-based NPDA._readSub appends the run semantics' results. |
| PdaClass.NpdaBranches | pdaClass.py:329-335 | Each branch works on list(stack), a copy, so the branches do not share a stack. |
| PdaClass.NpdaRead | pdaClass.py:296-304 | The list-based NPDA.read equals the run semantics. |
| PdaRun.AppendNothing | pda.py:302-310 | Helper of Pda.NpdaRead and PdaClass.NpdaRead: appending a run's results to the empty sequenceList read starts with leaves exactly those results. |
| PdaRun.DRunFuel | pda.py:93-138 | A DPDA run that finishes gives the same verdict with any larger recursion budget. |
| PdaRun.DRunSound | pda.py:93-138 | A DPDA verdict's sequence is the trace so far followed by a computation of the table. The computation ends where read stops, and the result and message are right for that configuration: accepted in a state of F with both used up, 'stop at q', 'vacant stack' or 'delta(f) is not defined'. |
| PdaRun.DRunComplete | pda.py:93-138 | Every computation from c that ends where read stops is the one the DPDA reports. |
| PdaRun.DRunNoAcceptingStates | pda.py:103-105 | A DPDA with no accepting states accepts nothing. |
| PdaRun.NRunFuel | pda.py:312-366 | An NPDA run that finishes gives the same results with more budget. |
| PdaRun.NRunMovesFuel | pda.py:335-341 | So does the loop over the outcomes of one key. |
| PdaRun.NRunSound | pda.py:312-366 | Every NPDA result describes a computation of the table that ends where read stops. With F empty, an emptied configuration counts as accepted. |
| PdaRun.NRunMovesSound | pda.py:361-366 | Every result of the loop over outcomes comes from a computation through one of them. |
| PdaRun.NRunMovesBranch | pda.py:361-366 | When the loop over outcomes finishes, each outcome's own run finishes, and its results are among the loop's. |
| PdaRun.NRunComplete | pda.py:312-366 | Every computation that ends where read stops appears among the NPDA's results. |
| PdaRun.NRunAccepts | pda.py:313-324 | The NPDA accepts exactly when some computation uses up the input and the stack in a state of F, or in any state when F is empty. |
| PdaRun.DpdaAsNpda | pda.py:260-366 | A DPDA with accepting states behaves as the NPDA whose table lists its one outcome per key: one result, the DPDA's. |
| PdaRun.NRunMovesPrefixNone | pda.py:335-341 | Once one branch runs out of budget, so does the whole loop. |
| PdaRun.NRunMovesStep | pda.py:361-366 | The loop over outcomes appends one outcome's results at a time. |
| PdaRun.NRunKeyed | pda.py:351-361 | A configuration with input or stack left and a defined key goes on through that key's outcomes, with itself appended to the sequence. |
| PdaRun.NRunFinal | pda.py:313-360 | A configuration where read stops gives exactly one result, whose sequence is the one so far followed by that configuration. |
| PdaRun.NRunUnfold | pda.py:326-341 | A finished run from a configuration that is not final went through its key's outcomes with some budget left. |
| PdaRun.NRunBranch | pda.py:361-366 | When the loop over outcomes finishes, the run from the successor through any one outcome finishes and its results are among the loop's. |
| PdaRun.NRunNext | pda.py:361-366 | A computation of two or more configurations that ends where read stops goes on from its first configuration to a successor whose run finishes with one step less, and every result of that run is also a result from the first configuration. |
| PdaRun.BranchAppend | pda.py:361-366 | Running one more outcome appends that outcome's results to sequenceList after those of the outcomes before it. |
| PdaRun.ExplainsBack | pda.py:361-366 | A result explained from an outcome's successor is explained from the configuration before the move. |
| Grammar.SymbolsGrow | cfg.py:15-21 | One more left-hand side adds its one-symbol right-hand sides' symbol to the terminals, and the tails of its longer ones to the non-terminals. |
| Grammar.ScanRules | cfg.py:16-21 | The scan of one rule list adds exactly those symbols. |
| Grammar.GetAlphabet | cfg.py:12-21 | _getAlphabet, whatever the key order: the alphabet is the symbols of one-symbol right-hand sides, N the tails of longer ones. |
| Grammar.NewCfg | cfg.py:7-10 | CFG.__init__ keeps P and S and derives both sets. |
| Grammar.TerminalsOfMembership | cfg.py:17-18 | a is a terminal exactly when some rule's right-hand side is [a]. |
| Grammar.ProdMovesMembership | cfg.py:30-39 | The outcomes for input a are exactly (q, rest) for each right-hand side [a] + rest. |
| Grammar.AppendOutcome | cfg.py:33-39 | Creates the key's list when it is missing, then appends the outcome. |
| Grammar.AddEntry | cfg.py:31-39 | One right-hand side [a] + rest of A appends (q, rest) to the list of (q, a, A), creating the list when the key is new; every other key keeps its list. |
| Grammar.AddRule | cfg.py:29-39 | Adding the j-th right-hand side of A gives the table built from the first j + 1 of them. |
| Grammar.AddRow | cfg.py:29-39 | The scan of one left-hand side fails exactly when one of its right-hand sides is empty; otherwise it adds that side's outcomes. |
| Grammar.DeltaGrow | cfg.py:29-39 | Each left-hand side contributes its own keys: no two left-hand sides share one. |
| Grammar.GnfKeysShape | cfg.py:31 | Every key is (q, first symbol of a right-hand side of A, A). |
| Grammar.ToPda | cfg.py:23-41 | The NPDA has one state q, no accepting states, and Z_0 = S; for each right-hand side [a] + rest of A it has the outcome (q, rest) under (q, a, A). It raises IndexError exactly when some right-hand side is empty. |
| Grammar.GnfNoEpsilonKeys | cfg.py:31 | Under Greibach normal form the table has no ε-keys, and each key lists the outcomes of its left-hand side for that input. |
| Grammar.GnfStuck | cfg.py:23-41 | Once the input or the stack is used up, the NPDA cannot move. |
| Grammar.GnfPathDerives | cfg.py:23-41 | A computation that empties input and stack spells out a leftmost derivation of the input from the stack read top-down. |
| Grammar.DerivesGnfPath | cfg.py:23-41 | Conversely, every such derivation is a computation that empties input and stack. |
| Grammar.GnfRunFinishes | cfg.py:23-41 | The NPDA's read finishes once the budget exceeds the input length, because every move reads a symbol. |
| Grammar.ToPdaLanguage | cfg.py:23-41 | The NPDA from toPda accepts w exactly when the grammar derives w from S. |
| Triples.ShowCases | pda.py:16-23 | str(TR): a terminal prints alone, S prints as "S", and a triple prints as "[f S t]". Two different triples can print the same. |
| Triples.ChainOfCons | pda.py:441-444 | A chain along a path is its first triple followed by the chain along the rest. |
| Triples.ChainSplit | pda.py:441-444 | A chain of several triples is a first triple to a state p of Q followed by a chain from p. |
| Triples.ChainsFromMembership | pda.py:433-444 | _push2N appends exactly the right-hand sides a [q1 A1 p1][p1 A2 p2]...[pn-1 An qLast] whose intermediate states are states of the PDA. |
| Triples.ChainsFromCount | pda.py:433-444 | It appends \|Q\|^(n-1) of them for a push list of length n. |
| Triples.Push2N | pda.py:433-444 | The recursive method appends to outputList exactly those chains. |
| CfgRules.AddRhssMembership | pda.py:416-418 | After appending, a key's right-hand sides are its old ones and the new ones. |
| CfgRules.InitialRhssSnoc | pda.py:404-407 | The start rules grow by S -> [q_0 Z_0 q] for each state q. |
| CfgRules.MoveRuleShape | pda.py:414-425 | Every rule an outcome introduces is in Greibach form: a terminal followed by one triple per pushed symbol. |
| CfgRules.LastStateRulesMembership | pda.py:420-425 | The loop over qLast introduces the left-hand sides [q A qLast] and their chains. |
| CfgRules.MoveRulesMembership | pda.py:414-425 | An empty push gives [q A q1] -> a; otherwise the chains. |
| CfgRules.MovesRulesMembership | pda.py:412-425 | The outcomes of one key introduce exactly their rules. |
| CfgRules.TableRulesMembership | pda.py:410-425 | The loop over the table introduces exactly the rules of its keys. |
| CfgRules.BuiltRulesMembership | pda.py:402-425 | Whatever the iteration orders, the rule table has exactly the construction's left-hand sides and rules. |
| Unterminated.RemoveFirstCount | pda.py:489 | list.remove(x) drops one occurrence of x when x occurs and leaves the list alone otherwise. |
| Unterminated.RemoveFirstsCount | pda.py:487-489 | The removal as written drops one occurrence of each marked symbol that occurs, whatever order tKeys is visited in. |
| Unterminated.RemoveFirstsStep | pda.py:487-489 | One more marked symbol in the loop is one more removal. |
| Unterminated.RemoveMarked | pda.py:486-489 | The loop as written leaves RemoveFirsts of the right-hand side. |
| Unterminated.RemoveNothing | pda.py:487-489 | Helper of Unterminated.RemoveMarked: with nothing marked yet, the removal as written removes nothing. |
| Unterminated.RemoveAllAppend | pda.py:487-489 | The intended removal works piecewise on a concatenation. |
| Unterminated.RemoveAllTwice | pda.py:487-489 | Removing marks A and then B is the same as removing B, when A is part of B. |
| Unterminated.RemoveMarkedAll | pda.py:486-489 | The intended removal leaves the unmarked symbols of the right-hand side, in order. |
| Unterminated.RemoveAllTriples | pda.py:490 | Over non-terminals alone, the intended removal leaves nothing exactly when every one is marked. |
| Unterminated.RemoveAllAfterFirsts | pda.py:487-489 | Removing one occurrence of the marks first changes nothing for the intended removal of every mark. |
| Unterminated.ReducesAsWritten | pda.py:490-494 | A right-hand side the second pass as written accepts is accepted by the intended pass too, as long as no terminal is marked. |
| Unterminated.JustifiedAsWritten | pda.py:458-499 | An order of marks the loop as written justifies, holding no terminal, is justified for the intended removal too. |
| Unterminated.AsWrittenWithinIntended | pda.py:458-499 | What the loop as written marks lies within every set the intended passes cannot extend: the source marks no more than intended. |
| Unterminated.JustifiedAt | pda.py:466-494 | S is marked first, and every later mark has a right-hand side accepted on the marks before it. |
| Unterminated.RepeatedRuleStays | pda.py:486-490 | Whatever is marked, the removal as written leaves a [qAq] in a [qAq][qAq], so that rule never reduces. |
| Unterminated.ReducesAllIff | pda.py:490-494 | With the intended removal, a rule a [..]...[..] reduces exactly when all its non-terminals are marked. |
| Unterminated.ReducesMonotone | pda.py:482-494 | With the intended removal, marking more non-terminals keeps a reducing right-hand side reducing. |
| Unterminated.LeastClosed | pda.py:458-499 | With the intended removal, the symbols the iteration marks lie in every set that no pass can extend and that holds no terminal. |
| Unterminated.CopyP | pda.py:448-455 | _copyP returns a dictionary with the same keys and lists. |
| Unterminated.Mark | pda.py:477-478 | Marking a left-hand side with a right-hand side the pass accepts, under either removal, keeps the iteration's invariant. |
| Unterminated.AnyDirect | pda.py:470-476 | The first pass's scan finds exactly the lists with an empty or single-terminal right-hand side. |
| Unterminated.FirstPass | pda.py:468-478 | The first pass marks every left-hand side with an empty or single-terminal right-hand side, and keeps the invariant for either removal. |
| Unterminated.ReduceKey | pda.py:483-494 | Under the removal given (as written: one occurrence per marked symbol; or every occurrence), an unmarked left-hand side is marked exactly when one of its right-hand sides reduces to a single terminal. |
| Unterminated.SecondPass | pda.py:480-494 | Under the removal given, the second pass marks something new, or reports that no unmarked left-hand side has a right-hand side that reduces under that removal. |
| Unterminated.CardGrows | pda.py:467-497 | Helper of Unterminated.RemoveUnterminated: a round that marks something brings the marked set closer to its bound, which is why the loop ends. |
| Unterminated.Round | pda.py:467-497 | Under the removal given, one round keeps the invariant; when it reports nothing found, the marked set is closed for that removal, and otherwise it has grown. |
| Unterminated.RemoveUnterminated | pda.py:458-499 | With rm = AsWritten this is the loop as pda.py performs it, with Intended the corrected one. Either way the result holds S, is closed under both passes for that removal, and each symbol in it is justified by an earlier mark. |
| Unterminated.RepeatedSymbolDropped | pda.py:458-499 | As written, the loop on S -> [qZq], [qZq] -> a [qAq][qAq], [qAq] -> a can only end with {S, [qAq]}: [qZq] is never marked. |
| Unterminated.RepeatedSymbolKept | pda.py:482-494 | With the intended removal, every closed set of that grammar holds [qZq]. |
| PdaToCfg.ShowAll | pda.py:519-521 | The printed right-hand side has one string per symbol, in order. |
| PdaToCfg.KeptRhssMembership | pda.py:512-521 | A right-hand side is kept, printed, exactly when each of its symbols with a non-empty stack symbol is marked. |
| PdaToCfg.KeepRhss | pda.py:512-521 | The loop over one key's right-hand sides keeps exactly those. |
| PdaToCfg.NewPInjective | pda.py:502-522 | When printing is one-to-one on the marked keys, each printed key maps to its own kept rules. |
| PdaToCfg.CreateNewP | pda.py:502-522 | _createNewP's keys are the printed marked left-hand sides; each maps to the kept rules of a marked key that prints as it. |
| PdaToCfg.AddMove | pda.py:413-425 | One outcome adds [q A q1] -> a when it pushes nothing, and otherwise the chains for every qLast. |
| PdaToCfg.AddMoves | pda.py:412-425 | The loop over one key's outcomes adds each outcome's rules in order. |
| PdaToCfg.ToCfg | pda.py:398-430 | temporaryP has exactly the construction's left-hand sides and rules. The marked set is the least closed set. The grammar's rules are the printed marked rules, its start symbol is "S", and its alphabet and N are derived from them. |
| PdaToCfg.RepeatedSymbolBuilt | pda.py:402-425 | For the PDA with moves (q,a,Z) -> (q,[A,A]) and (q,a,A) -> (q,[]), toCfg builds S -> [qZq], [qZq] -> a [qAq][qAq] and [qAq] -> a. |
| PdaToCfg.RepeatedSymbolAccepted | pda.py:312-366 | That PDA accepts aaa by emptying its stack. |
| PdaToCfg.RepeatedSymbolStartDropped | pda.py:502-522 | With {S, [qAq]} marked, _createNewP keeps no rule for "S", since its only rule names [qZq]. |
| PdaToCfg.RepeatedSymbolAsWritten | pda.py:458-522 | The loop as written, run on the rules toCfg builds for that PDA, marks exactly S and [qAq], and the new rules give "S" nothing, although the PDA accepts aaa. |

## Left out

- LaTeX and text rendering are not modelled: `_mkStr`, `_mkStackStr`, `latexExp`, `_latexElement`, `_toText`, the `__str__` methods of DPDA, NPDA and Stack, and the `latex` flag of `read`. `sequence` holds `Config` values (state, input left, stack) instead of the strings `_mkStr` prints.
- Result messages are the datatype `Message` rather than formatted strings. `'delta(f) is not defined'` carries the key f.
- The read-only properties (`states`, `alphabet`, `stackAlphabet`, `F`, `delta`, `q_0`, `Z`, `P`, `N`, `S`, `temporaryP`) are fields of the datatypes. `temporaryP` is an out-parameter of `ToCfg`.
- The module-level test functions of `stack.py` (`testing_stack`, `test_palindrome`) print only and are not modelled.
- The recursion limit is modelled as fuel, so an ε-loop gives `None` rather than `RecursionError`.
- Python's set and dictionary iteration order is left open (`Util.Enumerate`). The order of NPDA results follows the order of each outcome list, as the source does.
- The `deque` inside `Stack` is a `seq`.
- Stacks.Stack.Pop, Stacks.Stack.Peek: they require a non-empty stack. Python raises IndexError there, and no caller in the core pops an empty stack.
- PdaToCfg.CreateNewP: when two marked triples print as the same string (see `Triples.ShowCases`), the dictionary keeps the rules of whichever was written last. The model only states that the value comes from one of them, since the iteration order is left open.
- PdaToCfg.ToCfg: the model does not prove that the grammar generates the PDA's language; it states the construction's rules and the least marked set. It runs `Unterminated.RemoveUnterminated` with the intended removal, for the reason in Findings; the loop as written is `RemoveUnterminated` with `AsWritten`, whose result on the example is stated by `PdaToCfg.RepeatedSymbolAsWritten`.
- Grammar.ToPdaLanguage: it is stated for grammars in Greibach normal form with one-character terminals, the form `CFG` is documented for.

## Findings

| source | as written | input that shows it | evidently intended | confidence | as-written member | corrected member |
|---|---|---|---|---|---|---|
| pda.py:487-489 (pdaClass.py:474-476) | `dl.remove(kt)` drops only the first occurrence of each marked symbol, so a right-hand side naming a marked non-terminal twice never reduces. | The NPDA with one state q, Z_0 = Z, moves (q,a,Z) -> (q,[A,A]) and (q,a,A) -> (q,[]) and no accepting states accepts "aaa" (`PdaToCfg.RepeatedSymbolAccepted`). toCfg builds S -> [qZq], [qZq] -> a [qAq][qAq] and [qAq] -> a for it (`PdaToCfg.RepeatedSymbolBuilt`). The loop as written then marks exactly S and [qAq], and the new rules give "S" no right-hand side (`PdaToCfg.RepeatedSymbolAsWritten`, by `Unterminated.RepeatedSymbolDropped`). | Remove every occurrence, so that a rule is kept when all of its non-terminals derive terminal strings. `Unterminated.ReducesAllIff` proves this for the corrected removal, and `Unterminated.RepeatedSymbolKept` shows that [qZq] is then marked. `Unterminated.AsWrittenWithinIntended` shows the source marks no more than intended. `ToCfg` runs `RemoveUnterminated` with the corrected removal. | not executed | PdaToCfg.RepeatedSymbolAsWritten | Unterminated.RemoveMarkedAll |
| stack.py:16 | `isinstance(data, 'Stack')` passes a string where a type is needed, so `Stack(data)` raises TypeError for any data other than None. That includes `Stack(stack)` in NPDA._readSub (pda.py:338, 364). | `Stack(Stack())` | `isinstance(data, Stack)`: copy the other stack's elements. | not executed | Stacks.StackArgumentRaises | Stacks.Stack.Copy |
