# PDA simulator: transition table and nondeterministic search

This project models the simulation engine of a small pushdown-automaton
simulator (`dpda.py`). It decides whether an automaton accepts an input
string by exhaustive depth-first search. Three parts are modelled:

- **The per-state rule table.** `State.add_rule` appends a rule under its
  reading symbol. `State.read_symbol` returns, in insertion order, the rules
  under a symbol that fire on the current stack top. When none fire it
  returns the sentinel list `[None]`.
- **The recursive search.** `NFA.simulate` first explores the epsilon rules
  (symbol `"@"`) under a guard of states already entered in the current
  epsilon chain. It then accepts when the input is empty and the state is
  final. Otherwise it consumes one character under a fresh, empty guard.
  Every branch gets its own copy of the stack. A rule reading the wildcard
  `"@"` keeps the top; any other rule pops it. The entered call pushes the
  rule's `stack_push` unless that is `"@"`.
- **The verdict flag.** `NFA.run` resets `accepts` for every input line and
  calls `simulate` from the start state with an empty stack.

Files:

- `rules.dfy` (module `Rules`): the `Action` record, the `Option` sentinel,
  the pure lookup `Lookup`, and the class `State`, whose `AddRule` updates
  its table in place and whose `ReadSymbol` builds its result in a loop.
- `search.dfy` (module `SearchSpec`): the pure specification `Search` of what
  one `simulate` call does to the flag, the single-path semantics `Run`, and
  the lemmas relating them, bounding the recursion and describing the stack.
- `simulator.dfy` (module `Simulator`): the class `NFA` with the `accepts`
  field. Its recursive `Simulate` is proved to raise the flag exactly when
  `Search` holds. `RunString` is the per-line reset and call.
- `scenarios.dfy` (module `Scenarios`): small automata whose verdicts are
  worked out exactly, including the quirks of the guard and of the input.

States are indices into the automaton. A `next_state` that names no state
plays the part of Python's `current == None` and ends the branch. The
loader guarantees that every `next_state` names a state, so this only
matters for robustness.

Two behaviours of the code are easy to miss, and the model keeps both:

- For an unknown symbol, or when no rule fires, a lookup returns the
  one-element list `[None]`, not an empty list. Callers skip the `None`.
- Input is consumed one character at a time, so the lookup key is always a
  one-character string. A literal `@` in the input therefore selects the
  epsilon rules (see `Scenarios.EpsilonToFinalVerdicts`). A rule whose symbol
  is longer than one character never fires on consumption.

## Model

| member | source | states |
|---|---|---|
| `Rules.Matches` | dpda.py:21 | the firing test: a rule fires when it reads the wildcard `"@"` or exactly the given top (a definition, no contract) |
| `Rules.Matching` | dpda.py:20-22 | the insertion-order filter of the lookup loop; its own contract is only the length bound, and what it keeps is stated by `MatchingMembers`, `MatchingAppend` and `MatchingCount` |
| `Rules.MatchingMembers` | dpda.py:20-22 | the kept rules are exactly those of the list that read the wildcard or the given top |
| `Rules.MatchingAppend` | dpda.py:20-22 | filtering distributes over concatenation, so the rules keep their insertion order |
| `Rules.MatchingCount` | dpda.py:20-22 | a firing rule occurs in the result as often as it was added: duplicates are all tried |
| `Rules.Present` | dpda.py:22-24 | wraps the firing rules as present (non-`None`) entries, one for one and in order |
| `Rules.Lookup` | dpda.py:16-25 | never empty; the result is `[None]` exactly when the symbol is unknown or no rule under it fires |
| `Rules.LookupSound` | dpda.py:17-24 | a result other than the sentinel holds only present entries, and every present entry is a rule under the symbol that fires on the top |
| `Rules.LookupFound` | dpda.py:17-24 | when some rule fires, the result is the firing rules in insertion order, none dropped |
| `Rules.LookupComplete` | dpda.py:20-22 | every rule under the symbol that fires on the top is returned; on an empty stack (top `""`) every wildcard rule is |
| `Rules.Added` | dpda.py:9-13 | the new table has the symbol's old list (or the empty list) followed by the rule; every other symbol's list is unchanged |
| `Rules.AddedLookup` | dpda.py:9-25 | after adding, a lookup of that symbol sees the old firing rules then the new one if it fires; lookups of other symbols are unchanged |
| `Rules.State.constructor` | dpda.py:2-6 | a new state is neither start nor final and has an empty table |
| `Rules.State.AddRule` | dpda.py:9-13 | the table becomes `Added` of the old table; the flags are unchanged |
| `Rules.State.SetFinal` | dpda.py:27-28 | sets the final flag only |
| `Rules.State.SetStart` | dpda.py:30-31 | sets the start flag only |
| `Rules.State.IsFinal` | dpda.py:33-34 | `is_final`: reads the final flag (a definition, no contract) |
| `Rules.State.ReadSymbol` | dpda.py:16-25 | the loop returns `Lookup` of the table, which it does not change |
| `SearchSpec.Pushed` | dpda.py:115 | the entered call's stack is the given one, with `push` on top unless it is `"@"` |
| `SearchSpec.Top` | dpda.py:117-119 | the stack top handed to a lookup; `""` on an empty stack (a definition, no contract) |
| `SearchSpec.Popped` | dpda.py:117-119 | the copy with its top removed; an empty stack stays empty (a definition, no contract) |
| `SearchSpec.BranchStack` | dpda.py:126-145 | the stack a branch receives: the whole stack for a wildcard reader, the popped copy otherwise (a definition, no contract) |
| `SearchSpec.PoppedTop` | dpda.py:115-119 | the popped copy plus the top is the stack; an empty stack reads `""` and pops to itself; popping undoes a push |
| `SearchSpec.EntryStack` | dpda.py:115-171 | a rule reading a specific symbol fires only on that top (on an empty stack only a `""` reader does) and removes it; a wildcard reader keeps the whole stack; a pushed symbol becomes the branch's new top |
| `SearchSpec.Search` | dpda.py:110-171 | whether one `simulate` call raises the flag: dead on a non-state or guarded state; epsilon branches first under the guard plus this state; then accept on empty input in a final state; otherwise the first character's branches under an empty guard (a definition; its meaning is stated by `SearchIffRun` and `Simulator.NFA.Simulate`) |
| `SearchSpec.AnyFrom` | dpda.py:126-145 | whether one of the branches from position `i` on accepts, skipping the sentinel; the same loop serves lines 157-171 (a definition; see `AnyFromWitness`) |
| `SearchSpec.Branch` | dpda.py:129-145 | one branch: the search of the rule's next state on the branch stack with the rule's push (a definition) |
| `SearchSpec.Run` | dpda.py:110-171 | one explored computation path: a list of epsilon or consuming rule choices from unguarded states, ending in a final state on empty input (an independent reference for `Search`) |
| `SearchSpec.AnyFromWitness` | dpda.py:126-145 | the branch loop accepts exactly when one present rule's branch accepts; the sentinel is skipped |
| `SearchSpec.SearchHasRun` | dpda.py:110-171 | an accepting search has one computation path that ends in a final state with the input consumed |
| `SearchSpec.RunIsSearched` | dpda.py:110-171 | every such path is explored and raises the flag |
| `SearchSpec.SearchIffRun` | dpda.py:110-171 | the search accepts if and only if some explored path accepts |
| `SearchSpec.RunConsumesInput` | dpda.py:148-150 | an accepting path consumes exactly the whole input: acceptance happens only on the empty string |
| `SearchSpec.RunGuardMonotone` | dpda.py:112-122 | a path allowed under a larger epsilon guard is allowed under a smaller one |
| `SearchSpec.SearchGuardMonotone` | dpda.py:112-122 | a larger guard never makes the search accept more: the guard only prunes |
| `SearchSpec.Depth` | dpda.py:110-171 | the number of nested live frames on the deepest branch, following the same recursion as `Search` (a definition) |
| `SearchSpec.DepthFrom` | dpda.py:126-145 | the deepest of the branches from position `i` on (a definition) |
| `SearchSpec.DepthBound` | dpda.py:110-171 | on the recursion `Depth` mirrors, nested live calls are at most the states outside the guard plus the state count times the characters left; nothing ties this to the calls `Simulate` makes beyond having the same shape as `Search` |
| `SearchSpec.RecursionDepth` | dpda.py:110-171 | on that mirrored recursion, from an empty guard the nesting is at most states × (input length + 1) deep |
| `Simulator.NFA.constructor` | dpda.py:44-50 | the automaton holds the loaded states and start state, the flag is false, and every rule leads to a state |
| `Simulator.NFA.View` | dpda.py:44-50 | the automaton as the search sees it: one entry per state, with that state's final flag and rule table |
| `Simulator.NFA.Simulate` | dpda.py:110-171 | the flag afterwards is the old flag or `Search` of the call's arguments; a call on a guarded state (or a non-state) leaves it unchanged |
| `Simulator.NFA.SimulateBranches` | dpda.py:126-145 | the branch loop raises the flag exactly when one of the branches accepts, each on its own stack value |
| `Simulator.NFA.RunString` | dpda.py:98-101 | the verdict is `Search` from the start state with an empty stack and guard, and holds exactly when some explored path accepts |
| `Scenarios.EndsInAVerdicts` | dpda.py:110-171 | an automaton for "ends in a" accepts `ba` and rejects `ab` |
| `Scenarios.EpsilonToFinalVerdicts` | dpda.py:156 | one epsilon rule to a final state accepts the empty string and also `@`, whose character selects the epsilon rules; it rejects `x` |
| `Scenarios.SelfLoopVerdict` | dpda.py:112-122 | an epsilon self-loop is cut by the guard: on the empty string the search ends and accepts exactly when the state is final |
| `Scenarios.ParensAccepts` | dpda.py:110-171 | a bracket-matching automaton accepts `(())` |
| `Scenarios.ParensRejects` | dpda.py:110-171 | the same automaton rejects `(()` |
| `Scenarios.GrowingLoopRejects` | dpda.py:112-122 | the guard tracks states, not stacks: an epsilon self-loop that pushes is cut at once, so `a` is rejected even though push-then-pop would accept it |

## Left out

- `NFA.new` (dpda.py:53-86), the loader: reading and splitting the definition file and its `KeyError` paths. The `NFA` constructor takes the loaded states and requires what the loader guarantees: the start state exists, every `next_state` exists, and there is one `State` object per name.
- File handling in `NFA.run` (dpda.py:89-106): truncating and writing the output file, iterating the input lines, and `rstrip` of each line. `RunString` takes the already stripped line and returns the verdict instead of writing it.
- `print` calls and the `iter` counter (dpda.py:23, 83, 123-125, 128, 138, 159, 166): diagnostics only.
- `__str__` methods (dpda.py:36-40, 174-176) and `main` (dpda.py:179-185): formatting and the entry point.
- `alphabet` and the stack alphabet (dpda.py:46, 63-67): `simulate` never consults them.
- Python's recursion limit: a long input can make the real program raise `RecursionError`. The model has unbounded recursion; `SearchSpec.RecursionDepth` bounds the nesting of `Depth`, a function with the same recursion as `Search`, and no ghost depth counter ties that bound to the calls `Simulate` makes.
- The guard compares `State` objects by identity; the model compares indices. The constructor's distinctness requirement makes the two agree.
- The mutable default `empty_cycle=set()` (dpda.py:110) is an explicit empty set; it is never mutated because it is copied first (dpda.py:121).
- The shared `self.stack` list passed to the top-level call is the empty stack value. It is never mutated, because the top-level call pushes nothing.
