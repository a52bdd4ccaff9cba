// The simulation engine: an automaton object whose recursive `Simulate`
// raises its `accepts` flag deep in the recursion, proved against the pure
// search of module SearchSpec.

module Simulator {
  import opened Rules
  import opened SearchSpec

  class NFA {
    /** The states, addressed by index; filled in by the loader. */
    const states: seq<State>
    const start: nat
    /** The verdict flag; only ever raised during one string's search. */
    var accepts: bool

    /**
     * Takes the loader's output: one State object per declared name, a start
     * state among them, and every rule leading to a declared state.
     */
    constructor (states: seq<State>, start: nat)
      requires start < |states|
      requires forall i, j :: 0 <= i < j < |states| ==> states[i] != states[j]
      requires forall q, sym, act :: 0 <= q < |states| && sym in states[q].rules && act in states[q].rules[sym] ==>
                 act.nextState < |states|
      ensures this.states == states && this.start == start && !accepts
      ensures WellFormed(View())
    {
      this.states := states;
      this.start := start;
      accepts := false;
      new;
      assert forall q :: 0 <= q < |states| ==> View()[q].rules == states[q].rules;
    }

    /** The automaton as the search sees it: each state's final flag and rules. */
    ghost function View(): (a: Automaton)
      reads states
      ensures |a| == |states|
      ensures forall q :: 0 <= q < |states| ==> a[q] == StateView(states[q].final, states[q].rules)
    {
      seq(|states|, q requires 0 <= q < |states| reads states => StateView(states[q].final, states[q].rules))
    }

    /**
     * Explores every branch from `current` on input `s`. `push` is the stack
     * symbol chosen by the caller's rule ("@" for none) and `guard` the states
     * already entered in the current epsilon chain. Raises `accepts` exactly
     * when the pure search accepts, and never lowers it.
     */
    method Simulate(current: nat, s: string, stack: Stack, push: string, guard: set<nat>)
      modifies this
      decreases |s|, Universe(|states|) - guard, 0
      ensures accepts == (old(accepts) || Search(View(), current, s, stack, push, guard))
      ensures current >= |states| || current in guard ==> accepts == old(accepts)
    {
      if current >= |states| || current in guard {
        return;
      }
      assert current in Universe(|states|);

      var stk := stack;
      if push != Epsilon {
        stk := stk + [push];
      }
      // epsilon moves, under the guard extended with this state
      var emptyStringStack := stk;
      var top := "";
      if |stk| > 0 {
        top := stk[|stk| - 1];
        emptyStringStack := stk[..|stk| - 1];
      }
      var emptyNext := states[current].ReadSymbol(Epsilon, top);
      var newGuard := guard + {current};
      SimulateBranches(emptyNext, s, stk, emptyStringStack, newGuard);

      if s == [] {
        if states[current].IsFinal() && !accepts {
          accepts := true;
        }
        return;
      }

      // consume the leading character, under a fresh guard
      var nextStack := stk;
      top := "";
      if |stk| > 0 {
        top := stk[|stk| - 1];
        nextStack := stk[..|stk| - 1];
      }
      var nextStates := states[current].ReadSymbol([s[0]], top);
      SimulateBranches(nextStates, s[1..], stk, nextStack, {});
    }

    /**
     * The loop over the rules found by one lookup: each present rule starts
     * its own call, with the stack kept when it reads the wildcard and with
     * `popped` (the stack without its top) otherwise; the [None] sentinel is
     * skipped. Raises `accepts` exactly when one of the branches accepts.
     */
    method SimulateBranches(opts: seq<Option<Action>>, s: string, stk: Stack, popped: Stack, guard: set<nat>)
      requires popped == Popped(stk)
      modifies this
      decreases |s|, Universe(|states|) - guard, 1
      ensures accepts == (old(accepts) || AnyFrom(View(), opts, 0, s, stk, guard))
    {
      ghost var a := View();
      var i := 0;
      while i < |opts|
        invariant 0 <= i <= |opts|
        invariant View() == a
        invariant (accepts || AnyFrom(a, opts, i, s, stk, guard)) == (old(accepts) || AnyFrom(a, opts, 0, s, stk, guard))
      {
        var o := opts[i];
        if o.Some? && o.value.stackRead == Epsilon {
          Simulate(o.value.nextState, s, stk, o.value.stackPush, guard);
        } else if o.Some? {
          Simulate(o.value.nextState, s, popped, o.value.stackPush, guard);
        }
        i := i + 1;
      }
    }

    /**
     * One input line: resets the flag and searches from the start state with
     * an empty stack, no pending push and an empty guard. The verdict is
     * "accept" exactly when some explored computation path ends in a final
     * state with the whole line consumed.
     */
    method RunString(line: string) returns (verdict: bool)
      modifies this
      ensures verdict == accepts
      ensures verdict == Search(View(), start, line, [], Epsilon, {})
      ensures verdict <==> exists path :: Run(View(), start, line, [], Epsilon, {}, path)
    {
      accepts := false;
      Simulate(start, line, [], Epsilon, {});
      verdict := accepts;
      SearchIffRun(View(), start, line, [], Epsilon, {});
    }
  }
}
