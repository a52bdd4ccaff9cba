// The pure specification of the simulator's recursive search: which branches
// `simulate` explores and when it raises the acceptance flag, the same
// question stated as the existence of one accepting computation path, and
// the bound on the depth of the recursion.

module SearchSpec {
  import opened Rules

  /** What the search needs of one state: its final flag and its rule table. */
  datatype StateView = StateView(final: bool, rules: RuleTable)

  /** States are addressed by their index in this sequence. */
  type Automaton = seq<StateView>

  /** A stack of stack symbols; the top is the last element. */
  type Stack = seq<string>

  /** Every rule of every state leads to a state of the automaton. */
  predicate WellFormed(a: Automaton)
  {
    forall q, sym, act :: 0 <= q < |a| && sym in a[q].rules && act in a[q].rules[sym] ==>
      act.nextState < |a|
  }

  /** The indices naming a state; the epsilon guard only ever grows inside it. */
  function Universe(n: nat): (u: set<nat>)
    ensures forall q: nat :: q in u <==> q < n
    ensures |u| == n
  {
    if n == 0 then {} else Universe(n - 1) + {n - 1}
  }

  /** The stack once the entering call has pushed `push` (nothing for the wildcard). */
  function Pushed(stack: Stack, push: string): (r: Stack)
    ensures push == Epsilon ==> r == stack
    ensures push != Epsilon ==> |r| == |stack| + 1 && r[..|stack|] == stack && r[|stack|] == push
  {
    if push != Epsilon then stack + [push] else stack
  }

  /** The top of the stack; an empty stack reads as the empty string. */
  function Top(stack: Stack): string
  {
    if |stack| > 0 then stack[|stack| - 1] else ""
  }

  /** The stack with its top removed; an empty stack stays empty. */
  function Popped(stack: Stack): Stack
  {
    if |stack| > 0 then stack[..|stack| - 1] else stack
  }

  /** The stack a branch receives: wildcard readers keep the top, the others pop it. */
  function BranchStack(stack: Stack, act: Action): Stack
  {
    if act.stackRead == Epsilon then stack else Popped(stack)
  }

  /**
   * Reading the top and popping it split a non-empty stack, and undo a push;
   * an empty stack reads as "" and pops to itself.
   */
  lemma PoppedTop(stack: Stack, push: string)
    ensures stack != [] ==> Popped(stack) + [Top(stack)] == stack
    ensures stack == [] ==> Popped(stack) == [] && Top(stack) == ""
    ensures push != Epsilon ==> Top(Pushed(stack, push)) == push && Popped(Pushed(stack, push)) == stack
  {
  }

  /**
   * The stack a rule's branch starts from, once it has pushed: a rule reading
   * a specific symbol fires only on that top and removes it, a wildcard rule
   * keeps the whole stack, and a pushed symbol becomes the new top.
   */
  lemma EntryStack(rules: RuleTable, sym: string, stk: Stack, act: Action)
    requires Some(act) in Lookup(rules, sym, Top(stk))
    ensures act.stackRead != Epsilon ==> act.stackRead == Top(stk)
    ensures act.stackRead != Epsilon && stk == [] ==> act.stackRead == ""
    ensures var entry := Pushed(BranchStack(stk, act), act.stackPush);
            var pushed := if act.stackPush == Epsilon then 0 else 1;
            (act.stackRead == Epsilon ==> |entry| == |stk| + pushed && entry[..|stk|] == stk) &&
            (act.stackRead != Epsilon && |stk| > 0 ==>
               |entry| == |stk| - 1 + pushed && entry[..|stk| - 1] == stk[..|stk| - 1]) &&
            (act.stackPush != Epsilon ==> Top(entry) == act.stackPush)
  {
    LookupSound(rules, sym, Top(stk));
  }

  /**
   * Whether `simulate(q, s, stack, push, guard)` raises the acceptance flag:
   * a state outside the automaton or inside the guard is a dead branch; the
   * epsilon rules are explored first under the guard extended with `q`; then
   * the empty input is accepted in a final state; otherwise the first
   * character is consumed by its rules under a fresh, empty guard.
   */
  function Search(a: Automaton, q: nat, s: string, stack: Stack, push: string, guard: set<nat>): bool
    decreases |s|, Universe(|a|) - guard, 0
  {
    if q >= |a| || q in guard then false
    else
      var stk := Pushed(stack, push);
      AnyFrom(a, Lookup(a[q].rules, Epsilon, Top(stk)), 0, s, stk, guard + {q})
      || if s == [] then a[q].final
         else AnyFrom(a, Lookup(a[q].rules, [s[0]], Top(stk)), 0, s[1..], stk, {})
  }

  /** Whether one of the branches `opts[i..]` accepts; the [None] sentinel is skipped. */
  function AnyFrom(a: Automaton, opts: seq<Option<Action>>, i: nat, s: string, stk: Stack, guard: set<nat>): bool
    decreases |s|, Universe(|a|) - guard, |opts| - i + 2
  {
    if i >= |opts| then false
    else
      (opts[i].Some? && Branch(a, opts[i].value, s, stk, guard))
      || AnyFrom(a, opts, i + 1, s, stk, guard)
  }

  /** The search of the branch that follows `act` from the stack `stk`. */
  function Branch(a: Automaton, act: Action, s: string, stk: Stack, guard: set<nat>): bool
    decreases |s|, Universe(|a|) - guard, 1
  {
    Search(a, act.nextState, s, BranchStack(stk, act), act.stackPush, guard)
  }

  /** One choice of a computation path: the k-th epsilon or the k-th consuming branch. */
  datatype Step = Eps(k: nat) | Sym(k: nat)

  /**
   * `path` is one computation path the search explores from this call, and it
   * ends in a final state with the whole input consumed.
   */
  predicate Run(a: Automaton, q: nat, s: string, stack: Stack, push: string, guard: set<nat>, path: seq<Step>)
    decreases |path|
  {
    q < |a| && q !in guard &&
    var stk := Pushed(stack, push);
    if path == [] then s == [] && a[q].final
    else match path[0]
      case Eps(k) =>
        var opts := Lookup(a[q].rules, Epsilon, Top(stk));
        k < |opts| && opts[k].Some? &&
        Run(a, opts[k].value.nextState, s, BranchStack(stk, opts[k].value), opts[k].value.stackPush,
            guard + {q}, path[1..])
      case Sym(k) =>
        s != [] &&
        var opts := Lookup(a[q].rules, [s[0]], Top(stk));
        k < |opts| && opts[k].Some? &&
        Run(a, opts[k].value.nextState, s[1..], BranchStack(stk, opts[k].value), opts[k].value.stackPush,
            {}, path[1..])
  }

  /** The number of input characters a path consumes. */
  function Consumed(path: seq<Step>): nat
  {
    if path == [] then 0 else (if path[0].Sym? then 1 else 0) + Consumed(path[1..])
  }

  /** A branch of `opts[i..]` accepts exactly when one particular branch does. */
  lemma {:induction false} AnyFromWitness(a: Automaton, opts: seq<Option<Action>>, i: nat, s: string, stk: Stack, guard: set<nat>)
    ensures AnyFrom(a, opts, i, s, stk, guard) <==>
            exists k :: i <= k < |opts| && opts[k].Some? && Branch(a, opts[k].value, s, stk, guard)
    decreases |opts| - i
  {
    if i < |opts| {
      AnyFromWitness(a, opts, i + 1, s, stk, guard);
      if opts[i].Some? && Branch(a, opts[i].value, s, stk, guard) {
        assert i <= i < |opts| && opts[i].Some? && Branch(a, opts[i].value, s, stk, guard);
      }
    }
  }

  /** Every accepting search has an accepting computation path. */
  lemma {:induction false} SearchHasRun(a: Automaton, q: nat, s: string, stack: Stack, push: string, guard: set<nat>)
    requires Search(a, q, s, stack, push, guard)
    ensures exists path :: Run(a, q, s, stack, push, guard, path)
    decreases |s|, Universe(|a|) - guard, 1
  {
    var stk := Pushed(stack, push);
    if AnyFrom(a, Lookup(a[q].rules, Epsilon, Top(stk)), 0, s, stk, guard + {q}) {
      EpsilonHasRun(a, q, s, stack, push, guard);
    } else if s == [] {
      assert Run(a, q, s, stack, push, guard, []);
    } else {
      SymbolHasRun(a, q, s, stack, push, guard);
    }
  }

  lemma {:induction false} EpsilonHasRun(a: Automaton, q: nat, s: string, stack: Stack, push: string, guard: set<nat>)
    requires q < |a| && q !in guard
    requires AnyFrom(a, Lookup(a[q].rules, Epsilon, Top(Pushed(stack, push))), 0, s, Pushed(stack, push), guard + {q})
    ensures exists path :: Run(a, q, s, stack, push, guard, path)
    decreases |s|, Universe(|a|) - guard, 0
  {
    var stk := Pushed(stack, push);
    var eps := Lookup(a[q].rules, Epsilon, Top(stk));
    assert q in Universe(|a|);
    AnyFromWitness(a, eps, 0, s, stk, guard + {q});
    var k :| 0 <= k < |eps| && eps[k].Some? && Branch(a, eps[k].value, s, stk, guard + {q});
    var act := eps[k].value;
    SearchHasRun(a, act.nextState, s, BranchStack(stk, act), act.stackPush, guard + {q});
    var p :| Run(a, act.nextState, s, BranchStack(stk, act), act.stackPush, guard + {q}, p);
    assert ([Eps(k)] + p)[1..] == p;
    assert Run(a, q, s, stack, push, guard, [Eps(k)] + p);
  }

  lemma {:induction false} SymbolHasRun(a: Automaton, q: nat, s: string, stack: Stack, push: string, guard: set<nat>)
    requires q < |a| && q !in guard && s != []
    requires AnyFrom(a, Lookup(a[q].rules, [s[0]], Top(Pushed(stack, push))), 0, s[1..], Pushed(stack, push), {})
    ensures exists path :: Run(a, q, s, stack, push, guard, path)
    decreases |s|, Universe(|a|) - guard, 0
  {
    var stk := Pushed(stack, push);
    var opts := Lookup(a[q].rules, [s[0]], Top(stk));
    AnyFromWitness(a, opts, 0, s[1..], stk, {});
    var k :| 0 <= k < |opts| && opts[k].Some? && Branch(a, opts[k].value, s[1..], stk, {});
    var act := opts[k].value;
    SearchHasRun(a, act.nextState, s[1..], BranchStack(stk, act), act.stackPush, {});
    var p :| Run(a, act.nextState, s[1..], BranchStack(stk, act), act.stackPush, {}, p);
    assert ([Sym(k)] + p)[1..] == p;
    assert Run(a, q, s, stack, push, guard, [Sym(k)] + p);
  }

  /** Every accepting computation path is found by the search. */
  lemma {:induction false} RunIsSearched(a: Automaton, q: nat, s: string, stack: Stack, push: string, guard: set<nat>, path: seq<Step>)
    ensures Run(a, q, s, stack, push, guard, path) ==> Search(a, q, s, stack, push, guard)
    decreases |path|
  {
    var stk := Pushed(stack, push);
    if Run(a, q, s, stack, push, guard, path) && path != [] {
      match path[0]
      case Eps(k) =>
        var opts := Lookup(a[q].rules, Epsilon, Top(stk));
        var act := opts[k].value;
        RunIsSearched(a, act.nextState, s, BranchStack(stk, act), act.stackPush, guard + {q}, path[1..]);
        AnyFromWitness(a, opts, 0, s, stk, guard + {q});
      case Sym(k) =>
        var opts := Lookup(a[q].rules, [s[0]], Top(stk));
        var act := opts[k].value;
        RunIsSearched(a, act.nextState, s[1..], BranchStack(stk, act), act.stackPush, {}, path[1..]);
        AnyFromWitness(a, opts, 0, s[1..], stk, {});
    }
  }

  /**
   * The search accepts exactly when some computation path it explores ends in
   * a final state with the input consumed.
   */
  lemma SearchIffRun(a: Automaton, q: nat, s: string, stack: Stack, push: string, guard: set<nat>)
    ensures Search(a, q, s, stack, push, guard) <==> exists path :: Run(a, q, s, stack, push, guard, path)
  {
    if Search(a, q, s, stack, push, guard) {
      SearchHasRun(a, q, s, stack, push, guard);
    }
    if exists path :: Run(a, q, s, stack, push, guard, path) {
      var path :| Run(a, q, s, stack, push, guard, path);
      RunIsSearched(a, q, s, stack, push, guard, path);
    }
  }

  /** An accepting path consumes the input exactly: acceptance needs the empty string. */
  lemma {:induction false} RunConsumesInput(a: Automaton, q: nat, s: string, stack: Stack, push: string, guard: set<nat>, path: seq<Step>)
    ensures Run(a, q, s, stack, push, guard, path) ==> Consumed(path) == |s|
    decreases |path|
  {
    if Run(a, q, s, stack, push, guard, path) && path != [] {
      var stk := Pushed(stack, push);
      match path[0]
      case Eps(k) =>
        var act := Lookup(a[q].rules, Epsilon, Top(stk))[k].value;
        RunConsumesInput(a, act.nextState, s, BranchStack(stk, act), act.stackPush, guard + {q}, path[1..]);
      case Sym(k) =>
        var act := Lookup(a[q].rules, [s[0]], Top(stk))[k].value;
        RunConsumesInput(a, act.nextState, s[1..], BranchStack(stk, act), act.stackPush, {}, path[1..]);
    }
  }

  /** The epsilon guard only prunes: a path allowed under a larger guard is allowed under a smaller one. */
  lemma {:induction false} RunGuardMonotone(a: Automaton, q: nat, s: string, stack: Stack, push: string, small: set<nat>, large: set<nat>, path: seq<Step>)
    requires small <= large
    requires Run(a, q, s, stack, push, large, path)
    ensures Run(a, q, s, stack, push, small, path)
    decreases |path|
  {
    if path != [] {
      var stk := Pushed(stack, push);
      match path[0]
      case Eps(k) =>
        var act := Lookup(a[q].rules, Epsilon, Top(stk))[k].value;
        RunGuardMonotone(a, act.nextState, s, BranchStack(stk, act), act.stackPush, small + {q}, large + {q}, path[1..]);
      case Sym(_) =>
    }
  }

  /** A larger epsilon guard never makes the search accept more. */
  lemma SearchGuardMonotone(a: Automaton, q: nat, s: string, stack: Stack, push: string, small: set<nat>, large: set<nat>)
    requires small <= large
    ensures Search(a, q, s, stack, push, large) ==> Search(a, q, s, stack, push, small)
  {
    if Search(a, q, s, stack, push, large) {
      SearchHasRun(a, q, s, stack, push, large);
      var path :| Run(a, q, s, stack, push, large, path);
      RunGuardMonotone(a, q, s, stack, push, small, large, path);
      RunIsSearched(a, q, s, stack, push, small, path);
    }
  }

  /** n * k, written as repeated addition to keep the solver off nonlinear arithmetic. */
  function Times(n: nat, k: nat): nat
  {
    if k == 0 then 0 else n + Times(n, k - 1)
  }

  lemma {:induction false} TimesIsProduct(n: nat, k: nat)
    ensures Times(n, k) == n * k
  {
    if k > 0 {
      TimesIsProduct(n, k - 1);
    }
  }

  function Max(x: nat, y: nat): nat
  {
    if x < y then y else x
  }

  /** The number of nested live `simulate` frames (past the guard check) on the deepest branch. */
  function Depth(a: Automaton, q: nat, s: string, stack: Stack, push: string, guard: set<nat>): nat
    decreases |s|, Universe(|a|) - guard, 0
  {
    if q >= |a| || q in guard then 0
    else
      var stk := Pushed(stack, push);
      1 + Max(DepthFrom(a, Lookup(a[q].rules, Epsilon, Top(stk)), 0, s, stk, guard + {q}),
              if s == [] then 0
              else DepthFrom(a, Lookup(a[q].rules, [s[0]], Top(stk)), 0, s[1..], stk, {}))
  }

  /** The deepest of the branches `opts[i..]`. */
  function DepthFrom(a: Automaton, opts: seq<Option<Action>>, i: nat, s: string, stk: Stack, guard: set<nat>): nat
    decreases |s|, Universe(|a|) - guard, |opts| - i + 1
  {
    if i >= |opts| then 0
    else
      Max(if opts[i].Some? then
            Depth(a, opts[i].value.nextState, s, BranchStack(stk, opts[i].value), opts[i].value.stackPush, guard)
          else 0,
          DepthFrom(a, opts, i + 1, s, stk, guard))
  }

  /**
   * Each epsilon hop adds a state to the guard and each consumed character
   * resets it, so a call has at most (states outside the guard) + (states) *
   * (characters left) live frames nested under it.
   */
  lemma {:induction false} DepthBound(a: Automaton, q: nat, s: string, stack: Stack, push: string, guard: set<nat>)
    ensures Depth(a, q, s, stack, push, guard) <= |Universe(|a|) - guard| + Times(|a|, |s|)
    decreases |s|, Universe(|a|) - guard, 0
  {
    if q < |a| && q !in guard {
      var u := Universe(|a|);
      var stk := Pushed(stack, push);
      var eps := Lookup(a[q].rules, Epsilon, Top(stk));
      GuardStep(u, guard, q);
      DepthFromBound(a, eps, 0, s, stk, guard + {q});
      if s != [] {
        var sym := Lookup(a[q].rules, [s[0]], Top(stk));
        assert u - {} == u;
        DepthFromBound(a, sym, 0, s[1..], stk, {});
        assert Times(|a|, |s|) == |a| + Times(|a|, |s[1..]|);
      }
    }
  }

  /** Adding an unguarded state to the guard leaves one state fewer outside it. */
  lemma GuardStep(u: set<nat>, guard: set<nat>, q: nat)
    requires q in u && q !in guard
    ensures |u - (guard + {q})| + 1 == |u - guard|
  {
    var rest := u - guard;
    assert u - (guard + {q}) == rest - {q};
    assert rest == (rest - {q}) + {q};
  }

  lemma {:induction false} DepthFromBound(a: Automaton, opts: seq<Option<Action>>, i: nat, s: string, stk: Stack, guard: set<nat>)
    ensures DepthFrom(a, opts, i, s, stk, guard) <= |Universe(|a|) - guard| + Times(|a|, |s|)
    decreases |s|, Universe(|a|) - guard, |opts| - i + 1
  {
    if i < |opts| {
      if opts[i].Some? {
        var act := opts[i].value;
        DepthBound(a, act.nextState, s, BranchStack(stk, act), act.stackPush, guard);
      }
      DepthFromBound(a, opts, i + 1, s, stk, guard);
    }
  }

  /** From a fresh guard the recursion is at most (states) * (input length + 1) deep. */
  lemma RecursionDepth(a: Automaton, q: nat, s: string, stack: Stack, push: string)
    ensures Depth(a, q, s, stack, push, {}) <= |a| * (|s| + 1)
  {
    DepthBound(a, q, s, stack, push, {});
    assert Universe(|a|) - {} == Universe(|a|);
    TimesIsProduct(|a|, |s| + 1);
  }
}
