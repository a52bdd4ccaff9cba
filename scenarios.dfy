// Small automata on which the search's verdict is worked out exactly:
// acceptance by a final state on the empty remaining input, and the quirks
// of the epsilon guard and of the character-at-a-time input.

module Scenarios {
  import opened Rules
  import opened SearchSpec

  /** A rule that neither reads nor writes the stack. */
  function Plain(sym: string, next: nat): Action
  {
    Action(sym, Epsilon, next, Epsilon)
  }

  /** One live call of the search, with its lookups supplied by the caller. */
  lemma Live(a: Automaton, q: nat, s: string, stack: Stack, push: string, guard: set<nat>,
             stk: Stack, eps: seq<Option<Action>>, syms: seq<Option<Action>>)
    requires q < |a| && q !in guard
    requires stk == Pushed(stack, push)
    requires eps == Lookup(a[q].rules, Epsilon, Top(stk))
    requires s != [] ==> syms == Lookup(a[q].rules, [s[0]], Top(stk))
    ensures Search(a, q, s, stack, push, guard)
         == (AnyFrom(a, eps, 0, s, stk, guard + {q})
             || if s == [] then a[q].final else AnyFrom(a, syms, 0, s[1..], stk, {}))
  {
  }

  /** A lookup with one present rule has exactly that branch; the sentinel has none. */
  lemma Single(a: Automaton, act: Action, s: string, stk: Stack, guard: set<nat>)
    ensures AnyFrom(a, [Some(act)], 0, s, stk, guard) == Branch(a, act, s, stk, guard)
    ensures !AnyFrom(a, [None], 0, s, stk, guard)
  {
    assert !AnyFrom(a, [Some(act)], 1, s, stk, guard);
    assert !AnyFrom(a, [None], 1, s, stk, guard);
  }

  /** Accepts the strings over {a, b} that end in a: q0 loops, q1 is final. */
  function EndsInA(): Automaton
  {
    [ StateView(false, map["a" := [Plain("a", 1), Plain("a", 0)], "b" := [Plain("b", 0)]]),
      StateView(true, map["b" := [Plain("b", 0)]]) ]
  }

  lemma EndsInAVerdicts()
    ensures Search(EndsInA(), 0, "ba", [], Epsilon, {})
    ensures !Search(EndsInA(), 0, "ab", [], Epsilon, {})
  {
    var a := EndsInA();
    assert "@" !in a[0].rules && "@" !in a[1].rules;
    assert Lookup(a[0].rules, Epsilon, "") == [None];
    assert Lookup(a[1].rules, Epsilon, "") == [None];
    assert Lookup(a[0].rules, "a", "") == [Some(Plain("a", 1)), Some(Plain("a", 0))];
    assert Lookup(a[0].rules, "b", "") == [Some(Plain("b", 0))];
    assert Lookup(a[1].rules, "b", "") == [Some(Plain("b", 0))];
    // "ba": q0 -b-> q0 -a-> q1, final
    assert Search(a, 1, "", [], Epsilon, {});
    assert Search(a, 0, "a", [], Epsilon, {});
    assert Search(a, 0, "ba", [], Epsilon, {});
    // "ab": every branch ends in q0 with the input consumed
    assert !Search(a, 0, "", [], Epsilon, {});
    assert !Search(a, 0, "b", [], Epsilon, {});
    assert !Search(a, 1, "b", [], Epsilon, {});
    assert !AnyFrom(a, [Some(Plain("a", 1)), Some(Plain("a", 0))], 1, "b", [], {});
    assert !Search(a, 0, "ab", [], Epsilon, {});
  }

  /** q0 moves to the final q1 by one epsilon rule and has no other rule. */
  function EpsilonToFinal(): Automaton
  {
    [ StateView(false, map["@" := [Plain("@", 1)]]),
      StateView(true, map[]) ]
  }

  /**
   * The empty string is accepted through the epsilon rule; so is the string
   * "@", whose one character is consumed by looking up the epsilon rules.
   */
  lemma EpsilonToFinalVerdicts()
    ensures Search(EpsilonToFinal(), 0, "", [], Epsilon, {})
    ensures Search(EpsilonToFinal(), 0, "@", [], Epsilon, {})
    ensures !Search(EpsilonToFinal(), 0, "x", [], Epsilon, {})
  {
    var a := EpsilonToFinal();
    assert {} + {0} == {0};
    assert Lookup(a[0].rules, Epsilon, "") == [Some(Plain("@", 1))];
    assert Lookup(a[1].rules, Epsilon, "") == [None];
    assert Lookup(a[0].rules, "x", "") == [None];
    assert Lookup(a[1].rules, "x", "") == [None];
    assert Search(a, 1, "", [], Epsilon, {0});
    assert Search(a, 1, "", [], Epsilon, {});
    assert ["@"[0]] == "@";
    assert Search(a, 0, "@", [], Epsilon, {});
    assert !Search(a, 1, "x", [], Epsilon, {0});
  }

  /** One state with an epsilon self-loop that pushes nothing. */
  function SelfLoop(final: bool): Automaton
  {
    [ StateView(final, map["@" := [Plain("@", 0)]]) ]
  }

  /**
   * The guard cuts the self-loop after one hop, so the search on the empty
   * string ends, and it accepts exactly when the state is final.
   */
  lemma SelfLoopVerdict(final: bool)
    ensures Search(SelfLoop(final), 0, "", [], Epsilon, {}) == final
  {
    var a := SelfLoop(final);
    assert {} + {0} == {0};
    assert Lookup(a[0].rules, Epsilon, "") == [Some(Plain("@", 0))];
    assert !Search(a, 0, "", [], Epsilon, {0});
    assert !Branch(a, Plain("@", 0), "", [], {0});
    assert !AnyFrom(a, [Some(Plain("@", 0))], 1, "", [], {0});
  }

  /**
   * Balanced parentheses: q0 pushes the bottom marker "$" and moves to q1;
   * q1 pushes "(" on reading "(" whatever the top, pops "(" on reading ")",
   * and moves to the final q2 by popping "$".
   */
  const Begin := Action("@", "@", 1, "$")
  const Open := Action("(", "@", 1, "(")
  const Close := Action(")", "(", 1, "@")
  const Finish := Action("@", "$", 2, "@")

  function Parens(): Automaton
  {
    [ StateView(false, map["@" := [Begin]]),
      StateView(false, map["(" := [Open], ")" := [Close], "@" := [Finish]]),
      StateView(true, map[]) ]
  }

  /** The rule lookups the two parentheses runs make. */
  predicate ParensTable(a: Automaton)
  {
    |a| == 3 && !a[0].final && !a[1].final && a[2].final &&
    Lookup(a[0].rules, Epsilon, "") == [Some(Begin)] &&
    Lookup(a[0].rules, "(", "") == [None] &&
    Lookup(a[1].rules, Epsilon, "$") == [Some(Finish)] &&
    Lookup(a[1].rules, Epsilon, "(") == [None] &&
    Lookup(a[1].rules, "(", "$") == [Some(Open)] &&
    Lookup(a[1].rules, "(", "(") == [Some(Open)] &&
    Lookup(a[1].rules, ")", "(") == [Some(Close)] &&
    Lookup(a[2].rules, Epsilon, "") == [None] &&
    Lookup(a[2].rules, "(", "") == [None]
  }

  lemma LoopLookups(r: RuleTable)
    requires r == map["(" := [Open], ")" := [Close], "@" := [Finish]]
    ensures Lookup(r, Epsilon, "$") == [Some(Finish)]
    ensures Lookup(r, Epsilon, "(") == [None]
    ensures Lookup(r, "(", "$") == [Some(Open)]
    ensures Lookup(r, "(", "(") == [Some(Open)]
    ensures Lookup(r, ")", "(") == [Some(Close)]
  {
    assert r[Epsilon] == [Finish] && r["("] == [Open] && r[")"] == [Close];
    assert Matching([Finish], "(") == [];
  }

  lemma ParensTableHolds(a: Automaton)
    requires a == Parens()
    ensures ParensTable(a)
  {
    LoopLookups(a[1].rules);
    assert Lookup(a[0].rules, Epsilon, "") == [Some(Begin)];
    assert Lookup(a[0].rules, "(", "") == [None];
  }

  // "(())": q0 -@-> q1 [$] -(-> [$(] -(-> [$((] -)-> [$(] -)-> [$] -@-> q2 []

  lemma ParensAcceptsEnd(a: Automaton)
    requires ParensTable(a)
    ensures Search(a, 1, "", ["$"], Epsilon, {})
  {
    Live(a, 2, "", [], Epsilon, {1}, [], [None], []);
    Single(a, Finish, "", [], {2, 1});
    Live(a, 1, "", ["$"], Epsilon, {}, ["$"], [Some(Finish)], []);
    assert {} + {1} == {1} && ["$"][..0] == [];
    Single(a, Finish, "", ["$"], {1});
  }

  lemma ParensAcceptsCloses(a: Automaton)
    requires ParensTable(a)
    ensures Search(a, 1, "))", ["$", "("], "(", {})
  {
    ParensAcceptsEnd(a);
    assert Search(a, 1, ")", ["$", "("], Epsilon, {}) by {
      Live(a, 1, ")", ["$", "("], Epsilon, {}, ["$", "("], [None], [Some(Close)]);
      Single(a, Close, "", ["$", "("], {});
      assert ["$", "("][..1] == ["$"];
    }
    Live(a, 1, "))", ["$", "("], "(", {}, ["$", "(", "("], [None], [Some(Close)]);
    Single(a, Close, ")", ["$", "(", "("], {});
    assert ["$", "(", "("][..2] == ["$", "("];
  }

  lemma ParensAcceptsAt(a: Automaton)
    requires ParensTable(a)
    ensures Search(a, 0, "(())", [], Epsilon, {})
  {
    ParensAcceptsCloses(a);
    assert Search(a, 1, "())", ["$"], "(", {}) by {
      Live(a, 1, "())", ["$"], "(", {}, ["$", "("], [None], [Some(Open)]);
      Single(a, Open, "))", ["$", "("], {});
    }
    assert Search(a, 1, "(())", [], "$", {0}) by {
      Live(a, 1, "(())", [], "$", {0}, ["$"], [Some(Finish)], [Some(Open)]);
      Single(a, Open, "())", ["$"], {});
    }
    Live(a, 0, "(())", [], Epsilon, {}, [], [Some(Begin)], [None]);
    Single(a, Begin, "(())", [], {0});
    assert {} + {0} == {0};
  }

  lemma ParensAccepts()
    ensures Search(Parens(), 0, "(())", [], Epsilon, {})
  {
    ParensTableHolds(Parens());
    ParensAcceptsAt(Parens());
  }

  // "(()": the only path that consumes it ends in the non-final q1 with "(" on the stack

  lemma ParensRejectsOpenLeft(a: Automaton)
    requires ParensTable(a)
    ensures !Search(a, 1, "", ["$", "("], Epsilon, {})
  {
    Live(a, 1, "", ["$", "("], Epsilon, {}, ["$", "("], [None], []);
    Single(a, Finish, "", ["$", "("], {1});
  }

  lemma ParensRejectsUnclosed(a: Automaton)
    requires ParensTable(a)
    ensures !Search(a, 1, ")", ["$", "("], "(", {})
  {
    ParensRejectsOpenLeft(a);
    var stk := ["$", "(", "("];
    assert Pushed(["$", "("], "(") == stk && Top(stk) == "(" && [")"[0]] == ")";
    assert BranchStack(stk, Close) == ["$", "("] && ")"[1..] == "";
    assert !Branch(a, Close, "", stk, {});
    Live(a, 1, ")", ["$", "("], "(", {}, ["$", "(", "("], [None], [Some(Close)]);
    Single(a, Close, "", ["$", "(", "("], {});
  }

  lemma ParensRejectsDeepest(a: Automaton)
    requires ParensTable(a)
    ensures !Search(a, 1, "()", ["$"], "(", {})
  {
    ParensRejectsUnclosed(a);
    Live(a, 1, "()", ["$"], "(", {}, ["$", "("], [None], [Some(Open)]);
    Single(a, Open, ")", ["$", "("], {});
  }

  /** q2, reached by popping "$" before reading anything, has no rule for "(". */
  lemma ParensRejectsEarlyFinish(a: Automaton)
    requires ParensTable(a)
    ensures !Search(a, 2, "(()", [], Epsilon, {0, 1})
  {
    Live(a, 2, "(()", [], Epsilon, {0, 1}, [], [None], [None]);
    Single(a, Finish, "()", [], {0, 1, 2});
  }

  lemma ParensRejectsAt(a: Automaton)
    requires ParensTable(a)
    ensures !Search(a, 0, "(()", [], Epsilon, {})
  {
    assert !Search(a, 1, "(()", [], "$", {0}) by {
      ParensRejectsDeepest(a);
      ParensRejectsEarlyFinish(a);
      Live(a, 1, "(()", [], "$", {0}, ["$"], [Some(Finish)], [Some(Open)]);
      Single(a, Finish, "(()", ["$"], {0, 1});
      Single(a, Open, "()", ["$"], {});
      assert {0} + {1} == {0, 1} && ["$"][..0] == [];
    }
    Live(a, 0, "(()", [], Epsilon, {}, [], [Some(Begin)], [None]);
    Single(a, Begin, "(()", [], {0});
    Single(a, Begin, "()", [], {});
    assert {} + {0} == {0};
  }

  lemma ParensRejects()
    ensures !Search(Parens(), 0, "(()", [], Epsilon, {})
  {
    ParensTableHolds(Parens());
    ParensRejectsAt(Parens());
  }

  /**
   * The guard records states, not (state, stack) pairs: q0 may push "X" by an
   * epsilon self-loop and pop it on reading "a", then reach the final q1 by
   * an epsilon rule. The self-loop is cut at once, so "a" is rejected.
   */
  function GrowingLoop(): Automaton
  {
    [ StateView(false, map["@" := [Action("@", "@", 0, "X"), Plain("@", 1)],
                           "a" := [Action("a", "X", 0, "@")]]),
      StateView(true, map[]) ]
  }

  lemma GrowingLoopRejects()
    ensures !Search(GrowingLoop(), 0, "a", [], Epsilon, {})
  {
    var a := GrowingLoop();
    assert {} + {0} == {0};
    assert Lookup(a[0].rules, Epsilon, "") == [Some(Action("@", "@", 0, "X")), Some(Plain("@", 1))];
    assert Lookup(a[0].rules, "a", "") == [None];
    assert Lookup(a[1].rules, Epsilon, "") == [None];
    assert Lookup(a[1].rules, "a", "") == [None];
    assert !Search(a, 0, "a", ["X"], Epsilon, {0});
    assert !Search(a, 1, "a", [], Epsilon, {0});
    assert !AnyFrom(a, [Some(Action("@", "@", 0, "X")), Some(Plain("@", 1))], 1, "a", [], {0});
  }
}
