// The per-state transition table of the simulator: rules are stored per
// reading symbol in insertion order and looked up by (symbol, stack top).

module Rules {

  datatype Option<T> = None | Some(value: T)

  /** "@" is both the epsilon reading symbol and the stack wildcard. */
  const Epsilon: string := "@"

  /** One transition rule; `nextState` is the index of the target state. */
  datatype Action = Action(symbolRead: string, stackRead: string, nextState: nat, stackPush: string)

  type RuleTable = map<string, seq<Action>>

  /** A rule fires on a stack top when it reads the wildcard or exactly that top. */
  predicate Matches(act: Action, top: string)
  {
    act.stackRead == Epsilon || act.stackRead == top
  }

  /** The actions of `acts` that fire on `top`, in their original order. */
  function Matching(acts: seq<Action>, top: string): (r: seq<Action>)
    ensures |r| <= |acts|
  {
    if acts == [] then []
    else (if Matches(acts[0], top) then [acts[0]] else []) + Matching(acts[1..], top)
  }

  /** The kept actions are exactly the listed ones that fire on `top`. */
  lemma {:induction false} MatchingMembers(acts: seq<Action>, top: string)
    ensures forall x :: x in Matching(acts, top) <==> x in acts && Matches(x, top)
  {
    if acts != [] {
      MatchingMembers(acts[1..], top);
      assert acts == [acts[0]] + acts[1..];
    }
  }

  /** Filtering distributes over concatenation: the relative order of rules is kept. */
  lemma {:induction false} MatchingAppend(xs: seq<Action>, ys: seq<Action>, top: string)
    ensures Matching(xs + ys, top) == Matching(xs, top) + Matching(ys, top)
  {
    if xs == [] {
      assert xs + ys == ys;
    } else {
      var head := if Matches(xs[0], top) then [xs[0]] else [];
      assert (xs + ys)[0] == xs[0];
      assert (xs + ys)[1..] == xs[1..] + ys;
      assert Matching(xs + ys, top) == head + Matching(xs[1..] + ys, top);
      MatchingAppend(xs[1..], ys, top);
      assert Matching(xs, top) == head + Matching(xs[1..], top);
    }
  }

  /** Duplicate rules are all kept: every matching rule occurs as often as it was added. */
  lemma {:induction false} MatchingCount(acts: seq<Action>, top: string, x: Action)
    ensures multiset(Matching(acts, top))[x] == if Matches(x, top) then multiset(acts)[x] else 0
  {
    if acts != [] {
      MatchingCount(acts[1..], top, x);
      assert acts == [acts[0]] + acts[1..];
      assert multiset(acts) == multiset([acts[0]]) + multiset(acts[1..]);
    }
  }

  /** True when `read_symbol` finds nothing: the symbol is unknown or no rule fires on `top`. */
  predicate NoneMatch(rules: RuleTable, sym: string, top: string)
  {
    sym !in rules || forall x :: x in rules[sym] ==> !Matches(x, top)
  }

  /** The actions wrapped as present options. */
  function Present(acts: seq<Action>): (r: seq<Option<Action>>)
    ensures |r| == |acts|
    ensures forall i :: 0 <= i < |r| ==> r[i] == Some(acts[i])
  {
    if acts == [] then [] else [Some(acts[0])] + Present(acts[1..])
  }

  /**
   * What `read_symbol(sym, top)` returns: the firing rules in insertion order,
   * or the one-element sentinel list [None] when there are none.
   */
  function Lookup(rules: RuleTable, sym: string, top: string): (r: seq<Option<Action>>)
    ensures |r| >= 1
    ensures r == [None] <==> NoneMatch(rules, sym, top)
  {
    MatchingMembers(if sym in rules then rules[sym] else [], top);
    if sym in rules && Matching(rules[sym], top) != [] then
      var m := Matching(rules[sym], top);
      assert m[0] in rules[sym];
      Present(m)
    else
      [None]
  }

  /** Every present entry of a lookup is a rule under the symbol that fires on the top. */
  lemma LookupSound(rules: RuleTable, sym: string, top: string)
    ensures var r := Lookup(rules, sym, top);
            (r != [None] ==> forall i :: 0 <= i < |r| ==> r[i].Some?) &&
            forall o :: o in r && o.Some? ==> sym in rules && o.value in rules[sym] && Matches(o.value, top)
  {
    if sym in rules {
      MatchingMembers(rules[sym], top);
    }
  }

  /** Lookup of a non-sentinel result lists exactly the firing rules, in order. */
  lemma LookupFound(rules: RuleTable, sym: string, top: string)
    requires !NoneMatch(rules, sym, top)
    ensures Lookup(rules, sym, top) == Present(Matching(rules[sym], top))
  {
    MatchingMembers(rules[sym], top);
    var x :| x in rules[sym] && Matches(x, top);
    assert x in Matching(rules[sym], top);
  }

  /**
   * Every rule under `sym` that fires on `top` is returned; in particular a
   * wildcard rule is returned on an empty stack, whose top reads as "".
   */
  lemma LookupComplete(rules: RuleTable, sym: string, top: string, act: Action)
    requires sym in rules && act in rules[sym] && Matches(act, top)
    ensures Some(act) in Lookup(rules, sym, top)
  {
    LookupFound(rules, sym, top);
    MatchingMembers(rules[sym], top);
    var m := Matching(rules[sym], top);
    var i :| 0 <= i < |m| && m[i] == act;
    assert Lookup(rules, sym, top)[i] == Some(act);
  }

  /** The table after `add_rule(sym, act)`. */
  function Added(rules: RuleTable, sym: string, act: Action): (r: RuleTable)
    ensures r.Keys == rules.Keys + {sym}
    ensures r[sym] == (if sym in rules then rules[sym] else []) + [act]
    ensures forall k :: k in rules && k != sym ==> r[k] == rules[k]
  {
    if sym in rules then rules[sym := rules[sym] + [act]] else rules[sym := [act]]
  }

  /**
   * After `add_rule`, a lookup of the same symbol sees the old firing rules
   * followed by the new one (when it fires); other symbols are unaffected.
   */
  lemma {:induction false} AddedLookup(rules: RuleTable, sym: string, act: Action, top: string)
    ensures Matching(Added(rules, sym, act)[sym], top)
         == (if sym in rules then Matching(rules[sym], top) else [])
            + (if Matches(act, top) then [act] else [])
    ensures forall k :: k != sym ==> Lookup(Added(rules, sym, act), k, top) == Lookup(rules, k, top)
  {
    var old_ := if sym in rules then rules[sym] else [];
    MatchingAppend(old_, [act], top);
    assert [act][1..] == [];
    if sym !in rules {
      assert old_ + [act] == [act];
    }
  }

  /** A state of the automaton; its rule table is filled in place by the loader. */
  class State {
    const name: string
    var start: bool
    var final: bool
    var rules: RuleTable

    constructor (name: string)
      ensures this.name == name && !start && !final && rules == map[]
    {
      this.name := name;
      start := false;
      final := false;
      rules := map[];
    }

    /** Appends `act` to the rules read under `sym`; nothing is deduplicated. */
    method AddRule(sym: string, act: Action)
      modifies this
      ensures rules == Added(old(rules), sym, act)
      ensures final == old(final) && start == old(start)
    {
      if sym in rules {
        rules := rules[sym := rules[sym] + [act]];
      } else {
        rules := rules[sym := [act]];
      }
    }

    method SetFinal(isFinal: bool)
      modifies this
      ensures final == isFinal && start == old(start) && rules == old(rules)
    {
      final := isFinal;
    }

    method SetStart(isStart: bool)
      modifies this
      ensures start == isStart && final == old(final) && rules == old(rules)
    {
      start := isStart;
    }

    predicate IsFinal()
      reads this
    {
      final
    }

    /**
     * The rules under `sym` that fire on stack top `top`, in insertion order,
     * or [None] when there are none. Does not change the table.
     */
    method ReadSymbol(sym: string, top: string) returns (r: seq<Option<Action>>)
      ensures r == Lookup(rules, sym, top)
    {
      if sym in rules {
        var acts := rules[sym];
        var result: seq<Action> := [];
        var i := 0;
        while i < |acts|
          invariant 0 <= i <= |acts|
          invariant result == Matching(acts[..i], top)
        {
          MatchingAppend(acts[..i], [acts[i]], top);
          assert acts[..i + 1] == acts[..i] + [acts[i]];
          assert [acts[i]][1..] == [];
          if acts[i].stackRead == Epsilon || acts[i].stackRead == top {
            result := result + [acts[i]];
          }
          i := i + 1;
        }
        assert acts[..|acts|] == acts;
        if result != [] {
          r := Present(result);
          return;
        }
      }
      r := [None];
    }
  }
}
