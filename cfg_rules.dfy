/** The production rules NPDA.toCfg builds over TR symbols (the dictionary
    it stores as temporaryP): the start rules S -> [q_0 Z_0 q], and for each
    outcome (q1, pushList) of a key (q, a, A) the rule [q A q1] -> a when
    pushList is empty, otherwise [q A qLast] -> a [q1 B_1 p_1] ... [p_(n-1) B_n qLast]
    for every qLast and every choice of intermediate states. */
module CfgRules {
  import opened Util
  import opened PdaModel
  import opened Triples

  type Productions = map<TR, seq<seq<TR>>>

  /** rhs is one of the right-hand sides listed for x. */
  ghost predicate Has(P: Productions, x: TR, rhs: seq<TR>)
  {
    x in P && rhs in P[x]
  }

  /** `if not key in P: P[key] = list()` followed by appending rhss. */
  function AddRhss(P: Productions, key: TR, rhss: seq<seq<TR>>): Productions
  {
    P[key := (if key in P then P[key] else []) + rhss]
  }

  lemma AddRhssMembership(P: Productions, key: TR, rhss: seq<seq<TR>>, x: TR, rhs: seq<TR>)
    ensures x in AddRhss(P, key, rhss) <==> x in P || x == key
    ensures Has(AddRhss(P, key, rhss), x, rhs) <==> Has(P, x, rhs) || (x == key && rhs in rhss)
  {
  }

  /** The start rules, one per state in the order qs. */
  function InitialRhss(q0: string, Z0: string, qs: seq<string>): seq<seq<TR>>
  {
    seq(|qs|, i requires 0 <= i < |qs| => [Triple(q0, Z0, qs[i])])
  }

  lemma InitialRhssSnoc(q0: string, Z0: string, qs: seq<string>, q: string)
    ensures InitialRhss(q0, Z0, []) == []
    ensures InitialRhss(q0, Z0, qs + [q]) == InitialRhss(q0, Z0, qs) + [[Triple(q0, Z0, q)]]
  {
    var l, r := InitialRhss(q0, Z0, qs + [q]), InitialRhss(q0, Z0, qs) + [[Triple(q0, Z0, q)]];
    assert |l| == |r|;
    forall i | 0 <= i < |l| ensures l[i] == r[i] {
      if i < |qs| {
        assert (qs + [q])[i] == qs[i];
      }
    }
  }

  /** The loop over qLast for an outcome that pushes something, with qLast
      running over ls. */
  function LastStateRules(P: Productions, k: Key, mv: Move, qs: seq<string>, ls: seq<string>): Productions
    requires mv.push != []
  {
    if ls == [] then P
    else
      AddRhss(LastStateRules(P, k, mv, qs, ls[..|ls| - 1]), Triple(k.state, k.top, Last(ls)),
              ChainsFrom([Term(k.input)], mv.next, Last(ls), mv.push, qs))
  }

  /** What one outcome of key k adds. */
  function MoveRules(P: Productions, k: Key, mv: Move, qs: seq<string>): Productions
  {
    if mv.push == [] then AddRhss(P, Triple(k.state, k.top, mv.next), [[Term(k.input)]])
    else LastStateRules(P, k, mv, qs, qs)
  }

  /** What the outcomes `moves` of key k add, in list order. */
  function MovesRules(P: Productions, k: Key, moves: seq<Move>, qs: seq<string>): Productions
  {
    if moves == [] then P
    else MoveRules(MovesRules(P, k, moves[..|moves| - 1], qs), k, Last(moves), qs)
  }

  /** What the keys ks of the table add, in the order ks. */
  function TableRules(P: Productions, delta: NTable, ks: seq<Key>, qs: seq<string>): Productions
    requires forall i :: 0 <= i < |ks| ==> ks[i] in delta
  {
    if ks == [] then P
    else MovesRules(TableRules(P, delta, ks[..|ks| - 1], qs), Last(ks), delta[Last(ks)], qs)
  }

  /** x is a left-hand side that outcome mv of key k introduces, with Q the
      states. */
  predicate MoveKey(k: Key, mv: Move, Q: set<string>, x: TR)
  {
    x.f == k.state && x.s == Some(k.top) && x.t.Some? &&
    (if mv.push == [] then x.t.value == mv.next else x.t.value in Q)
  }

  /** x -> rhs is a rule that outcome mv of key k introduces. */
  ghost predicate MoveRule(k: Key, mv: Move, Q: set<string>, x: TR, rhs: seq<TR>)
  {
    MoveKey(k, mv, Q, x) &&
    if mv.push == [] then rhs == [Term(k.input)]
    else IsChain([Term(k.input)], mv.next, x.t.value, mv.push, Q, rhs)
  }

  /** A rule an outcome introduces is in Greibach form: the key's input
      symbol as a terminal, then one non-terminal per pushed symbol, the
      i-th carrying the i-th pushed symbol. */
  lemma MoveRuleShape(k: Key, mv: Move, Q: set<string>, x: TR, rhs: seq<TR>)
    requires MoveRule(k, mv, Q, x, rhs)
    ensures |rhs| == |mv.push| + 1 && rhs[0] == Term(k.input) && AllTriples(rhs[1..])
    ensures forall i :: 0 < i < |rhs| ==> rhs[i].s == Some(mv.push[i - 1])
  {
    if mv.push != [] {
      var ps: seq<string> :| |ps| == |mv.push| - 1 && AllIn(ps, Q) &&
                             rhs == [Term(k.input)] + ChainOf([mv.next] + ps + [x.t.value], mv.push);
      assert forall i :: 0 < i < |rhs| ==> rhs[i] == ChainOf([mv.next] + ps + [x.t.value], mv.push)[i - 1];
    }
  }

  /** The rules of the triple construction for NPDA m. */
  ghost predicate RuleOf(m: Npda, x: TR, rhs: seq<TR>)
  {
    (x == Start && exists q :: q in m.states && rhs == [Triple(m.q0, m.Z0, q)]) ||
    exists k, mv :: k in m.delta && mv in m.delta[k] && MoveRule(k, mv, m.states, x, rhs)
  }

  /** The left-hand sides of the construction, each listed even when it
      ends up with no right-hand side. */
  ghost predicate KeyOf(m: Npda, x: TR)
  {
    x == Start ||
    exists k, mv :: k in m.delta && mv in m.delta[k] && MoveKey(k, mv, m.states, x)
  }

  lemma {:induction false} LastStateRulesMembership(P: Productions, k: Key, mv: Move, qs: seq<string>, ls: seq<string>,
                                                    x: TR, rhs: seq<TR>)
    requires mv.push != []
    ensures x in LastStateRules(P, k, mv, qs, ls) <==>
              x in P || (x.f == k.state && x.s == Some(k.top) && x.t.Some? && x.t.value in ls)
    ensures Has(LastStateRules(P, k, mv, qs, ls), x, rhs) <==>
              Has(P, x, rhs) ||
              (x.f == k.state && x.s == Some(k.top) && x.t.Some? && x.t.value in ls &&
               IsChain([Term(k.input)], mv.next, x.t.value, mv.push, Elems(qs), rhs))
  {
    if ls != [] {
      var init, l := ls[..|ls| - 1], Last(ls);
      assert ls == init + [l];
      LastStateRulesMembership(P, k, mv, qs, init, x, rhs);
      AddRhssMembership(LastStateRules(P, k, mv, qs, init), Triple(k.state, k.top, l),
                        ChainsFrom([Term(k.input)], mv.next, l, mv.push, qs), x, rhs);
      ChainsFromMembership([Term(k.input)], mv.next, l, mv.push, qs, rhs);
    }
  }

  lemma MoveRulesMembership(P: Productions, k: Key, mv: Move, qs: seq<string>, x: TR, rhs: seq<TR>)
    ensures x in MoveRules(P, k, mv, qs) <==> x in P || MoveKey(k, mv, Elems(qs), x)
    ensures Has(MoveRules(P, k, mv, qs), x, rhs) <==> Has(P, x, rhs) || MoveRule(k, mv, Elems(qs), x, rhs)
  {
    if mv.push == [] {
      AddRhssMembership(P, Triple(k.state, k.top, mv.next), [[Term(k.input)]], x, rhs);
    } else {
      LastStateRulesMembership(P, k, mv, qs, qs, x, rhs);
    }
  }

  lemma {:induction false} MovesRulesMembership(P: Productions, k: Key, moves: seq<Move>, qs: seq<string>, x: TR, rhs: seq<TR>)
    ensures x in MovesRules(P, k, moves, qs) <==>
              x in P || exists mv :: mv in moves && MoveKey(k, mv, Elems(qs), x)
    ensures Has(MovesRules(P, k, moves, qs), x, rhs) <==>
              Has(P, x, rhs) || exists mv :: mv in moves && MoveRule(k, mv, Elems(qs), x, rhs)
  {
    if moves != [] {
      var init := moves[..|moves| - 1];
      assert moves == init + [Last(moves)];
      MovesRulesMembership(P, k, init, qs, x, rhs);
      MoveRulesMembership(MovesRules(P, k, init, qs), k, Last(moves), qs, x, rhs);
    }
  }

  lemma {:induction false} TableRulesMembership(P: Productions, delta: NTable, ks: seq<Key>, qs: seq<string>, x: TR, rhs: seq<TR>)
    requires forall i :: 0 <= i < |ks| ==> ks[i] in delta
    ensures x in TableRules(P, delta, ks, qs) <==>
              x in P || exists k, mv :: k in ks && mv in delta[k] && MoveKey(k, mv, Elems(qs), x)
    ensures Has(TableRules(P, delta, ks, qs), x, rhs) <==>
              Has(P, x, rhs) || exists k, mv :: k in ks && mv in delta[k] && MoveRule(k, mv, Elems(qs), x, rhs)
  {
    if ks != [] {
      var init, k := ks[..|ks| - 1], Last(ks);
      assert ks == init + [k];
      TableRulesMembership(P, delta, init, qs, x, rhs);
      MovesRulesMembership(TableRules(P, delta, init, qs), k, delta[k], qs, x, rhs);
    }
  }

  /** The table toCfg builds from the enumerations qs of the states and ks
      of the keys. */
  function BuiltRules(m: Npda, qs: seq<string>, ks: seq<Key>): Productions
    requires forall i :: 0 <= i < |ks| ==> ks[i] in m.delta
  {
    TableRules(map[Start := InitialRhss(m.q0, m.Z0, qs)], m.delta, ks, qs)
  }

  /** Whatever the iteration orders, the table lists exactly the rules of
      the triple construction under exactly its left-hand sides. */
  lemma BuiltRulesMembership(m: Npda, qs: seq<string>, ks: seq<Key>, x: TR, rhs: seq<TR>)
    requires Elems(qs) == m.states && Elems(ks) == m.delta.Keys
    ensures x in BuiltRules(m, qs, ks) <==> KeyOf(m, x)
    ensures Has(BuiltRules(m, qs, ks), x, rhs) <==> RuleOf(m, x, rhs)
  {
    assert forall i :: 0 <= i < |ks| ==> ks[i] in Elems(ks);
    TableRulesMembership(map[Start := InitialRhss(m.q0, m.Z0, qs)], m.delta, ks, qs, x, rhs);
    if x == Start && rhs in InitialRhss(m.q0, m.Z0, qs) {
      var i :| 0 <= i < |qs| && InitialRhss(m.q0, m.Z0, qs)[i] == rhs;
      assert qs[i] in Elems(qs);
    }
    if x == Start && exists q :: q in m.states && rhs == [Triple(m.q0, m.Z0, q)] {
      var q :| q in m.states && rhs == [Triple(m.q0, m.Z0, q)];
      var i :| 0 <= i < |qs| && qs[i] == q;
      assert InitialRhss(m.q0, m.Z0, qs)[i] == rhs;
    }
  }
}
