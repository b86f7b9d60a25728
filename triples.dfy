/** The symbols of the grammar NPDA.toCfg builds (the TR named tuple of
    pda.py) and the right-hand sides _push2N enumerates for one transition
    that pushes several symbols. */
module Triples {
  import opened Util

  /** TR(f, S, t): the non-terminal [f S t] for states f, t and stack
      symbol S, or the terminal f when S and t are None. */
  datatype TR = TR(f: string, s: Option<string>, t: Option<string>)

  function Term(a: string): TR
  {
    TR(a, None, None)
  }

  function Triple(p: string, A: string, q: string): TR
  {
    TR(p, Some(A), Some(q))
  }

  /** The start symbol TR('S', 'S', 'S'). */
  const Start: TR := TR("S", Some("S"), Some("S"))

  /** Every element is a non-terminal: it has a stack symbol. */
  predicate AllTriples(ts: seq<TR>)
  {
    forall i :: 0 <= i < |ts| ==> ts[i].s.Some?
  }

  /** How an f-string prints an optional string. */
  function OptStr(o: Option<string>): string
  {
    match o
    case None => "None"
    case Some(x) => x
  }

  /** TR.__str__: the bracketed concatenation, except f alone for a
      terminal or when all three parts are equal. */
  function Show(x: TR): string
  {
    if x.s.None? then x.f
    else if x.s == Some(x.f) && x.t == Some(x.f) then x.f
    else "[" + x.f + x.s.value + OptStr(x.t) + "]"
  }

  /** A terminal prints as itself, the start symbol as "S", a triple with
      three different-looking parts in brackets; distinct triples can print
      alike because the parts are not separated. */
  lemma ShowCases(a: string, p: string, A: string, q: string)
    ensures Show(Term(a)) == a && Show(Start) == "S"
    ensures Show(Triple(p, A, q)) == if p == A && p == q then p else "[" + p + A + q + "]"
    ensures Show(Triple("a", "b", "cd")) == Show(Triple("ab", "c", "d"))
  {
    assert Show(Triple("a", "b", "cd")) == "[" + "a" + "b" + "cd" + "]";
    assert Show(Triple("ab", "c", "d")) == "[" + "ab" + "c" + "d" + "]";
    assert "[" + "a" + "b" + "cd" + "]" == "[abcd]";
    assert "[" + "ab" + "c" + "d" + "]" == "[abcd]";
  }

  /** The triples along a path of states: [path[0] push[0] path[1]]
      [path[1] push[1] path[2]] ... */
  function ChainOf(path: seq<string>, push: seq<string>): seq<TR>
    requires |path| == |push| + 1
  {
    seq(|push|, i requires 0 <= i < |push| => Triple(path[i], push[i], path[i + 1]))
  }

  /** _push2N(k, output, outputList, q, qLast, pushList): the right-hand
      sides it appends, for states visited in the order qs. */
  function ChainsFrom(output: seq<TR>, q: string, qLast: string, push: seq<string>, qs: seq<string>): seq<seq<TR>>
    requires push != []
    decreases |push|, |qs| + 1
  {
    if |push| == 1 then [output + [Triple(q, push[0], qLast)]]
    else ChainsVia(output, q, qLast, push, qs, qs)
  }

  /** The loop of _push2N over the intermediate states ps. */
  function ChainsVia(output: seq<TR>, q: string, qLast: string, push: seq<string>, qs: seq<string>, ps: seq<string>): seq<seq<TR>>
    requires |push| > 1
    decreases |push|, |ps|
  {
    if ps == [] then []
    else
      ChainsVia(output, q, qLast, push, qs, ps[..|ps| - 1]) +
      ChainsFrom(output + [Triple(q, push[0], Last(ps))], Last(ps), qLast, push[1..], qs)
  }

  /** Every state of ps is in Q. */
  predicate AllIn(ps: seq<string>, Q: set<string>)
  {
    forall i :: 0 <= i < |ps| ==> ps[i] in Q
  }

  /** r is output followed by the triples along q, some |push| - 1 states of
      Q, qLast. */
  ghost predicate IsChain(output: seq<TR>, q: string, qLast: string, push: seq<string>, Q: set<string>, r: seq<TR>)
  {
    exists ps: seq<string> :: |ps| == |push| - 1 && AllIn(ps, Q) && r == output + ChainOf([q] + ps + [qLast], push)
  }

  lemma ChainOfCons(q: string, p: string, ps: seq<string>, qLast: string, push: seq<string>)
    requires |push| > 1 && |ps| == |push| - 2
    ensures ChainOf([q] + ([p] + ps) + [qLast], push) == [Triple(q, push[0], p)] + ChainOf([p] + ps + [qLast], push[1..])
  {
    var l, r := ChainOf([q] + ([p] + ps) + [qLast], push), [Triple(q, push[0], p)] + ChainOf([p] + ps + [qLast], push[1..]);
    assert |l| == |r|;
    forall i | 0 <= i < |l| ensures l[i] == r[i] {
      if i > 0 {
        assert ([q] + ([p] + ps) + [qLast])[i] == ([p] + ps + [qLast])[i - 1];
        assert ([q] + ([p] + ps) + [qLast])[i + 1] == ([p] + ps + [qLast])[i];
      }
    }
  }

  lemma AllInCons(p: string, ps: seq<string>, Q: set<string>)
    ensures AllIn([p] + ps, Q) <==> p in Q && AllIn(ps, Q)
  {
    if p in Q && AllIn(ps, Q) {
      forall i | 0 <= i < |[p] + ps| ensures ([p] + ps)[i] in Q {
        if i > 0 {
          assert ([p] + ps)[i] == ps[i - 1];
        }
      }
    }
    if AllIn([p] + ps, Q) {
      assert ([p] + ps)[0] == p;
      forall i | 0 <= i < |ps| ensures ps[i] in Q {
        assert ps[i] == ([p] + ps)[i + 1];
      }
    }
  }

  /** One triple to p, then a chain from p. */
  lemma ChainCons(output: seq<TR>, q: string, p: string, qLast: string, push: seq<string>, Q: set<string>, r: seq<TR>)
    requires |push| > 1 && p in Q
    requires IsChain(output + [Triple(q, push[0], p)], p, qLast, push[1..], Q, r)
    ensures IsChain(output, q, qLast, push, Q, r)
  {
    var rest: seq<string> :| |rest| == |push| - 2 && AllIn(rest, Q) &&
                             r == output + [Triple(q, push[0], p)] + ChainOf([p] + rest + [qLast], push[1..]);
    ChainOfCons(q, p, rest, qLast, push);
    AllInCons(p, rest, Q);
    assert r == output + ChainOf([q] + ([p] + rest) + [qLast], push);
  }

  /** A chain of several triples starts with a triple to some p of Q. */
  lemma ChainUncons(output: seq<TR>, q: string, qLast: string, push: seq<string>, Q: set<string>, r: seq<TR>)
    requires |push| > 1 && IsChain(output, q, qLast, push, Q, r)
    ensures exists p :: p in Q && IsChain(output + [Triple(q, push[0], p)], p, qLast, push[1..], Q, r)
  {
    var ps: seq<string> :| |ps| == |push| - 1 && AllIn(ps, Q) && r == output + ChainOf([q] + ps + [qLast], push);
    var p, rest := ps[0], ps[1..];
    assert ps == [p] + rest;
    ChainOfCons(q, p, rest, qLast, push);
    AllInCons(p, rest, Q);
    assert r == (output + [Triple(q, push[0], p)]) + ChainOf([p] + rest + [qLast], push[1..]);
    assert IsChain(output + [Triple(q, push[0], p)], p, qLast, push[1..], Q, r);
  }

  /** A chain of several triples is its first triple to some state p of Q,
      followed by a chain from p. */
  lemma ChainSplit(output: seq<TR>, q: string, qLast: string, push: seq<string>, Q: set<string>, r: seq<TR>)
    requires |push| > 1
    ensures IsChain(output, q, qLast, push, Q, r) <==>
            exists p :: p in Q && IsChain(output + [Triple(q, push[0], p)], p, qLast, push[1..], Q, r)
  {
    if IsChain(output, q, qLast, push, Q, r) {
      ChainUncons(output, q, qLast, push, Q, r);
    }
    if p :| p in Q && IsChain(output + [Triple(q, push[0], p)], p, qLast, push[1..], Q, r) {
      ChainCons(output, q, p, qLast, push, Q, r);
    }
  }

  /** _push2N appends exactly the chains through states of qs. */
  lemma {:induction false} ChainsFromMembership(output: seq<TR>, q: string, qLast: string, push: seq<string>, qs: seq<string>, r: seq<TR>)
    requires push != []
    ensures r in ChainsFrom(output, q, qLast, push, qs) <==> IsChain(output, q, qLast, push, Elems(qs), r)
    decreases |push|, |qs| + 1
  {
    if |push| == 1 {
      var ps: seq<string> := [];
      assert ChainOf([q] + ps + [qLast], push) == [Triple(q, push[0], qLast)];
      if IsChain(output, q, qLast, push, Elems(qs), r) {
        var ps': seq<string> :| |ps'| == |push| - 1 && AllIn(ps', Elems(qs)) &&
                                r == output + ChainOf([q] + ps' + [qLast], push);
        assert ps' == ps;
      }
    } else {
      ChainsViaMembership(output, q, qLast, push, qs, qs, r);
      ChainSplit(output, q, qLast, push, Elems(qs), r);
    }
  }

  lemma {:induction false} ChainsViaMembership(output: seq<TR>, q: string, qLast: string, push: seq<string>, qs: seq<string>, ps: seq<string>, r: seq<TR>)
    requires |push| > 1
    ensures r in ChainsVia(output, q, qLast, push, qs, ps) <==>
            exists p :: p in ps && IsChain(output + [Triple(q, push[0], p)], p, qLast, push[1..], Elems(qs), r)
    decreases |push|, |ps|
  {
    if ps != [] {
      var init, p := ps[..|ps| - 1], Last(ps);
      assert ps == init + [p];
      ChainsViaMembership(output, q, qLast, push, qs, init, r);
      ChainsFromMembership(output + [Triple(q, push[0], p)], p, qLast, push[1..], qs, r);
    }
  }

  /** _push2N appends |qs|^(|push| - 1) right-hand sides: one per choice of
      the intermediate states. */
  lemma {:induction false} ChainsFromCount(output: seq<TR>, q: string, qLast: string, push: seq<string>, qs: seq<string>)
    requires push != []
    ensures |ChainsFrom(output, q, qLast, push, qs)| == Pow(|qs|, |push| - 1)
    decreases |push|, |qs| + 1
  {
    if |push| > 1 {
      ChainsViaCount(output, q, qLast, push, qs, qs);
    }
  }

  lemma {:induction false} ChainsViaCount(output: seq<TR>, q: string, qLast: string, push: seq<string>, qs: seq<string>, ps: seq<string>)
    requires |push| > 1
    ensures |ChainsVia(output, q, qLast, push, qs, ps)| == |ps| * Pow(|qs|, |push| - 2)
    decreases |push|, |ps|
  {
    if ps != [] {
      var init := ps[..|ps| - 1];
      ChainsViaCount(output, q, qLast, push, qs, init);
      ChainsFromCount(output + [Triple(q, push[0], Last(ps))], Last(ps), qLast, push[1..], qs);
      var x := Pow(|qs|, |push| - 2);
      assert |init| * x + x == |ps| * x;
    }
  }

  /** NPDA._push2N: for a single symbol to push it completes the right-hand
      side with [q S qLast]; otherwise it tries every state p for the end of
      [q S p] and goes on from p with the rest of pushList. */
  method Push2N(output: seq<TR>, outputList: seq<seq<TR>>, q: string, qLast: string, pushList: seq<string>, qs: seq<string>)
    returns (outputList': seq<seq<TR>>)
    requires pushList != []
    ensures outputList' == outputList + ChainsFrom(output, q, qLast, pushList, qs)
    decreases |pushList|
  {
    var S := pushList[0];
    if |pushList| == 1 {
      var completed := output + [Triple(q, S, qLast)];
      return outputList + [completed];
    }
    outputList' := outputList;
    var i := 0;
    assert qs[..0] == [];
    while i < |qs|
      invariant 0 <= i <= |qs|
      invariant outputList' == outputList + ChainsVia(output, q, qLast, pushList, qs, qs[..i])
    {
      var p := qs[i];
      var newOutput := output + [Triple(q, S, p)];
      assert qs[..i + 1][..i] == qs[..i] && Last(qs[..i + 1]) == p;
      outputList' := Push2N(newOutput, outputList', p, qLast, pushList[1..], qs);
      i := i + 1;
    }
    assert qs[..i] == qs;
  }
}
