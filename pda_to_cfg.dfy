/** NPDA.toCfg: the triple construction, the removal of left-hand sides that
    reach no terminal string, and the conversion of the surviving rules to
    strings for a CFG. */
module PdaToCfg {
  import opened Util
  import opened PdaModel
  import opened Triples
  import opened CfgRules
  import opened Unterminated
  import opened PdaRun
  import Grammar

  /** `bool(d.S)`: a stack symbol that is neither None nor "". */
  predicate Truthy(o: Option<string>)
  {
    o.Some? && o.value != ""
  }

  /** _createNewP keeps a right-hand side when every symbol of it with a
      truthy stack symbol is marked. */
  predicate Accepts(dList: seq<TR>, T: set<TR>)
  {
    forall i :: 0 <= i < |dList| && Truthy(dList[i].s) ==> dList[i] in T
  }

  /** [str(d) for d in dList]. */
  function ShowAll(dList: seq<TR>): (r: seq<string>)
    ensures |r| == |dList| && forall i :: 0 <= i < |dList| ==> r[i] == Show(dList[i])
  {
    seq(|dList|, i requires 0 <= i < |dList| => Show(dList[i]))
  }

  /** The string right-hand sides _createNewP keeps of rhss, in list
      order. */
  function KeptRhss(rhss: seq<seq<TR>>, T: set<TR>): seq<seq<string>>
  {
    if rhss == [] then []
    else KeptRhss(rhss[..|rhss| - 1], T) + (if Accepts(Last(rhss), T) then [ShowAll(Last(rhss))] else [])
  }

  /** A string right-hand side is kept exactly when it prints a right-hand
      side of the list whose non-terminals are all marked. */
  lemma {:induction false} KeptRhssMembership(rhss: seq<seq<TR>>, T: set<TR>, rhs: seq<string>)
    ensures rhs in KeptRhss(rhss, T) <==> exists dList :: dList in rhss && Accepts(dList, T) && rhs == ShowAll(dList)
  {
    if rhss != [] {
      var init := rhss[..|rhss| - 1];
      assert rhss == init + [Last(rhss)];
      KeptRhssMembership(init, T, rhs);
    }
  }

  /** The dictionary _createNewP returns: one key per printed marked
      left-hand side; when two marked left-hand sides print alike, the list is
      that of one of them. */
  ghost predicate NewPOf(P: Productions, T: set<TR>, PP: Grammar.Rules)
  {
    PP.Keys == (set k | k in P && k in T :: Show(k)) &&
    forall name :: name in PP ==> exists k :: k in P && k in T && Show(k) == name && PP[name] == KeptRhss(P[k], T)
  }

  /** When no two marked left-hand sides print alike, each keeps its own
      list under its printed name. */
  lemma NewPInjective(P: Productions, T: set<TR>, PP: Grammar.Rules, k: TR)
    requires NewPOf(P, T, PP) && k in P && k in T
    requires forall k1, k2 :: k1 in P && k2 in P && k1 in T && k2 in T && Show(k1) == Show(k2) ==> k1 == k2
    ensures Show(k) in PP && PP[Show(k)] == KeptRhss(P[k], T)
  {
    assert Show(k) in PP;
  }

  /** The loop over one list of right-hand sides in _createNewP. */
  method KeepRhss(rhss: seq<seq<TR>>, tKeys: set<TR>) returns (kept: seq<seq<string>>)
    ensures kept == KeptRhss(rhss, tKeys)
  {
    kept := [];
    var x := 0;
    while x < |rhss|
      invariant 0 <= x <= |rhss|
      invariant kept == KeptRhss(rhss[..x], tKeys)
    {
      var dList := rhss[x];
      var accept := true;
      var i := 0;
      while i < |dList|
        invariant 0 <= i <= |dList|
        invariant accept <==> forall j :: 0 <= j < i && Truthy(dList[j].s) ==> dList[j] in tKeys
      {
        var d := dList[i];
        if d.s.Some? && d.s.value != "" && d !in tKeys {
          accept := false;
        }
        i := i + 1;
      }
      assert rhss[..x + 1][..x] == rhss[..x] && Last(rhss[..x + 1]) == dList;
      if accept {
        var tmpList := [];
        var j := 0;
        while j < |dList|
          invariant 0 <= j <= |dList|
          invariant tmpList == ShowAll(dList[..j])
        {
          tmpList := tmpList + [Show(dList[j])];
          j := j + 1;
        }
        assert dList[..j] == dList;
        kept := kept + [tmpList];
      }
      x := x + 1;
    }
    assert rhss[..x] == rhss;
  }

  /** NPDA._createNewP(P, tKeys): the marked left-hand sides and their kept
      right-hand sides, all printed with str. */
  method CreateNewP(P: Productions, tKeys: set<TR>) returns (PP: Grammar.Rules)
    ensures NewPOf(P, tKeys, PP)
  {
    PP := map[];
    var rest := P.Keys;
    ghost var done: set<TR> := {};
    while rest != {}
      invariant done + rest == P.Keys && done !! rest
      invariant PP.Keys == (set k | k in done && k in tKeys :: Show(k))
      invariant forall name :: name in PP ==>
                  exists k :: k in done && k in tKeys && Show(k) == name && PP[name] == KeptRhss(P[k], tKeys)
      decreases |rest|
    {
      var kk :| kk in rest;
      if kk in tKeys {
        var k := Show(kk);
        var kept := KeepRhss(P[kk], tKeys);
        PP := PP[k := kept];
      }
      done, rest := done + {kk}, rest - {kk};
    }
  }

  /** NPDA.toCfg(): builds the triple rules (kept as temporaryP), marks the
      left-hand sides that reach a terminal string (removing every
      occurrence of a marked symbol, see RemoveMarkedAll) and returns the CFG
      of the printed marked rules with start symbol "S". */
  method ToCfg(m: Npda) returns (g: Grammar.Cfg, temporaryP: Productions, tKeys: set<TR>, ghost order: seq<TR>)
    ensures forall x :: x in temporaryP <==> KeyOf(m, x)
    ensures forall x, rhs :: Has(temporaryP, x, rhs) <==> RuleOf(m, x, rhs)
    ensures Closed(Intended, temporaryP, Start, tKeys) && Justified(Intended, temporaryP, Start, order) && Elems(order) == tKeys
    ensures NewPOf(temporaryP, tKeys, g.P) && g.S == "S"
    ensures g.alphabet == Grammar.TerminalsOf(g.P) && g.N == Grammar.NonterminalsOf(g.P)
  {
    var qs := Enumerate(m.states);
    var P: Productions := map[];
    var S := Start;
    P := P[S := []];
    var i := 0;
    InitialRhssSnoc(m.q0, m.Z0, [], "");
    assert qs[..0] == [];
    while i < |qs|
      invariant 0 <= i <= |qs|
      invariant P == map[S := InitialRhss(m.q0, m.Z0, qs[..i])]
    {
      InitialRhssSnoc(m.q0, m.Z0, qs[..i], qs[i]);
      assert qs[..i + 1] == qs[..i] + [qs[i]];
      P := P[S := P[S] + [[Triple(m.q0, m.Z0, qs[i])]]];
      i := i + 1;
    }
    assert qs[..i] == qs;
    var ks := Enumerate(m.delta.Keys);
    assert forall i :: 0 <= i < |ks| ==> ks[i] in Elems(ks);
    i := 0;
    while i < |ks|
      invariant 0 <= i <= |ks|
      invariant P == BuiltRules(m, qs, ks[..i])
    {
      var k := ks[i];
      assert ks[..i + 1][..i] == ks[..i] && Last(ks[..i + 1]) == k;
      P := AddMoves(P, k, m.delta[k], qs);
      i := i + 1;
    }
    assert ks[..i] == ks;
    temporaryP := P;
    forall x ensures x in P <==> KeyOf(m, x) {
      BuiltRulesMembership(m, qs, ks, x, []);
    }
    forall x, rhs ensures Has(P, x, rhs) <==> RuleOf(m, x, rhs) {
      BuiltRulesMembership(m, qs, ks, x, rhs);
    }
    tKeys, order := RemoveUnterminated(P, S, Intended);
    var PP := CreateNewP(P, tKeys);
    assert Show(S) == "S";
    g := Grammar.NewCfg(PP, Show(S));
  }

  /** toCfg's loop over the outcomes of key k. */
  method AddMoves(P: Productions, k: Key, outs: seq<Move>, qs: seq<string>) returns (P': Productions)
    ensures P' == MovesRules(P, k, outs, qs)
  {
    P' := P;
    var j := 0;
    assert outs[..0] == [];
    while j < |outs|
      invariant 0 <= j <= |outs|
      invariant P' == MovesRules(P, k, outs[..j], qs)
    {
      var v := outs[j];
      assert outs[..j + 1][..j] == outs[..j] && Last(outs[..j + 1]) == v;
      P' := AddMove(P', k, v, qs);
      j := j + 1;
    }
    assert outs[..j] == outs;
  }

  /** The body of toCfg's loop over the outcomes of key k, for outcome v. */
  method AddMove(P: Productions, k: Key, v: Move, qs: seq<string>) returns (P': Productions)
    ensures P' == MoveRules(P, k, v, qs)
  {
    var q, a, A := k.state, k.input, k.top;
    var q1, pushList := v.next, v.push;
    if |pushList| == 0 {
      var key := Triple(q, A, q1);
      P' := P;
      if key !in P' {
        P' := P'[key := []];
      }
      P' := P'[key := P'[key] + [[Term(a)]]];
    } else {
      P' := P;
      var l := 0;
      while l < |qs|
        invariant 0 <= l <= |qs|
        invariant P' == LastStateRules(P, k, v, qs, qs[..l])
      {
        var qLast := qs[l];
        assert qs[..l + 1][..l] == qs[..l] && Last(qs[..l + 1]) == qLast;
        var key := Triple(q, A, qLast);
        if key !in P' {
          P' := P'[key := []];
        }
        var list := Push2N([Term(a)], P'[key], q1, qLast, pushList, qs);
        P' := P'[key := list];
        l := l + 1;
      }
      assert qs[..l] == qs;
    }
  }

  /** One state q, start symbol Z, moves (q, a, Z) -> (q, [A, A]) and
      (q, a, A) -> (q, []), no accepting states. */
  function RepeatedSymbolPda(): Npda
  {
    Npda("q", map[Key("q", "a", "Z") := [Move("q", ["A", "A"])], Key("q", "a", "A") := [Move("q", [])]],
         {}, "Z", {"q"}, {"a"}, {"Z", "A"})
  }

  /** The rules toCfg builds for RepeatedSymbolPda, keys visited in table
      order: the ones whose start rule RepeatedSymbolDropped shows lost by
      the removal as written and RepeatedSymbolKept shows kept by the
      intended one. */
  lemma RepeatedSymbolBuilt()
    ensures BuiltRules(RepeatedSymbolPda(), ["q"], [Key("q", "a", "Z"), Key("q", "a", "A")]) == RepeatedSymbolRules()
  {
    var m := RepeatedSymbolPda();
    var kZ, kA := Key("q", "a", "Z"), Key("q", "a", "A");
    var mZ, mA := Move("q", ["A", "A"]), Move("q", []);
    var Y := Triple("q", "A", "q");
    var qs := ["q"];
    var push: seq<string> := ["A", "A"];
    assert push[0] == "A" && push[1..] == ["A"] && ["A"][0] == "A";
    assert [Term("a")] + [Y] == [Term("a"), Y] && [Term("a"), Y] + [Y] == [Term("a"), Y, Y];
    assert ChainsFrom([Term("a"), Y], "q", "q", ["A"], qs) == [[Term("a"), Y, Y]];
    assert qs[..0] == [] && Last(qs) == "q";
    assert ChainsVia([Term("a")], "q", "q", push, qs, qs) == [] + [[Term("a"), Y, Y]];
    var chains := ChainsFrom([Term("a")], "q", "q", push, qs);
    assert chains == [[Term("a"), Y, Y]];
    var P0 := map[Start := InitialRhss("q", "Z", qs)];
    assert InitialRhss("q", "Z", qs) == [[Triple("q", "Z", "q")]];
    var P1 := LastStateRules(P0, kZ, mZ, qs, qs);
    assert P1 == AddRhss(LastStateRules(P0, kZ, mZ, qs, []), Triple("q", "Z", "q"), chains);
    assert P1 == P0[Triple("q", "Z", "q") := chains];
    var ks := [kZ, kA];
    assert ks[..1] == [kZ] && [kZ][..0] == [] && [mZ][..0] == [] && [mA][..0] == [];
    assert MovesRules(P0, kZ, [mZ], qs) == P1;
    assert TableRules(P0, m.delta, [kZ], qs) == P1;
    var P2 := MoveRules(P1, kA, mA, qs);
    assert Y != Start && Y != Triple("q", "Z", "q");
    assert Y !in P1 && mA.push == [];
    var empty: seq<seq<TR>> := [];
    assert empty + [[Term("a")]] == [[Term("a")]];
    assert P2 == AddRhss(P1, Y, [[Term("a")]]);
    assert P2 == P1[Y := [[Term("a")]]];
    assert MovesRules(P1, kA, [mA], qs) == P2;
    assert TableRules(P0, m.delta, ks, qs) == P2;
  }

  /** The move (q, a, Z) -> (q, [A, A]) of RepeatedSymbolPda on aaa. */
  lemma RepeatedSymbolStepZ()
    ensures Step(RepeatedSymbolPda().delta, Config("q", "aaa", ["Z"]), Config("q", "aa", ["A", "A"]))
  {
    var m, c := RepeatedSymbolPda(), Config("q", "aaa", ["Z"]);
    assert "aaa"[..1] == "a" && "aaa"[1..] == "aa";
    assert KeyAt(c) == Key("q", "a", "Z");
    assert Reverse(["A", "A"]) == ["A", "A"] by {
      assert ["A", "A"][1..] == ["A"] && ["A"][1..] == [];
    }
    assert Successor(c, m.delta[KeyAt(c)][0]) == Config("q", "aa", ["A", "A"]);
  }

  /** The move (q, a, A) -> (q, []) of RepeatedSymbolPda on aa. */
  lemma RepeatedSymbolStepA1()
    ensures Step(RepeatedSymbolPda().delta, Config("q", "aa", ["A", "A"]), Config("q", "a", ["A"]))
  {
    var m, c := RepeatedSymbolPda(), Config("q", "aa", ["A", "A"]);
    assert "aa"[..1] == "a" && "aa"[1..] == "a";
    assert KeyAt(c) == Key("q", "a", "A");
    assert ["A", "A"][..1] == ["A"];
    assert Successor(c, m.delta[KeyAt(c)][0]) == Config("q", "a", ["A"]);
  }

  /** The same move on the last a. */
  lemma RepeatedSymbolStepA2()
    ensures Step(RepeatedSymbolPda().delta, Config("q", "a", ["A"]), Config("q", "", []))
  {
    var m, c := RepeatedSymbolPda(), Config("q", "a", ["A"]);
    assert "a"[..1] == "a" && "a"[1..] == "";
    assert KeyAt(c) == Key("q", "a", "A");
    assert Successor(c, m.delta[KeyAt(c)][0]) == Config("q", "", []);
  }

  /** Three moves in a row make a computation. */
  lemma ThreeSteps(delta: NTable, c0: Config, c1: Config, c2: Config, c3: Config)
    requires Step(delta, c0, c1) && Step(delta, c1, c2) && Step(delta, c2, c3)
    ensures IsPath(delta, [c0, c1, c2, c3])
  {
    var p := [c0, c1, c2, c3];
    forall i | 0 <= i < |p| - 1 ensures Step(delta, p[i], p[i + 1]) {
      if i == 0 {
        assert p[i] == c0 && p[i + 1] == c1;
      } else if i == 1 {
        assert p[i] == c1 && p[i + 1] == c2;
      } else {
        assert p[i] == c2 && p[i + 1] == c3;
      }
    }
  }

  /** With what the loop as written marks on RepeatedSymbolRules,
      _createNewP keeps no rule for "S": its one rule S -> [q Z q] names the
      unmarked [q Z q], so the grammar derives nothing. */
  lemma RepeatedSymbolStartDropped(PP: Grammar.Rules)
    requires NewPOf(RepeatedSymbolRules(), {Start, Triple("q", "A", "q")}, PP)
    ensures "S" in PP && PP["S"] == []
  {
    var P, T, X := RepeatedSymbolRules(), {Start, Triple("q", "A", "q")}, Triple("q", "Z", "q");
    assert Show(Start) == "S" && Start in P;
    var k :| k in P && k in T && Show(k) == "S" && PP["S"] == KeptRhss(P[k], T);
    assert Show(Triple("q", "A", "q")) == "[qAq]";
    assert k == Start && P[k] == [[X]];
    assert X !in T && [X][0] == X && Truthy(X.s);
    assert !Accepts([X], T);
    assert [[X]][..0] == [] && Last([[X]]) == [X];
    assert KeptRhss([[X]], T) == KeptRhss([], T) + [];
  }

  /** The second half of toCfg as written, on the rules it builds for
      RepeatedSymbolPda: the loop marks S and [q A q] only, and the rules
      _createNewP returns give "S" nothing. */
  method RepeatedSymbolAsWritten() returns (tKeys: set<TR>, PP: Grammar.Rules)
    ensures tKeys == {Start, Triple("q", "A", "q")}
    ensures "S" in PP && PP["S"] == []
  {
    ghost var order;
    tKeys, order := RemoveUnterminated(RepeatedSymbolRules(), Start, AsWritten);
    RepeatedSymbolDropped(tKeys, order);
    PP := CreateNewP(RepeatedSymbolRules(), tKeys);
    RepeatedSymbolStartDropped(PP);
  }

  /** RepeatedSymbolPda accepts aaa by emptying its stack. */
  lemma RepeatedSymbolAccepted() returns (p: seq<Config>)
    ensures IsPath(RepeatedSymbolPda().delta, p) && p[0] == Initial("q", "Z", "aaa") && Emptied(Last(p))
  {
    RepeatedSymbolStepZ();
    RepeatedSymbolStepA1();
    RepeatedSymbolStepA2();
    p := [Config("q", "aaa", ["Z"]), Config("q", "aa", ["A", "A"]), Config("q", "a", ["A"]), Config("q", "", [])];
    ThreeSteps(RepeatedSymbolPda().delta, p[0], p[1], p[2], p[3]);
  }
}
