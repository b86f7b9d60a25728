/** cfg.py: a context-free grammar in Greibach normal form, the terminal and
    non-terminal sets its constructor derives, and the conversion toPda to
    an NPDA with one state that accepts on empty stack. */
module Grammar {
  import opened Util
  import opened PdaModel
  import opened PdaRun

  /** Production rules: for each left-hand side, its right-hand sides in
      order; a right-hand side is a list of symbols. */
  type Rules = map<string, seq<seq<string>>>

  /** A CFG after its constructor ran: P, S and the two derived sets. */
  datatype Cfg = Cfg(P: Rules, S: string, alphabet: set<string>, N: set<string>)

  // ----- _getAlphabet -----

  /** The symbol of every one-symbol right-hand side, for the left-hand
      sides in ks. */
  function TerminalsOn(P: Rules, ks: set<string>): set<string>
    requires ks <= P.Keys
  {
    set k, e | k in ks && e in P[k] && |e| == 1 :: e[0]
  }

  /** Every symbol after the first of a longer right-hand side. */
  function NonterminalsOn(P: Rules, ks: set<string>): set<string>
    requires ks <= P.Keys
  {
    set k, e, i | k in ks && e in P[k] && 1 <= i < |e| :: e[i]
  }

  function TerminalsOf(P: Rules): set<string> { TerminalsOn(P, P.Keys) }
  function NonterminalsOf(P: Rules): set<string> { NonterminalsOn(P, P.Keys) }

  predicate SymbolsOn(P: Rules, ks: set<string>, alphabet: set<string>, N: set<string>)
    requires ks <= P.Keys
  {
    alphabet == TerminalsOn(P, ks) && N == NonterminalsOn(P, ks)
  }

  /** What one left-hand side adds to the two sets. */
  lemma SymbolsGrow(P: Rules, ks: set<string>, k: string)
    requires ks <= P.Keys && k in P
    ensures TerminalsOn(P, ks + {k}) == TerminalsOn(P, ks) + (set e | e in P[k] && |e| == 1 :: e[0])
    ensures NonterminalsOn(P, ks + {k}) == NonterminalsOn(P, ks) + (set e, i | e in P[k] && 1 <= i < |e| :: e[i])
  {
  }

  /** The scan of one left-hand side's right-hand sides. */
  method ScanRules(rules: seq<seq<string>>, alphabet: set<string>, N: set<string>)
    returns (alphabet': set<string>, N': set<string>)
    ensures alphabet' == alphabet + (set e | e in rules && |e| == 1 :: e[0])
    ensures N' == N + (set e, i | e in rules && 1 <= i < |e| :: e[i])
  {
    alphabet', N' := alphabet, N;
    var j := 0;
    while j < |rules|
      invariant 0 <= j <= |rules|
      invariant alphabet' == alphabet + (set e | e in rules[..j] && |e| == 1 :: e[0])
      invariant N' == N + (set e, i | e in rules[..j] && 1 <= i < |e| :: e[i])
    {
      var entry := rules[j];
      if |entry| == 1 {
        alphabet' := alphabet' + {entry[0]};
      } else if |entry| > 1 {
        var x := 1;
        while x < |entry|
          invariant 1 <= x <= |entry|
          invariant N' == N + (set e, i | e in rules[..j] && 1 <= i < |e| :: e[i]) + (set i | 1 <= i < x :: entry[i])
        {
          N' := N' + {entry[x]};
          x := x + 1;
        }
      }
      assert rules[..j + 1] == rules[..j] + [entry];
      j := j + 1;
    }
    assert rules[..j] == rules;
  }

  /** CFG._getAlphabet: the one-symbol right-hand sides give the alphabet,
      the symbols after the first of longer ones give N. */
  method GetAlphabet(P: Rules) returns (alphabet: set<string>, N: set<string>)
    ensures alphabet == TerminalsOf(P) && N == NonterminalsOf(P)
  {
    alphabet, N := {}, {};
    var rest := P.Keys;
    ghost var done: set<string> := {};
    while rest != {}
      invariant done + rest == P.Keys && done !! rest
      invariant SymbolsOn(P, done, alphabet, N)
      decreases |rest|
    {
      var k :| k in rest;
      SymbolsGrow(P, done, k);
      alphabet, N := ScanRules(P[k], alphabet, N);
      done, rest := done + {k}, rest - {k};
    }
  }

  /** CFG(P, S). */
  method NewCfg(P: Rules, S: string) returns (g: Cfg)
    ensures g.P == P && g.S == S
    ensures g.alphabet == TerminalsOf(P) && g.N == NonterminalsOf(P)
  {
    var alphabet, N := GetAlphabet(P);
    g := Cfg(P, S, alphabet, N);
  }

  /** A terminal is in the alphabet exactly when it is a whole right-hand
      side of some rule. */
  lemma TerminalsOfMembership(P: Rules, a: string)
    ensures a in TerminalsOf(P) <==> exists k, j :: k in P && 0 <= j < |P[k]| && P[k][j] == [a]
  {
    if a in TerminalsOf(P) {
      var k, e :| k in P && e in P[k] && |e| == 1 && e[0] == a;
      var j :| 0 <= j < |P[k]| && P[k][j] == e;
      assert e == [a];
    }
    if exists k, j :: k in P && 0 <= j < |P[k]| && P[k][j] == [a] {
      var k, j :| k in P && 0 <= j < |P[k]| && P[k][j] == [a];
      assert P[k][j] in P[k];
    }
  }

  // ----- toPda -----

  /** The outcomes toPda lists for input symbol a and stack top k: one per
      right-hand side of k that starts with a, in the rules' order, pushing
      the rest of that right-hand side. */
  function ProdMoves(rules: seq<seq<string>>, a: string): seq<Move>
  {
    if rules == [] then []
    else
      var e := Last(rules);
      ProdMoves(rules[..|rules| - 1], a) + (if e != [] && e[0] == a then [Move("q", e[1..])] else [])
  }

  lemma {:induction false} ProdMovesMembership(rules: seq<seq<string>>, a: string, mv: Move)
    ensures mv in ProdMoves(rules, a) <==> exists e :: e in rules && e != [] && e[0] == a && mv == Move("q", e[1..])
  {
    if rules != [] {
      var init := rules[..|rules| - 1];
      ProdMovesMembership(init, a, mv);
      assert rules == init + [Last(rules)];
      if exists e :: e in rules && e != [] && e[0] == a && mv == Move("q", e[1..]) {
        var e :| e in rules && e != [] && e[0] == a && mv == Move("q", e[1..]);
        if e != Last(rules) {
          assert e in init;
        }
      }
    }
  }

  /** The keys toPda creates from the left-hand sides in ks. */
  function GnfKeysOn(P: Rules, ks: set<string>): set<Key>
    requires ks <= P.Keys
  {
    set k, e | k in ks && e in P[k] && e != [] :: Key("q", e[0], k)
  }

  function GnfDeltaOn(P: Rules, ks: set<string>): NTable
    requires ks <= P.Keys
  {
    map key | key in GnfKeysOn(P, ks) :: ProdMoves(P[key.top], key.input)
  }

  /** The table toPda builds. */
  function GnfDelta(P: Rules): NTable
  {
    GnfDeltaOn(P, P.Keys)
  }

  /** The part of the table built from the first right-hand sides of k. */
  function RowOn(k: string, rules: seq<seq<string>>): NTable
  {
    map key | key in (set e | e in rules && e != [] :: Key("q", e[0], k)) :: ProdMoves(rules, key.input)
  }

  /** Some right-hand side in the rules of ks is empty. */
  predicate HasEmptyRhsOn(P: Rules, ks: set<string>)
    requires ks <= P.Keys
  {
    exists k :: k in ks && [] in P[k]
  }

  predicate HasEmptyRhs(P: Rules) { HasEmptyRhsOn(P, P.Keys) }

  /** One more right-hand side of k. */
  lemma RowStep(k: string, rules: seq<seq<string>>, j: nat)
    requires j < |rules| && rules[j] != []
    ensures var row := RowOn(k, rules[..j]);
            var key := Key("q", rules[j][0], k);
            RowOn(k, rules[..j + 1]) == row[key := (if key in row then row[key] else []) + [Move("q", rules[j][1..])]]
  {
    var row := RowOn(k, rules[..j]);
    var key := Key("q", rules[j][0], k);
    var pre, post := rules[..j], rules[..j + 1];
    assert post[..j] == pre && Last(post) == rules[j];
    var lhs := RowOn(k, post);
    var rhs := row[key := (if key in row then row[key] else []) + [Move("q", rules[j][1..])]];
    assert rules[j] in post;
    assert lhs.Keys == rhs.Keys by {
      forall kk | kk in lhs ensures kk in rhs {
        var e :| e in post && e != [] && kk == Key("q", e[0], k);
        if e != rules[j] {
          assert e in pre;
        }
      }
    }
    forall kk | kk in lhs ensures lhs[kk] == rhs[kk] {
      if kk != key && kk in row {
        assert lhs[kk] == ProdMoves(pre, kk.input) + [];
      } else if kk == key && key !in row {
        assert ProdMoves(pre, key.input) == [] by {
          if ProdMoves(pre, key.input) != [] {
            ProdMovesMembership(pre, key.input, ProdMoves(pre, key.input)[0]);
          }
        }
      }
    }
  }

  /** The whole of k's rules added to the table built from ks. */
  lemma DeltaGrow(P: Rules, ks: set<string>, k: string)
    requires ks <= P.Keys && k in P && k !in ks
    ensures GnfDeltaOn(P, ks + {k}) == GnfDeltaOn(P, ks) + RowOn(k, P[k])
    ensures forall key :: key in RowOn(k, P[k]) ==> key !in GnfDeltaOn(P, ks)
  {
    var lhs, rhs := GnfDeltaOn(P, ks + {k}), GnfDeltaOn(P, ks) + RowOn(k, P[k]);
    assert lhs.Keys == rhs.Keys;
    forall key | key in lhs ensures lhs[key] == rhs[key] {
    }
  }

  /** Adding outcome mv to the list of key, creating the list first when
      the key is new. */
  method AppendOutcome(delta: NTable, key: Key, mv: Move) returns (delta': NTable)
    ensures delta' == delta[key := (if key in delta then delta[key] else []) + [mv]]
  {
    delta' := delta;
    if key !in delta' {
      delta' := delta'[key := []];
    }
    delta' := delta'[key := delta'[key] + [mv]];
  }

  /** The body of toPda's inner loop for a non-empty right-hand side
      entry of k: the outcome (q, entry[1..]) under the key (q, entry[0], k),
      where a one-symbol entry pushes nothing. */
  method AddEntry(k: string, entry: seq<string>, delta: NTable) returns (delta': NTable)
    requires entry != []
    ensures var key := Key("q", entry[0], k);
            delta' == delta[key := (if key in delta then delta[key] else []) + [Move("q", entry[1..])]]
  {
    var q := "q";
    var key := Key(q, entry[0], k);
    if |entry| == 1 {
      assert entry[1..] == [];
      delta' := AppendOutcome(delta, key, Move(q, []));
    } else {
      delta' := AppendOutcome(delta, key, Move(q, entry[1..]));
    }
  }

  /** Updating a key of a union is updating it in the right operand, which
      wins. */
  lemma UnionUpdate(delta: NTable, row: NTable, key: Key, v: seq<Move>)
    ensures (delta + row)[key := v] == delta + row[key := v]
  {
  }

  /** The table with the first j right-hand sides of k, one further. */
  lemma RowAdd(delta: NTable, k: string, rules: seq<seq<string>>, j: nat, d: NTable)
    requires j < |rules| && rules[j] != []
    requires forall key :: key in delta ==> key.top != k
    requires d == delta + RowOn(k, rules[..j])
    ensures var key, mv := Key("q", rules[j][0], k), Move("q", rules[j][1..]);
            d[key := (if key in d then d[key] else []) + [mv]] == delta + RowOn(k, rules[..j + 1])
  {
    var mv := Move("q", rules[j][1..]);
    var row := RowOn(k, rules[..j]);
    var key := Key("q", rules[j][0], k);
    RowStep(k, rules, j);
    assert key !in delta;
    var before := if key in row then row[key] else [];
    assert (if key in d then d[key] else []) == before;
    UnionUpdate(delta, row, key, before + [mv]);
  }

  /** One right-hand side of k added to the table built from the ones
      before it. */
  method AddRule(k: string, rules: seq<seq<string>>, j: nat, delta: NTable, d: NTable) returns (d': NTable)
    requires j < |rules| && rules[j] != []
    requires forall key :: key in delta ==> key.top != k
    requires d == delta + RowOn(k, rules[..j])
    ensures d' == delta + RowOn(k, rules[..j + 1])
  {
    RowAdd(delta, k, rules, j, d);
    d' := AddEntry(k, rules[j], d);
  }

  /** The inner loop of toPda over the right-hand sides of k, adding to
      `delta`, none of whose keys has top k yet; `ok` is false where
      entry[0] raises IndexError on an empty right-hand side. */
  method AddRow(k: string, rules: seq<seq<string>>, delta: NTable) returns (delta': NTable, ok: bool)
    requires forall key :: key in delta ==> key.top != k
    ensures ok <==> [] !in rules
    ensures ok ==> delta' == delta + RowOn(k, rules)
  {
    delta' := delta;
    var j := 0;
    assert rules[..0] == [];
    assert RowOn(k, []) == map[];
    assert delta + map[] == delta;
    while j < |rules|
      invariant 0 <= j <= |rules|
      invariant forall i :: 0 <= i < j ==> rules[i] != []
      invariant delta' == delta + RowOn(k, rules[..j])
    {
      var entry := rules[j];
      if |entry| == 0 {
        assert entry in rules;
        return delta', false;
      }
      delta' := AddRule(k, rules, j, delta, delta');
      j := j + 1;
    }
    assert rules[..j] == rules;
    ok := true;
  }

  /** Every key of the table built from ks has a left-hand side in ks as its
      stack top and a first symbol of one of its right-hand sides as input. */
  lemma GnfKeysShape(P: Rules, ks: set<string>)
    requires ks <= P.Keys
    ensures forall key :: key in GnfDeltaOn(P, ks) ==>
              key.state == "q" && key.top in ks && exists e :: e in P[key.top] && e != [] && e[0] == key.input
  {
  }

  /** What toPda returns, or the IndexError it raises. */
  datatype PdaOrError = Built(pda: Npda) | IndexError

  /** CFG.toPda: an NPDA with the single state q, accepting on empty stack
      (F is empty), Z_0 = S, and for each right-hand side [a] + rest of A the
      outcome (q, rest) under the key (q, a, A). Raises IndexError exactly
      when some right-hand side is empty. */
  method ToPda(g: Cfg) returns (r: PdaOrError)
    ensures r.IndexError? <==> HasEmptyRhs(g.P)
    ensures r.Built? ==> r.pda.q0 == "q" && r.pda.delta == GnfDelta(g.P) && r.pda.F == {} && r.pda.Z0 == g.S
    ensures r.Built? ==> r.pda.states == StatesOf(GnfDelta(g.P)) && r.pda.alphabet == AlphabetOf(GnfDelta(g.P)) &&
                         r.pda.stackAlphabet == StackAlphabetOf(GnfDelta(g.P))
  {
    var q := "q";
    var delta: NTable := map[];
    var rest := g.P.Keys;
    ghost var done: set<string> := {};
    assert GnfDeltaOn(g.P, {}) == map[];
    while rest != {}
      invariant done + rest == g.P.Keys && done !! rest
      invariant !HasEmptyRhsOn(g.P, done)
      invariant delta == GnfDeltaOn(g.P, done)
      decreases |rest|
    {
      var k :| k in rest;
      GnfKeysShape(g.P, done);
      DeltaGrow(g.P, done, k);
      var ok;
      delta, ok := AddRow(k, g.P[k], delta);
      if !ok {
        return IndexError;
      }
      done, rest := done + {k}, rest - {k};
    }
    var m := NewNpda(q, delta, {}, g.S);
    return Built(m);
  }

  // ----- The language of toPda's NPDA -----

  /** Every right-hand side starts with a one-character terminal: the form
      in which NPDA.read, which compares one input character at a time, can
      follow the grammar. */
  ghost predicate IsGnf(P: Rules)
  {
    forall k, e :: k in P && e in P[k] ==> e != [] && |e[0]| == 1
  }

  /** A leftmost derivation in Greibach normal form: the list of
      non-terminals alpha derives w when both are empty, or when a rule of
      alpha's first symbol starts with w's first character and the rest of
      that rule, followed by the rest of alpha, derives the rest of w. */
  ghost predicate Derives(P: Rules, alpha: seq<string>, w: string)
    decreases |w|
  {
    if w == "" then alpha == []
    else
      alpha != [] && alpha[0] in P &&
      exists e :: e in P[alpha[0]] && e != [] && e[0] == w[..1] && Derives(P, e[1..] + alpha[1..], w[1..])
  }

  /** Under Greibach normal form no key of toPda's table is an ε-key. */
  lemma GnfNoEpsilonKeys(P: Rules)
    requires IsGnf(P)
    ensures forall key :: key in GnfDelta(P) ==> |key.input| == 1 && key.state == "q" && key.top in P
    ensures forall key :: key in GnfDelta(P) ==> GnfDelta(P)[key] == ProdMoves(P[key.top], key.input)
  {
    GnfKeysShape(P, P.Keys);
  }

  /** The stack read top first: its last element, then the rest reversed. */
  lemma ReverseTop(stack: seq<string>)
    requires stack != []
    ensures Reverse(stack) == [Last(stack)] + Reverse(stack[..|stack| - 1])
  {
    assert stack == stack[..|stack| - 1] + [Last(stack)];
    ReverseAppend(stack[..|stack| - 1], [Last(stack)]);
  }

  /** Pushing the rest of a right-hand side puts it, read top first, in
      front of what was below. */
  lemma ReversePushAll(below: seq<string>, rest: seq<string>)
    ensures Reverse(PushAll(below, rest)) == rest + Reverse(below)
  {
    ReverseAppend(below, Reverse(rest));
    ReverseReverse(rest);
  }

  /** Where toPda's NPDA cannot move: from an empty stack, or with the input
      used up (only an ε-key could match, and there is none). */
  lemma GnfStuck(P: Rules, w: string, stack: seq<string>, p: seq<Config>)
    requires IsGnf(P) && (stack == [] || w == "")
    requires IsPath(GnfDelta(P), p) && p[0] == Config("q", w, stack)
    ensures p == [Config("q", w, stack)]
  {
    GnfNoEpsilonKeys(P);
    if |p| > 1 {
      PathTail(GnfDelta(P), p);
    }
  }

  /** A computation of toPda's NPDA from (q, w, stack) that uses up input
      and stack is a leftmost derivation of w from the stack read top
      first. */
  lemma {:induction false} GnfPathDerives(P: Rules, w: string, stack: seq<string>, p: seq<Config>)
    requires IsGnf(P)
    requires IsPath(GnfDelta(P), p) && p[0] == Config("q", w, stack) && Emptied(Last(p))
    ensures Derives(P, Reverse(stack), w)
    decreases |w|
  {
    var delta := GnfDelta(P);
    var c := Config("q", w, stack);
    if stack == [] || w == "" {
      GnfStuck(P, w, stack, p);
    } else {
      GnfNoEpsilonKeys(P);
      var below, X := stack[..|stack| - 1], Last(stack);
      ReverseTop(stack);
      var key := Key("q", w[..1], X);
      assert KeyAt(c) == key;
      PathTail(delta, p);
      var j :| 0 <= j < |delta[key]| && p[1] == Successor(c, delta[key][j]);
      var mv := delta[key][j];
      ProdMovesMembership(P[X], w[..1], mv);
      var e :| e in P[X] && e != [] && e[0] == w[..1] && mv == Move("q", e[1..]);
      var next := PushAll(below, e[1..]);
      assert p[1] == Config("q", w[1..], next);
      GnfPathDerives(P, w[1..], next, p[1..]);
      ReversePushAll(below, e[1..]);
    }
  }

  /** A leftmost derivation of w from the stack read top first is a
      computation of toPda's NPDA that uses up input and stack. */
  lemma {:induction false} DerivesGnfPath(P: Rules, w: string, stack: seq<string>)
    requires IsGnf(P) && Derives(P, Reverse(stack), w)
    ensures exists p :: IsPath(GnfDelta(P), p) && p[0] == Config("q", w, stack) && Emptied(Last(p))
    decreases |w|
  {
    var delta := GnfDelta(P);
    var c := Config("q", w, stack);
    if w == "" {
      assert |stack| == |Reverse(stack)| == 0;
      assert IsPath(delta, [c]) && Emptied(Last([c]));
    } else {
      assert |stack| == |Reverse(stack)| > 0;
      GnfNoEpsilonKeys(P);
      var below, X := stack[..|stack| - 1], Last(stack);
      ReverseTop(stack);
      var key := Key("q", w[..1], X);
      assert KeyAt(c) == key;
      var e :| e in P[X] && e != [] && e[0] == w[..1] && Derives(P, e[1..] + Reverse(below), w[1..]);
      assert key in GnfKeysOn(P, P.Keys);
      var mv := Move("q", e[1..]);
      ProdMovesMembership(P[X], w[..1], mv);
      var j :| 0 <= j < |delta[key]| && delta[key][j] == mv;
      var next := PushAll(below, e[1..]);
      ReversePushAll(below, e[1..]);
      DerivesGnfPath(P, w[1..], next);
      var p' :| IsPath(delta, p') && p'[0] == Config("q", w[1..], next) && Emptied(Last(p'));
      EmptyingPathExtend(delta, c, j, p');
    }
  }

  /** Under Greibach normal form every move reads a character, so a run
      with more fuel than input finishes. */
  lemma {:induction false} GnfRunFinishes(m: Npda, P: Rules, fuel: nat, c: Config, trace: seq<Config>)
    requires IsGnf(P) && m.delta == GnfDelta(P) && fuel > |c.input|
    ensures NRun(m, fuel, c, trace).Some?
    decreases fuel, 0
  {
    GnfNoEpsilonKeys(P);
    if !Emptied(c) && c.stack != [] && KeyAt(c) in m.delta {
      GnfMovesFinish(m, P, fuel - 1, c, m.delta[KeyAt(c)], trace + [c]);
    }
  }

  lemma {:induction false} GnfMovesFinish(m: Npda, P: Rules, fuel: nat, c: Config, moves: seq<Move>, trace: seq<Config>)
    requires IsGnf(P) && m.delta == GnfDelta(P) && c.stack != [] && c.input != "" && fuel >= |c.input|
    ensures NRunMoves(m, fuel, c, moves, trace).Some?
    decreases fuel, |moves| + 1
  {
    if moves != [] {
      GnfMovesFinish(m, P, fuel, c, moves[..|moves| - 1], trace);
      GnfRunFinishes(m, P, fuel, Successor(c, Last(moves)), trace);
    }
  }

  /** The NPDA toPda builds from a grammar in Greibach normal form reads any
      w to the end when the recursion may go |w| + 1 deep, and accepts w
      exactly when S derives it. */
  lemma ToPdaLanguage(g: Cfg, m: Npda, fuel: nat, w: string)
    requires IsGnf(g.P) && m.q0 == "q" && m.delta == GnfDelta(g.P) && m.F == {} && m.Z0 == g.S
    requires fuel > |w|
    ensures NRead(m, fuel, w).Some?
    ensures (exists v :: v in NRead(m, fuel, w).value && v.accepted) <==> Derives(g.P, [g.S], w)
  {
    var c := Initial(m.q0, m.Z0, w);
    GnfRunFinishes(m, g.P, fuel, c, []);
    NRunAccepts(m, fuel, c, []);
    assert Reverse([g.S]) == [g.S];
    if Derives(g.P, [g.S], w) {
      DerivesGnfPath(g.P, w, [g.S]);
    }
    if p :| IsPath(m.delta, p) && p[0] == c && Emptied(Last(p)) {
      GnfPathDerives(g.P, w, [g.S], p);
    }
  }
}
