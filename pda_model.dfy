/** The data shared by the DPDA and NPDA classes of pda.py and pdaClass.py:
    transition keys and outcomes, the automata themselves with the sets their
    constructors derive from the transition table, and the effect of pushing
    an outcome's symbols on a stack whose top is the last element. */
module PdaModel {
  import opened Util

  /** A transition key (q, a, g): state, input symbol, stack top.
      An empty input symbol marks an ε-move. */
  datatype Key = Key(state: string, input: string, top: string)

  /** A transition outcome (p, Z): the next state and the symbols to push,
      Z[0] ending on top. */
  datatype Move = Move(next: string, push: seq<string>)

  /** DPDA's table: one outcome per key. */
  type DTable = map<Key, Move>

  /** NPDA's table: a list of outcomes per key, explored in list order. */
  type NTable = map<Key, seq<Move>>

  /** A DPDA after its constructor ran: the four arguments and the three
      derived sets. */
  datatype Dpda = Dpda(q0: string, delta: DTable, F: set<string>, Z0: string,
                       states: set<string>, alphabet: set<string>, stackAlphabet: set<string>)

  datatype Npda = Npda(q0: string, delta: NTable, F: set<string>, Z0: string,
                       states: set<string>, alphabet: set<string>, stackAlphabet: set<string>)

  /** A DPDA table read as an NPDA table with a single outcome per key. */
  function Lift(delta: DTable): (n: NTable)
    ensures n.Keys == delta.Keys
    ensures forall k :: k in n ==> n[k] == [delta[k]]
  {
    map k | k in delta :: [delta[k]]
  }

  // The derived sets of an NPDA table, over the keys in `ks`.

  /** The sources of the keys and the targets of their outcomes. */
  function StatesOn(delta: NTable, ks: set<Key>): set<string>
    requires ks <= delta.Keys
  {
    (set k | k in ks :: k.state) + (set k, mv | k in ks && mv in delta[k] :: mv.next)
  }

  /** The non-empty input symbols of the keys: "" is never a letter. */
  function AlphabetOn(ks: set<Key>): set<string>
  {
    set k | k in ks && |k.input| > 0 :: k.input
  }

  /** The stack tops of the keys and every symbol an outcome pushes. */
  function StackAlphabetOn(delta: NTable, ks: set<Key>): set<string>
    requires ks <= delta.Keys
  {
    (set k | k in ks :: k.top) + (set k, mv, z | k in ks && mv in delta[k] && z in mv.push :: z)
  }

  function StatesOf(delta: NTable): set<string> { StatesOn(delta, delta.Keys) }
  function AlphabetOf(delta: NTable): set<string> { AlphabetOn(delta.Keys) }
  function StackAlphabetOf(delta: NTable): set<string> { StackAlphabetOn(delta, delta.Keys) }

  /** What one key adds to the three sets. */
  lemma DerivedSetsGrow(delta: NTable, ks: set<Key>, k: Key)
    requires ks <= delta.Keys && k in delta
    ensures StatesOn(delta, ks + {k}) == StatesOn(delta, ks) + {k.state} + (set mv | mv in delta[k] :: mv.next)
    ensures AlphabetOn(ks + {k}) == AlphabetOn(ks) + (if |k.input| > 0 then {k.input} else {})
    ensures StackAlphabetOn(delta, ks + {k}) == StackAlphabetOn(delta, ks) + {k.top}
              + (set mv, z | mv in delta[k] && z in mv.push :: z)
  {
  }

  /** The constructor's loop adding each symbol of l to the stack alphabet. */
  method AddSymbols(l: seq<string>, stackAlphabet: set<string>) returns (stackAlphabet': set<string>)
    ensures stackAlphabet' == stackAlphabet + Elems(l)
  {
    stackAlphabet' := stackAlphabet;
    var x := 0;
    while x < |l|
      invariant 0 <= x <= |l|
      invariant stackAlphabet' == stackAlphabet + Elems(l[..x])
    {
      ElemsSnoc(l, x);
      stackAlphabet' := stackAlphabet' + {l[x]};
      x := x + 1;
    }
    assert l[..x] == l;
  }

  /** One outcome more adds its target and its pushed symbols. */
  lemma PushedSnoc(outs: seq<Move>, j: nat)
    requires j < |outs|
    ensures (set mv | mv in outs[..j + 1] :: mv.next) == (set mv | mv in outs[..j] :: mv.next) + {outs[j].next}
    ensures (set mv, z | mv in outs[..j + 1] && z in mv.push :: z)
            == (set mv, z | mv in outs[..j] && z in mv.push :: z) + Elems(outs[j].push)
  {
    assert outs[..j + 1] == outs[..j] + [outs[j]];
  }

  /** The constructor's scan of one outcome list: the target of each outcome
      joins the states, each pushed symbol the stack alphabet. */
  method ScanOutcomes(outs: seq<Move>, states: set<string>, stackAlphabet: set<string>)
    returns (states': set<string>, stackAlphabet': set<string>)
    ensures states' == states + (set mv | mv in outs :: mv.next)
    ensures stackAlphabet' == stackAlphabet + (set mv, z | mv in outs && z in mv.push :: z)
  {
    states', stackAlphabet' := states, stackAlphabet;
    var j := 0;
    while j < |outs|
      invariant 0 <= j <= |outs|
      invariant states' == states + (set mv | mv in outs[..j] :: mv.next)
      invariant stackAlphabet' == stackAlphabet + (set mv, z | mv in outs[..j] && z in mv.push :: z)
    {
      var entry := outs[j];
      states' := states' + {entry.next};
      var l := entry.push;
      if |l| > 0 {
        stackAlphabet' := AddSymbols(l, stackAlphabet');
      }
      PushedSnoc(outs, j);
      assert outs[..j + 1] == outs[..j] + [entry];
      j := j + 1;
    }
    assert outs[..j] == outs;
  }

  /** The three sets hold what the keys in `done` contribute. */
  predicate SetsOn(delta: NTable, done: set<Key>, states: set<string>, alphabet: set<string>, stackAlphabet: set<string>)
    requires done <= delta.Keys
  {
    states == StatesOn(delta, done) && alphabet == AlphabetOn(done) && stackAlphabet == StackAlphabetOn(delta, done)
  }

  /** The constructor's scan of one key f, given the sets built from the keys
      in `done`. */
  method ScanKey(delta: NTable, f: Key, ghost done: set<Key>,
                 states: set<string>, alphabet: set<string>, stackAlphabet: set<string>)
    returns (states': set<string>, alphabet': set<string>, stackAlphabet': set<string>)
    requires done <= delta.Keys && f in delta
    requires SetsOn(delta, done, states, alphabet, stackAlphabet)
    ensures SetsOn(delta, done + {f}, states', alphabet', stackAlphabet')
  {
    DerivedSetsGrow(delta, done, f);
    states', alphabet', stackAlphabet' := states + {f.state}, alphabet, stackAlphabet + {f.top};
    if |f.input| > 0 {
      alphabet' := alphabet' + {f.input};
    }
    states', stackAlphabet' := ScanOutcomes(delta[f], states', stackAlphabet');
  }

  /** The scan shared by both constructors: every key contributes its state,
      its non-empty input symbol and its stack top, every outcome its target
      state and its pushed symbols. Keys are visited in an order the model
      leaves open; the sets do not depend on it. */
  method DeriveSets(delta: NTable) returns (states: set<string>, alphabet: set<string>, stackAlphabet: set<string>)
    ensures states == StatesOf(delta)
    ensures alphabet == AlphabetOf(delta)
    ensures stackAlphabet == StackAlphabetOf(delta)
  {
    states, alphabet, stackAlphabet := {}, {}, {};
    var rest := delta.Keys;
    ghost var done: set<Key> := {};
    while rest != {}
      invariant done + rest == delta.Keys && done !! rest
      invariant SetsOn(delta, done, states, alphabet, stackAlphabet)
      decreases |rest|
    {
      var f :| f in rest;
      states, alphabet, stackAlphabet := ScanKey(delta, f, done, states, alphabet, stackAlphabet);
      done, rest := done + {f}, rest - {f};
    }
  }

  /** DPDA.__init__: stores the arguments and derives the states, input
      alphabet and stack alphabet from the table alone, so q_0 and Z_0 are in
      them only when delta mentions them. */
  method NewDpda(q0: string, delta: DTable, F: set<string>, Z0: string) returns (m: Dpda)
    ensures m.q0 == q0 && m.delta == delta && m.F == F && m.Z0 == Z0
    ensures m.states == StatesOf(Lift(delta))
    ensures m.alphabet == AlphabetOf(Lift(delta))
    ensures m.stackAlphabet == StackAlphabetOf(Lift(delta))
  {
    var states, alphabet, stackAlphabet := DeriveSets(Lift(delta));
    m := Dpda(q0, delta, F, Z0, states, alphabet, stackAlphabet);
  }

  /** NPDA.__init__, the same scan over every outcome of every key. */
  method NewNpda(q0: string, delta: NTable, F: set<string>, Z0: string) returns (m: Npda)
    ensures m.q0 == q0 && m.delta == delta && m.F == F && m.Z0 == Z0
    ensures m.states == StatesOf(delta)
    ensures m.alphabet == AlphabetOf(delta)
    ensures m.stackAlphabet == StackAlphabetOf(delta)
  {
    var states, alphabet, stackAlphabet := DeriveSets(delta);
    m := Npda(q0, delta, F, Z0, states, alphabet, stackAlphabet);
  }

  /** A state is derived exactly when some key starts in it or some outcome
      goes to it. */
  lemma StatesOfMembership(delta: NTable, q: string)
    ensures q in StatesOf(delta) <==>
              (exists k :: k in delta && k.state == q) ||
              (exists k, j :: k in delta && 0 <= j < |delta[k]| && delta[k][j].next == q)
  {
    if q in StatesOf(delta) && !(exists k :: k in delta && k.state == q) {
      var k, mv :| k in delta && mv in delta[k] && mv.next == q;
      var j :| 0 <= j < |delta[k]| && delta[k][j] == mv;
    }
  }

  /** The stack after pushing Z onto s, the top being the last element: Z[0]
      ends on top, Z[|Z|-1] right above the old top, nothing below moves. */
  function PushAll(s: seq<string>, Z: seq<string>): (r: seq<string>)
    ensures |r| == |s| + |Z| && r[..|s|] == s
    ensures forall i :: 0 <= i < |Z| ==> r[|r| - 1 - i] == Z[i]
  {
    s + Reverse(Z)
  }

  /** Pushing Z then W is pushing W ++ Z. */
  lemma PushAllTwice(s: seq<string>, Z: seq<string>, W: seq<string>)
    ensures PushAll(PushAll(s, Z), W) == PushAll(s, W + Z)
  {
    ReverseAppend(W, Z);
  }
}
