/** What DPDA.read and NPDA.read compute, stated once over configurations
    whose stack has its top as the last element. Both implementations of
    read (on stack.Stack objects and on Python lists) are proved equal to
    these functions.

    The recursion depth is bounded by `fuel`: a run that would go deeper
    (an ε-loop that keeps the input empty and the stack non-empty) gives
    None, where Python would stop with a RecursionError. */
module PdaRun {
  import opened Util
  import opened PdaModel

  /** The arguments of one _readSub call: state, input left, stack. */
  datatype Config = Config(state: string, input: string, stack: seq<string>)

  /** The message of a result: 'accepted', 'stop at q',
      'delta(key) is not defined', 'vacant stack'. */
  datatype Message = Accepted | StopAt(state: string) | Undefined(key: Key) | VacantStack

  /** (result, message, sequence): one entry of `sequence` per configuration
      visited, first to last. */
  datatype Verdict = Verdict(accepted: bool, message: Message, trace: seq<Config>)

  /** The configuration read starts from: q_0, the whole input, Z_0 alone. */
  function Initial(q0: string, Z0: string, w: string): Config
  {
    Config(q0, w, [Z0])
  }

  /** The input symbol looked up: the first character, or "" once the input
      is used up (ε-moves are consulted only then). */
  function Head(w: string): string
  {
    if w == "" then "" else w[..1]
  }

  /** The input left after the lookup. */
  function Tail(w: string): string
  {
    if w == "" then "" else w[1..]
  }

  /** The key looked up in a configuration: state, input symbol, stack top. */
  function KeyAt(c: Config): Key
    requires c.stack != []
  {
    Key(c.state, Head(c.input), Last(c.stack))
  }

  /** The configuration an outcome leads to: the top popped, the outcome's
      symbols pushed, the symbol read consumed. */
  function Successor(c: Config, mv: Move): Config
    requires c.stack != []
  {
    Config(mv.next, Tail(c.input), PushAll(c.stack[..|c.stack| - 1], mv.push))
  }

  /** One move of the machine from c to d through one of the outcomes listed
      for c's key. */
  predicate Step(delta: NTable, c: Config, d: Config)
  {
    c.stack != [] && KeyAt(c) in delta &&
    exists j :: 0 <= j < |delta[KeyAt(c)]| && d == Successor(c, delta[KeyAt(c)][j])
  }

  /** A computation: each configuration moves to the next. */
  ghost predicate IsPath(delta: NTable, p: seq<Config>)
  {
    p != [] && forall i :: 0 <= i < |p| - 1 ==> Step(delta, p[i], p[i + 1])
  }

  /** A configuration where read stops: both used up, stack gone with input
      left, or no transition for the key. */
  predicate Final(delta: NTable, c: Config)
  {
    c.stack == [] || KeyAt(c) !in delta
  }

  /** The input and the stack are both used up. */
  predicate Emptied(c: Config)
  {
    c.input == "" && c.stack == []
  }

  /** The verdict read reports on a final configuration c. `lenient` is the
      NPDA rule that an empty F accepts on empty stack alone; the DPDA has
      no such rule. */
  predicate Reports(delta: NTable, F: set<string>, lenient: bool, c: Config, v: Verdict)
  {
    if Emptied(c) then
      v.accepted == (c.state in F || (lenient && F == {})) &&
      v.message == (if v.accepted then Accepted else StopAt(c.state))
    else if c.stack == [] then
      !v.accepted && v.message == VacantStack
    else
      KeyAt(c) !in delta && !v.accepted && v.message == Undefined(KeyAt(c))
  }

  /** v is what read reports for a computation that starts at c after
      `trace`: its sequence is trace followed by the computation, which ends
      in a final configuration that v describes. */
  ghost predicate Explains(delta: NTable, F: set<string>, lenient: bool, c: Config, trace: seq<Config>, v: Verdict)
  {
    |v.trace| > |trace| && v.trace[..|trace|] == trace && v.trace[|trace|] == c &&
    IsPath(delta, v.trace[|trace|..]) && Reports(delta, F, lenient, Last(v.trace), v)
  }

  // ----- DPDA -----

  /** DPDA._readSub from configuration c with `trace` recorded so far. */
  function DRun(m: Dpda, fuel: nat, c: Config, trace: seq<Config>): Option<Verdict>
    decreases fuel
  {
    if fuel == 0 then None
    else
      var t := trace + [c];
      if Emptied(c) then
        Some(Verdict(c.state in m.F, if c.state in m.F then Accepted else StopAt(c.state), t))
      else if c.stack == [] then Some(Verdict(false, VacantStack, t))
      else if KeyAt(c) !in m.delta then Some(Verdict(false, Undefined(KeyAt(c)), t))
      else DRun(m, fuel - 1, Successor(c, m.delta[KeyAt(c)]), t)
  }

  /** DPDA.read(w). */
  function DRead(m: Dpda, fuel: nat, w: string): Option<Verdict>
  {
    DRun(m, fuel, Initial(m.q0, m.Z0, w), [])
  }

  // ----- NPDA -----

  /** NPDA._readSub from configuration c: the results it appends to
      sequenceList, in order. */
  function NRun(m: Npda, fuel: nat, c: Config, trace: seq<Config>): Option<seq<Verdict>>
    decreases fuel, 0
  {
    if fuel == 0 then None
    else
      var t := trace + [c];
      if Emptied(c) then
        var ok := m.F == {} || c.state in m.F;
        Some([Verdict(ok, if ok then Accepted else StopAt(c.state), t)])
      else if c.stack == [] then Some([Verdict(false, VacantStack, t)])
      else if KeyAt(c) !in m.delta then Some([Verdict(false, Undefined(KeyAt(c)), t)])
      else NRunMoves(m, fuel - 1, c, m.delta[KeyAt(c)], t)
  }

  /** The loop over the outcomes of c's key: each one continues on its own
      copy of the trace and of the popped stack, and their results follow
      each other in outcome order. */
  function NRunMoves(m: Npda, fuel: nat, c: Config, moves: seq<Move>, trace: seq<Config>): Option<seq<Verdict>>
    requires c.stack != []
    decreases fuel, |moves| + 1
  {
    if moves == [] then Some([])
    else
      match NRunMoves(m, fuel, c, moves[..|moves| - 1], trace)
      case None => None
      case Some(vs) =>
        match NRun(m, fuel, Successor(c, Last(moves)), trace)
        case None => None
        case Some(ws) => Some(vs + ws)
  }

  /** NPDA.read(w). */
  function NRead(m: Npda, fuel: nat, w: string): Option<seq<Verdict>>
  {
    NRun(m, fuel, Initial(m.q0, m.Z0, w), [])
  }

  /** The list a call leaves in sequenceList: `acc` followed by what it adds. */
  function Append(acc: seq<Verdict>, r: Option<seq<Verdict>>): Option<seq<Verdict>>
  {
    match r
    case None => None
    case Some(vs) => Some(acc + vs)
  }

  lemma AppendNothing(r: Option<seq<Verdict>>)
    ensures Append([], r) == r
  {
    if r.Some? {
      assert [] + r.value == r.value;
    }
  }

  // ----- Properties of the runs -----

  /** A move in front of a computation is a longer computation. */
  lemma PathCons(delta: NTable, c: Config, p: seq<Config>)
    requires IsPath(delta, p) && Step(delta, c, p[0])
    ensures IsPath(delta, [c] + p)
  {
    var q := [c] + p;
    forall i | 0 <= i < |q| - 1 ensures Step(delta, q[i], q[i + 1]) {
      if i > 0 {
        assert q[i] == p[i - 1] && q[i + 1] == p[i];
      }
    }
  }

  /** A move through outcome j in front of a computation. */
  lemma PathExtend(delta: NTable, c: Config, j: int, p: seq<Config>)
    requires c.stack != [] && KeyAt(c) in delta && 0 <= j < |delta[KeyAt(c)]|
    requires IsPath(delta, p) && p[0] == Successor(c, delta[KeyAt(c)][j])
    ensures IsPath(delta, [c] + p) && ([c] + p)[0] == c && Last([c] + p) == Last(p)
  {
    PathCons(delta, c, p);
  }

  /** A move in front of a computation that uses up input and stack. */
  lemma EmptyingPathExtend(delta: NTable, c: Config, j: int, p: seq<Config>)
    requires c.stack != [] && KeyAt(c) in delta && 0 <= j < |delta[KeyAt(c)]|
    requires IsPath(delta, p) && p[0] == Successor(c, delta[KeyAt(c)][j]) && Emptied(Last(p))
    ensures exists p' :: IsPath(delta, p') && p'[0] == c && Emptied(Last(p'))
  {
    PathExtend(delta, c, j, p);
    assert IsPath(delta, [c] + p) && ([c] + p)[0] == c && Emptied(Last([c] + p));
  }

  /** The computation after its first move. */
  lemma PathTail(delta: NTable, p: seq<Config>)
    requires IsPath(delta, p) && |p| > 1
    ensures Step(delta, p[0], p[1]) && IsPath(delta, p[1..]) && p[1..][0] == p[1] && Last(p[1..]) == Last(p)
  {
    var p' := p[1..];
    forall i | 0 <= i < |p'| - 1 ensures Step(delta, p'[i], p'[i + 1]) {
      assert p'[i] == p[i + 1] && p'[i + 1] == p[i + 2];
    }
  }

  lemma SplitFirst(trace: seq<Config>, p: seq<Config>)
    requires p != []
    ensures trace + [p[0]] + p[1..] == trace + p
  {
    assert [p[0]] + p[1..] == p;
  }

  /** A final configuration explains the verdict read gives on it. */
  lemma ExplainsFinal(delta: NTable, F: set<string>, lenient: bool, c: Config, trace: seq<Config>, v: Verdict)
    requires v.trace == trace + [c] && Reports(delta, F, lenient, c, v)
    ensures Explains(delta, F, lenient, c, trace, v)
  {
    assert v.trace[..|trace|] == trace;
    assert v.trace[|trace|..] == [c];
  }

  /** A verdict explained from a successor of c, with c recorded, is
      explained from c. */
  lemma ExplainsBack(delta: NTable, F: set<string>, lenient: bool, c: Config, j: int, trace: seq<Config>, v: Verdict)
    requires c.stack != [] && KeyAt(c) in delta && 0 <= j < |delta[KeyAt(c)]|
    requires Explains(delta, F, lenient, Successor(c, delta[KeyAt(c)][j]), trace + [c], v)
    ensures Explains(delta, F, lenient, c, trace, v)
  {
    var n := |trace|;
    assert v.trace[..n + 1] == trace + [c];
    assert v.trace[..n] == (trace + [c])[..n] == trace;
    assert v.trace[n] == (trace + [c])[n] == c;
    assert v.trace[n..] == [c] + v.trace[n + 1..];
    PathCons(delta, c, v.trace[n + 1..]);
  }

  /** More fuel does not change a DPDA run that already finished. */
  lemma {:induction false} DRunFuel(m: Dpda, fuel: nat, fuel': nat, c: Config, trace: seq<Config>)
    requires fuel <= fuel' && DRun(m, fuel, c, trace).Some?
    ensures DRun(m, fuel', c, trace) == DRun(m, fuel, c, trace)
    decreases fuel
  {
    if !Emptied(c) && c.stack != [] && KeyAt(c) in m.delta {
      DRunFuel(m, fuel - 1, fuel' - 1, Successor(c, m.delta[KeyAt(c)]), trace + [c]);
    }
  }

  /** Soundness of DPDA.read: the sequence it returns is the sequence given,
      then a computation from c, and the result and message are those of
      the configuration the computation ends in. */
  lemma {:induction false} DRunSound(m: Dpda, fuel: nat, c: Config, trace: seq<Config>)
    requires DRun(m, fuel, c, trace).Some?
    ensures Explains(Lift(m.delta), m.F, false, c, trace, DRun(m, fuel, c, trace).value)
    decreases fuel
  {
    var v := DRun(m, fuel, c, trace).value;
    if Emptied(c) || c.stack == [] || KeyAt(c) !in m.delta {
      ExplainsFinal(Lift(m.delta), m.F, false, c, trace, v);
    } else {
      DRunSound(m, fuel - 1, Successor(c, m.delta[KeyAt(c)]), trace + [c]);
      ExplainsBack(Lift(m.delta), m.F, false, c, 0, trace, v);
    }
  }

  /** The DPDA has one computation from c: any computation that reaches a
      final configuration is the one read records. */
  lemma {:induction false} DRunComplete(m: Dpda, fuel: nat, c: Config, trace: seq<Config>, p: seq<Config>)
    requires DRun(m, fuel, c, trace).Some?
    requires IsPath(Lift(m.delta), p) && p[0] == c && Final(Lift(m.delta), Last(p))
    ensures DRun(m, fuel, c, trace).value.trace == trace + p
    decreases fuel
  {
    if |p| > 1 {
      PathTail(Lift(m.delta), p);
      var mv := m.delta[KeyAt(c)];
      assert Lift(m.delta)[KeyAt(c)] == [mv];
      assert p[1] == Successor(c, mv);
      DRunComplete(m, fuel - 1, p[1], trace + [c], p[1..]);
      SplitFirst(trace, p);
    }
  }

  /** A DPDA whose F is empty accepts nothing: read checks q in F even when
      there are no accepting states. */
  lemma {:induction false} DRunNoAcceptingStates(m: Dpda, fuel: nat, c: Config, trace: seq<Config>)
    requires m.F == {} && DRun(m, fuel, c, trace).Some?
    ensures !DRun(m, fuel, c, trace).value.accepted
  {
    DRunSound(m, fuel, c, trace);
  }

  /** More fuel does not change an NPDA run that already finished. */
  lemma {:induction false} NRunFuel(m: Npda, fuel: nat, fuel': nat, c: Config, trace: seq<Config>)
    requires fuel <= fuel' && NRun(m, fuel, c, trace).Some?
    ensures NRun(m, fuel', c, trace) == NRun(m, fuel, c, trace)
    decreases fuel, 0
  {
    if !Emptied(c) && c.stack != [] && KeyAt(c) in m.delta {
      NRunMovesFuel(m, fuel - 1, fuel' - 1, c, m.delta[KeyAt(c)], trace + [c]);
    }
  }

  lemma {:induction false} NRunMovesFuel(m: Npda, fuel: nat, fuel': nat, c: Config, moves: seq<Move>, trace: seq<Config>)
    requires c.stack != [] && fuel <= fuel' && NRunMoves(m, fuel, c, moves, trace).Some?
    ensures NRunMoves(m, fuel', c, moves, trace) == NRunMoves(m, fuel, c, moves, trace)
    decreases fuel, |moves| + 1
  {
    if moves != [] {
      NRunMovesFuel(m, fuel, fuel', c, moves[..|moves| - 1], trace);
      NRunFuel(m, fuel, fuel', Successor(c, Last(moves)), trace);
    }
  }

  /** Soundness of NPDA.read: every result it appends is explained by a
      computation from c. */
  lemma {:induction false} NRunSound(m: Npda, fuel: nat, c: Config, trace: seq<Config>)
    requires NRun(m, fuel, c, trace).Some?
    ensures forall v :: v in NRun(m, fuel, c, trace).value ==> Explains(m.delta, m.F, true, c, trace, v)
    decreases fuel, 0
  {
    var vs := NRun(m, fuel, c, trace).value;
    if Emptied(c) || c.stack == [] || KeyAt(c) !in m.delta {
      ExplainsFinal(m.delta, m.F, true, c, trace, vs[0]);
    } else {
      var moves := m.delta[KeyAt(c)];
      NRunMovesSound(m, fuel - 1, c, moves, trace + [c]);
      forall v | v in vs ensures Explains(m.delta, m.F, true, c, trace, v) {
        var j :| 0 <= j < |moves| && Explains(m.delta, m.F, true, Successor(c, moves[j]), trace + [c], v);
        ExplainsBack(m.delta, m.F, true, c, j, trace, v);
      }
    }
  }

  lemma {:induction false} NRunMovesSound(m: Npda, fuel: nat, c: Config, moves: seq<Move>, trace: seq<Config>)
    requires c.stack != [] && NRunMoves(m, fuel, c, moves, trace).Some?
    ensures forall v :: v in NRunMoves(m, fuel, c, moves, trace).value ==>
              exists j :: 0 <= j < |moves| && Explains(m.delta, m.F, true, Successor(c, moves[j]), trace, v)
    decreases fuel, |moves| + 1
  {
    if moves != [] {
      var init := moves[..|moves| - 1];
      NRunMovesSound(m, fuel, c, init, trace);
      NRunSound(m, fuel, Successor(c, Last(moves)), trace);
      forall v | v in NRunMoves(m, fuel, c, moves, trace).value
        ensures exists j :: 0 <= j < |moves| && Explains(m.delta, m.F, true, Successor(c, moves[j]), trace, v)
      {
        if v in NRunMoves(m, fuel, c, init, trace).value {
          var j :| 0 <= j < |init| && Explains(m.delta, m.F, true, Successor(c, init[j]), trace, v);
          assert init[j] == moves[j];
        } else {
          assert Last(moves) == moves[|moves| - 1];
        }
      }
    }
  }

  /** The results of the branch through outcome j are among the results of
      the loop over all outcomes. */
  lemma {:induction false} NRunMovesBranch(m: Npda, fuel: nat, c: Config, moves: seq<Move>, trace: seq<Config>, j: int)
    requires c.stack != [] && NRunMoves(m, fuel, c, moves, trace).Some? && 0 <= j < |moves|
    ensures NRun(m, fuel, Successor(c, moves[j]), trace).Some?
    ensures forall v :: v in NRun(m, fuel, Successor(c, moves[j]), trace).value ==>
              v in NRunMoves(m, fuel, c, moves, trace).value
    decreases |moves|
  {
    var init := moves[..|moves| - 1];
    if j < |moves| - 1 {
      assert init[j] == moves[j];
      NRunMovesBranch(m, fuel, c, init, trace, j);
    }
  }

  /** At a final configuration _readSub appends one result, whose sequence
      ends with that configuration. */
  lemma NRunFinal(m: Npda, fuel: nat, c: Config, trace: seq<Config>)
    requires NRun(m, fuel, c, trace).Some? && Final(m.delta, c)
    ensures |NRun(m, fuel, c, trace).value| == 1 && NRun(m, fuel, c, trace).value[0].trace == trace + [c]
  {
  }

  /** A configuration that is neither emptied nor stuck runs on through the
      outcomes of its key. */
  lemma NRunKeyed(m: Npda, fuel: nat, c: Config, trace: seq<Config>)
    requires fuel > 0 && c.stack != [] && KeyAt(c) in m.delta
    ensures NRun(m, fuel, c, trace) == NRunMoves(m, fuel - 1, c, m.delta[KeyAt(c)], trace + [c])
  {
  }

  /** A finished run from a configuration that is not final went on through
      the outcomes of its key. */
  lemma NRunUnfold(m: Npda, fuel: nat, c: Config, trace: seq<Config>)
    requires NRun(m, fuel, c, trace).Some? && !Final(m.delta, c)
    ensures fuel > 0 && c.stack != [] && KeyAt(c) in m.delta
    ensures NRun(m, fuel, c, trace) == NRunMoves(m, fuel - 1, c, m.delta[KeyAt(c)], trace + [c])
  {
  }

  /** Each outcome of c's key runs on, and its results are among c's. */
  lemma NRunBranch(m: Npda, fuel: nat, c: Config, trace: seq<Config>, j: int)
    requires NRun(m, fuel, c, trace).Some? && !Final(m.delta, c)
    requires 0 <= j < |m.delta[KeyAt(c)]|
    ensures fuel > 0
    ensures NRun(m, fuel - 1, Successor(c, m.delta[KeyAt(c)][j]), trace + [c]).Some?
    ensures forall v :: v in NRun(m, fuel - 1, Successor(c, m.delta[KeyAt(c)][j]), trace + [c]).value ==>
              v in NRun(m, fuel, c, trace).value
  {
    NRunUnfold(m, fuel, c, trace);
    NRunMovesBranch(m, fuel - 1, c, m.delta[KeyAt(c)], trace + [c], j);
  }

  /** A computation of more than one configuration from c goes on, after
      the first move, as a computation from some successor d whose results
      are among c's. */
  lemma NRunNext(m: Npda, fuel: nat, c: Config, trace: seq<Config>, p: seq<Config>)
    returns (d: Config, p': seq<Config>)
    requires NRun(m, fuel, c, trace).Some?
    requires IsPath(m.delta, p) && |p| > 1 && p[0] == c && Final(m.delta, Last(p))
    ensures fuel > 0 && p == [c] + p'
    ensures NRun(m, fuel - 1, d, trace + [c]).Some?
    ensures IsPath(m.delta, p') && p'[0] == d && Final(m.delta, Last(p'))
    ensures forall w :: w in NRun(m, fuel - 1, d, trace + [c]).value ==> w in NRun(m, fuel, c, trace).value
  {
    PathTail(m.delta, p);
    assert !Final(m.delta, c);
    var j :| 0 <= j < |m.delta[KeyAt(c)]| && p[1] == Successor(c, m.delta[KeyAt(c)][j]);
    d, p' := p[1], p[1..];
    NRunBranch(m, fuel, c, trace, j);
  }

  /** Completeness of NPDA.read: every computation from c that reaches a
      final configuration appears, with the sequence given in front, among
      the results. */
  lemma {:induction false} NRunComplete(m: Npda, fuel: nat, c: Config, trace: seq<Config>, p: seq<Config>)
    returns (v: Verdict)
    requires NRun(m, fuel, c, trace).Some?
    requires IsPath(m.delta, p) && p[0] == c && Final(m.delta, Last(p))
    ensures v in NRun(m, fuel, c, trace).value && v.trace == trace + p
    decreases fuel
  {
    if |p| == 1 {
      assert p == [c];
      NRunFinal(m, fuel, c, trace);
      v := NRun(m, fuel, c, trace).value[0];
    } else {
      var d, p' := NRunNext(m, fuel, c, trace, p);
      v := NRunComplete(m, fuel - 1, d, trace + [c], p');
      assert trace + [c] + p' == trace + p;
    }
  }

  /** NPDA.read accepts exactly when some computation from c uses up the
      input and the stack in an accepting state (any state when F is
      empty). */
  lemma NRunAccepts(m: Npda, fuel: nat, c: Config, trace: seq<Config>)
    requires NRun(m, fuel, c, trace).Some?
    ensures (exists v :: v in NRun(m, fuel, c, trace).value && v.accepted) <==>
            (exists p :: IsPath(m.delta, p) && p[0] == c && Emptied(Last(p)) && (m.F == {} || Last(p).state in m.F))
  {
    var vs := NRun(m, fuel, c, trace).value;
    NRunSound(m, fuel, c, trace);
    if v :| v in vs && v.accepted {
      var p := v.trace[|trace|..];
      assert Last(p) == Last(v.trace);
      assert p[0] == c;
    }
    if p :| IsPath(m.delta, p) && p[0] == c && Emptied(Last(p)) && (m.F == {} || Last(p).state in m.F) {
      var v := NRunComplete(m, fuel, c, trace, p);
      assert Last(v.trace) == Last(p);
    }
  }

  /** A DPDA with accepting states runs as the NPDA whose table lists its
      single outcome per key: one result, the DPDA's. */
  lemma {:induction false} DpdaAsNpda(m: Dpda, fuel: nat, c: Config, trace: seq<Config>)
    requires m.F != {}
    ensures NRun(Npda(m.q0, Lift(m.delta), m.F, m.Z0, m.states, m.alphabet, m.stackAlphabet), fuel, c, trace) ==
            (match DRun(m, fuel, c, trace) case None => None case Some(v) => Some([v]))
    decreases fuel
  {
    var n := Npda(m.q0, Lift(m.delta), m.F, m.Z0, m.states, m.alphabet, m.stackAlphabet);
    if fuel > 0 && !Emptied(c) && c.stack != [] && KeyAt(c) in m.delta {
      var mv := m.delta[KeyAt(c)];
      assert n.delta[KeyAt(c)] == [mv];
      DpdaAsNpda(m, fuel - 1, Successor(c, mv), trace + [c]);
      assert [mv][..0] == [];
      assert NRun(n, fuel, c, trace) == NRunMoves(n, fuel - 1, c, [mv], trace + [c]);
      assert NRunMoves(n, fuel - 1, c, [mv], trace + [c]) == Append([], NRun(n, fuel - 1, Successor(c, mv), trace + [c]));
      assert DRun(m, fuel, c, trace) == DRun(m, fuel - 1, Successor(c, mv), trace + [c]);
      match DRun(m, fuel - 1, Successor(c, mv), trace + [c])
      case None =>
      case Some(v) => assert [] + [v] == [v];
    }
  }

  /** Once a branch runs out of fuel, so does the loop over the outcomes. */
  lemma {:induction false} NRunMovesPrefixNone(m: Npda, fuel: nat, c: Config, moves: seq<Move>, trace: seq<Config>, i: nat)
    requires c.stack != [] && i <= |moves| && NRunMoves(m, fuel, c, moves[..i], trace).None?
    ensures NRunMoves(m, fuel, c, moves, trace).None?
    decreases |moves| - i
  {
    if i < |moves| {
      assert moves[..i + 1][..i] == moves[..i];
      NRunMovesPrefixNone(m, fuel, c, moves, trace, i + 1);
    } else {
      assert moves[..i] == moves;
    }
  }

  /** The loop over outcomes, one outcome further, as the prefix's results
      with the next outcome's appended. */
  lemma BranchAppend(m: Npda, fuel: nat, c: Config, moves: seq<Move>, trace: seq<Config>, i: nat,
                     sequenceList: seq<Verdict>, acc: seq<Verdict>)
    requires c.stack != [] && i < |moves|
    requires Append(sequenceList, NRunMoves(m, fuel, c, moves[..i], trace)) == Some(acc)
    ensures Append(sequenceList, NRunMoves(m, fuel, c, moves[..i + 1], trace)) ==
            Append(acc, NRun(m, fuel, Successor(c, moves[i]), trace))
  {
    NRunMovesStep(m, fuel, c, moves, trace, i);
    var vs := NRunMoves(m, fuel, c, moves[..i], trace).value;
    match NRun(m, fuel, Successor(c, moves[i]), trace)
    case None =>
    case Some(ws) => assert sequenceList + (vs + ws) == acc + ws;
  }

  /** The loop over outcomes one outcome further. */
  lemma NRunMovesStep(m: Npda, fuel: nat, c: Config, moves: seq<Move>, trace: seq<Config>, i: nat)
    requires c.stack != [] && i < |moves|
    ensures NRunMoves(m, fuel, c, moves[..i + 1], trace) ==
            match NRunMoves(m, fuel, c, moves[..i], trace)
            case None => None
            case Some(vs) => Append(vs, NRun(m, fuel, Successor(c, moves[i]), trace))
  {
    assert moves[..i + 1][..i] == moves[..i];
    assert Last(moves[..i + 1]) == moves[i];
  }
}
