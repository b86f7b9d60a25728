/** pdaClass.py: the same DPDA.read and NPDA.read with the stack kept in a
    Python list (append pushes, pop removes the last element). The list is
    only ever read back by the call that changed it, so it is modelled as a
    sequence held in a local variable; an NPDA branch's list(stack) copy is
    a plain assignment. */
module PdaClass {
  import opened Util
  import opened PdaModel
  import opened PdaRun

  /** DPDA._stackPush on a list: appends the symbols of Z last to first. */
  method StackPush(Z: seq<string>, stack: seq<string>) returns (pushed: seq<string>)
    ensures pushed == PushAll(stack, Z)
  {
    pushed := stack;
    var ZZ := Reverse(Z);
    var i := 0;
    while i < |ZZ|
      invariant 0 <= i <= |ZZ|
      invariant pushed == stack + ZZ[..i]
    {
      pushed := pushed + [ZZ[i]];
      i := i + 1;
    }
    assert ZZ[..i] == ZZ;
  }

  /** DPDA._readSub on a list stack. */
  method DpdaReadSub(m: Dpda, q: string, inputStr: string, sequence: seq<Config>,
                     stack: seq<string>, fuel: nat) returns (r: Option<Verdict>)
    ensures r == DRun(m, fuel, Config(q, inputStr, stack), sequence)
    decreases fuel
  {
    if fuel == 0 {
      return None;
    }
    var recorded := sequence + [Config(q, inputStr, stack)];
    if |inputStr| == 0 {
      if |stack| == 0 {
        var message, result := Accepted, true;
        if q !in m.F {
          message, result := StopAt(q), false;
        }
        return Some(Verdict(result, message, recorded));
      } else {
        var g := stack[|stack| - 1];
        var rest := stack[..|stack| - 1];
        var f := Key(q, "", g);
        if f !in m.delta {
          return Some(Verdict(false, Undefined(f), recorded));
        }
        var mv := m.delta[f];
        rest := StackPush(mv.push, rest);
        r := DpdaReadSub(m, mv.next, inputStr, recorded, rest, fuel - 1);
        return;
      }
    }
    if |stack| == 0 {
      return Some(Verdict(false, VacantStack, recorded));
    }
    var s := inputStr[..1];
    var g := stack[|stack| - 1];
    var rest := stack[..|stack| - 1];
    var f := Key(q, s, g);
    if f !in m.delta {
      return Some(Verdict(false, Undefined(f), recorded));
    }
    var mv := m.delta[f];
    rest := StackPush(mv.push, rest);
    r := DpdaReadSub(m, mv.next, inputStr[1..], recorded, rest, fuel - 1);
  }

  /** DPDA.read(input): the list starts as [Z_0]. */
  method DpdaRead(m: Dpda, input: string, fuel: nat) returns (r: Option<Verdict>)
    ensures r == DRead(m, fuel, input)
  {
    var stack: seq<string> := [];
    stack := stack + [m.Z0];
    assert stack == [m.Z0];
    r := DpdaReadSub(m, m.q0, input, [], stack, fuel);
  }

  /** NPDA._readSub on a list stack: `r` is sequenceList afterwards. */
  method NpdaReadSub(m: Npda, q: string, inputStr: string, sequence: seq<Config>,
                     stack: seq<string>, sequenceList: seq<Verdict>, fuel: nat)
    returns (r: Option<seq<Verdict>>)
    ensures r == Append(sequenceList, NRun(m, fuel, Config(q, inputStr, stack), sequence))
    decreases fuel, 0
  {
    if fuel == 0 {
      return None;
    }
    var c := Config(q, inputStr, stack);
    var recorded := sequence + [c];
    if |inputStr| == 0 && |stack| == 0 {
      var message, result := Accepted, true;
      if |m.F| > 0 {
        if q !in m.F {
          message, result := StopAt(q), false;
        }
      }
      return Some(sequenceList + [Verdict(result, message, recorded)]);
    }
    if |stack| == 0 {
      return Some(sequenceList + [Verdict(false, VacantStack, recorded)]);
    }
    var s := if |inputStr| == 0 then "" else inputStr[..1];
    var g := stack[|stack| - 1];
    var f := Key(q, s, g);
    if f !in m.delta {
      return Some(sequenceList + [Verdict(false, Undefined(f), recorded)]);
    }
    NRunKeyed(m, fuel, c, sequence);
    r := NpdaBranches(m, c, m.delta[f], recorded, stack[..|stack| - 1], sequenceList, fuel - 1);
  }

  /** The loop over the outcomes of the key just popped; each branch starts
      from list(stack), a copy of the popped list. */
  method NpdaBranches(m: Npda, c: Config, outs: seq<Move>, recorded: seq<Config>,
                      stack: seq<string>, sequenceList: seq<Verdict>, fuel: nat)
    returns (r: Option<seq<Verdict>>)
    requires c.stack != [] && stack == c.stack[..|c.stack| - 1]
    ensures r == Append(sequenceList, NRunMoves(m, fuel, c, outs, recorded))
    decreases fuel, 1
  {
    var rest := if |c.input| == 0 then c.input else c.input[1..];
    var acc := sequenceList;
    var i := 0;
    assert outs[..0] == [] && sequenceList + [] == sequenceList;
    while i < |outs|
      invariant 0 <= i <= |outs|
      invariant Append(sequenceList, NRunMoves(m, fuel, c, outs[..i], recorded)) == Some(acc)
    {
      var o := outs[i];
      var newStack := stack;
      newStack := StackPush(o.push, newStack);
      assert Config(o.next, rest, newStack) == Successor(c, o);
      BranchAppend(m, fuel, c, outs, recorded, i, sequenceList, acc);
      var further := NpdaReadSub(m, o.next, rest, recorded, newStack, acc, fuel);
      if further.None? {
        NRunMovesPrefixNone(m, fuel, c, outs, recorded, i + 1);
        return None;
      }
      acc := further.value;
      i := i + 1;
    }
    assert outs[..i] == outs;
    return Some(acc);
  }

  /** NPDA.read(input). */
  method NpdaRead(m: Npda, input: string, fuel: nat) returns (r: Option<seq<Verdict>>)
    ensures r == NRead(m, fuel, input)
  {
    var stack: seq<string> := [];
    stack := stack + [m.Z0];
    assert stack == [m.Z0];
    r := NpdaReadSub(m, m.q0, input, [], stack, [], fuel);
    AppendNothing(NRead(m, fuel, input));
  }
}
