/** pda.py: DPDA.read and NPDA.read on stack.Stack objects. The stack is
    changed in place by pop and push; an NPDA branch works on its own copy
    of the popped stack and of the sequence recorded so far. */
module Pda {
  import opened Util
  import opened PdaModel
  import opened PdaRun
  import Stacks

  /** DPDA._stackPush: pushes the symbols of Z last to first, so Z[0] ends
      on top. */
  method StackPush(Z: seq<string>, stack: Stacks.Stack<string>)
    modifies stack
    ensures stack.elements == PushAll(old(stack.elements), Z)
  {
    var ZZ := Reverse(Z);
    var i := 0;
    while i < |ZZ|
      invariant 0 <= i <= |ZZ|
      invariant stack.elements == old(stack.elements) + ZZ[..i]
    {
      stack.Push(ZZ[i]);
      i := i + 1;
    }
    assert ZZ[..i] == ZZ;
  }

  /** DPDA._readSub(q, inputStr, sequence, stack): records the current
      configuration, pops the top and follows the transition for
      (q, first character or "", top). The stack is the run's scratch
      space: read creates it and reads nothing from it afterwards, so the
      contract leaves its final contents open. */
  method DpdaReadSub(m: Dpda, q: string, inputStr: string, sequence: seq<Config>,
                     stack: Stacks.Stack<string>, fuel: nat) returns (r: Option<Verdict>)
    modifies stack
    ensures r == DRun(m, fuel, Config(q, inputStr, old(stack.elements)), sequence)
    decreases fuel
  {
    if fuel == 0 {
      return None;
    }
    var recorded := sequence + [Config(q, inputStr, stack.elements)];
    if |inputStr| == 0 {
      var empty := stack.IsEmpty();
      if empty {
        var message, result := Accepted, true;
        if q !in m.F {
          message, result := StopAt(q), false;
        }
        return Some(Verdict(result, message, recorded));
      } else {
        var g := stack.Pop();
        var f := Key(q, "", g);
        if f !in m.delta {
          return Some(Verdict(false, Undefined(f), recorded));
        }
        var mv := m.delta[f];
        StackPush(mv.push, stack);
        r := DpdaReadSub(m, mv.next, inputStr, recorded, stack, fuel - 1);
        return;
      }
    }
    var empty := stack.IsEmpty();
    if empty {
      return Some(Verdict(false, VacantStack, recorded));
    }
    var s := inputStr[..1];
    var g := stack.Pop();
    var f := Key(q, s, g);
    if f !in m.delta {
      return Some(Verdict(false, Undefined(f), recorded));
    }
    var mv := m.delta[f];
    StackPush(mv.push, stack);
    r := DpdaReadSub(m, mv.next, inputStr[1..], recorded, stack, fuel - 1);
  }

  /** DPDA.read(input): starts in q_0 with Z_0 alone on a new stack. */
  method DpdaRead(m: Dpda, input: string, fuel: nat) returns (r: Option<Verdict>)
    ensures r == DRead(m, fuel, input)
  {
    var stack := new Stacks.Stack<string>();
    stack.Push(m.Z0);
    assert stack.elements == [m.Z0];
    r := DpdaReadSub(m, m.q0, input, [], stack, fuel);
  }

  /** NPDA._readSub(q, inputStr, sequence, stack, sequenceList): appends to
      sequenceList one result per computation that ends; `r` is the list
      afterwards. As for the DPDA, the stack is scratch space no caller
      reads again, so its final contents are left open. */
  method NpdaReadSub(m: Npda, q: string, inputStr: string, sequence: seq<Config>,
                     stack: Stacks.Stack<string>, sequenceList: seq<Verdict>, fuel: nat)
    returns (r: Option<seq<Verdict>>)
    modifies stack
    ensures r == Append(sequenceList, NRun(m, fuel, Config(q, inputStr, old(stack.elements)), sequence))
    decreases fuel, 0
  {
    if fuel == 0 {
      return None;
    }
    var c := Config(q, inputStr, stack.elements);
    var recorded := sequence + [c];
    if |inputStr| == 0 {
      var empty := stack.IsEmpty();
      if empty {
        var message, result := Accepted, true;
        if |m.F| > 0 {
          if q !in m.F {
            message, result := StopAt(q), false;
          }
        }
        return Some(sequenceList + [Verdict(result, message, recorded)]);
      }
    } else {
      var empty := stack.IsEmpty();
      if empty {
        return Some(sequenceList + [Verdict(false, VacantStack, recorded)]);
      }
    }
    var s := if |inputStr| == 0 then "" else inputStr[..1];
    var g := stack.Pop();
    var f := Key(q, s, g);
    if f !in m.delta {
      return Some(sequenceList + [Verdict(false, Undefined(f), recorded)]);
    }
    NRunKeyed(m, fuel, c, sequence);
    r := NpdaBranches(m, c, m.delta[f], recorded, stack, sequenceList, fuel - 1);
  }

  /** The loop of NPDA._readSub over the outcomes listed for the key just
      popped: each outcome goes on with its own copy of the popped stack and
      of the sequence, so `stack` itself is left as it is. */
  method NpdaBranches(m: Npda, c: Config, outs: seq<Move>, recorded: seq<Config>,
                      stack: Stacks.Stack<string>, sequenceList: seq<Verdict>, fuel: nat)
    returns (r: Option<seq<Verdict>>)
    requires c.stack != [] && stack.elements == c.stack[..|c.stack| - 1]
    ensures r == Append(sequenceList, NRunMoves(m, fuel, c, outs, recorded))
    decreases fuel, 1
  {
    var rest := if |c.input| == 0 then c.input else c.input[1..];
    var acc := sequenceList;
    var i := 0;
    assert outs[..0] == [] && sequenceList + [] == sequenceList;
    while i < |outs|
      invariant 0 <= i <= |outs|
      invariant Append(sequenceList, NRunMoves(m, fuel, c, outs[..i], recorded)) == Some(acc)
    {
      var o := outs[i];
      var newStack := new Stacks.Stack<string>.Copy(stack);
      StackPush(o.push, newStack);
      ghost var next := Config(o.next, rest, newStack.elements);
      assert next == Successor(c, o);
      BranchAppend(m, fuel, c, outs, recorded, i, sequenceList, acc);
      var further := NpdaReadSub(m, o.next, rest, recorded, newStack, acc, fuel);
      if further.None? {
        NRunMovesPrefixNone(m, fuel, c, outs, recorded, i + 1);
        return None;
      }
      acc := further.value;
      i := i + 1;
    }
    assert outs[..i] == outs;
    return Some(acc);
  }

  /** NPDA.read(input): the list of results of every computation from q_0
      with Z_0 on a new stack. */
  method NpdaRead(m: Npda, input: string, fuel: nat) returns (r: Option<seq<Verdict>>)
    ensures r == NRead(m, fuel, input)
  {
    var stack := new Stacks.Stack<string>();
    stack.Push(m.Z0);
    assert stack.elements == [m.Z0];
    r := NpdaReadSub(m, m.q0, input, [], stack, [], fuel);
    AppendNothing(NRead(m, fuel, input));
  }
}
