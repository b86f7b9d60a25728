/** NPDA._removeUnterminated (pdaClass.py's _findUnterminated): the
    left-hand sides from which a terminal string can be reached, found by a
    fixed-point iteration over a dummy copy of the rules. The removal in its
    second pass drops one occurrence per marked symbol (RemoveMarked), so a
    right-hand side naming a marked symbol twice never reduces. The passes
    and the loop take the removal as a parameter: AsWritten is the source's,
    Intended removes every occurrence (RemoveMarkedAll) and is what toCfg
    uses here. */
module Unterminated {
  import opened Util
  import opened Triples
  import opened CfgRules

  /** list.remove(x): drops the first occurrence of x, if any. */
  function RemoveFirst(dl: seq<TR>, x: TR): seq<TR>
  {
    if dl == [] then []
    else if dl[0] == x then dl[1..]
    else [dl[0]] + RemoveFirst(dl[1..], x)
  }

  /** One occurrence of x fewer when x occurs, no change otherwise. */
  lemma {:induction false} RemoveFirstCount(dl: seq<TR>, x: TR)
    ensures x in dl ==> multiset(RemoveFirst(dl, x)) == multiset(dl) - multiset{x}
    ensures x !in dl ==> RemoveFirst(dl, x) == dl
  {
    if dl != [] {
      assert dl == [dl[0]] + dl[1..];
      if dl[0] != x {
        RemoveFirstCount(dl[1..], x);
      }
    }
  }

  /** What `for kt in tKeys: if kt in dl: dl.remove(kt)` leaves, whatever
      order tKeys is visited in. */
  function RemoveFirsts(dl: seq<TR>, T: set<TR>): seq<TR>
  {
    if dl == [] then []
    else if dl[0] in T then RemoveFirsts(dl[1..], T - {dl[0]})
    else [dl[0]] + RemoveFirsts(dl[1..], T)
  }

  /** One occurrence fewer of each marked symbol that occurs, the others
      untouched: a repeated marked symbol stays. */
  lemma {:induction false} RemoveFirstsCount(dl: seq<TR>, T: set<TR>, x: TR)
    ensures multiset(RemoveFirsts(dl, T))[x] == multiset(dl)[x] - (if x in T && x in dl then 1 else 0)
  {
    if dl != [] {
      assert dl == [dl[0]] + dl[1..];
      if dl[0] in T {
        RemoveFirstsCount(dl[1..], T - {dl[0]}, x);
      } else {
        RemoveFirstsCount(dl[1..], T, x);
      }
    }
  }

  /** Removing the marks A and then x is removing the marks A + {x}. */
  lemma {:induction false} RemoveFirstsStep(dl: seq<TR>, A: set<TR>, x: TR)
    requires x !in A
    ensures RemoveFirst(RemoveFirsts(dl, A), x) == RemoveFirsts(dl, A + {x})
  {
    if dl != [] {
      if dl[0] == x {
        assert (A + {x}) - {x} == A;
      } else if dl[0] in A {
        RemoveFirstsStep(dl[1..], A - {dl[0]}, x);
        assert (A - {dl[0]}) + {x} == (A + {x}) - {dl[0]};
      } else {
        RemoveFirstsStep(dl[1..], A, x);
      }
    }
  }

  /** The inner loop of the second pass as written, on a copy dl of the
      right-hand side dll. */
  method RemoveMarked(dll: seq<TR>, tKeys: set<TR>) returns (dl: seq<TR>)
    ensures dl == RemoveFirsts(dll, tKeys)
  {
    dl := dll;
    var ts := Enumerate(tKeys);
    var i := 0;
    RemoveNothing(dll);
    assert Elems(ts[..0]) == {};
    while i < |ts|
      invariant 0 <= i <= |ts|
      invariant dl == RemoveFirsts(dll, Elems(ts[..i]))
    {
      var kt := ts[i];
      assert Elems(ts[..i + 1]) == Elems(ts[..i]) + {kt} by {
        assert ts[..i + 1] == ts[..i] + [kt];
      }
      RemoveFirstsStep(dll, Elems(ts[..i]), kt);
      RemoveFirstCount(dl, kt);
      if kt in dl {
        dl := RemoveFirst(dl, kt);
      }
      i := i + 1;
    }
    assert ts[..i] == ts;
  }

  lemma {:induction false} RemoveNothing(dl: seq<TR>)
    ensures RemoveFirsts(dl, {}) == dl
  {
    if dl != [] {
      RemoveNothing(dl[1..]);
    }
  }

  /** The removal as intended: every occurrence of a marked symbol goes. */
  function RemoveAll(dl: seq<TR>, T: set<TR>): seq<TR>
  {
    if dl == [] then []
    else (if dl[0] in T then [] else [dl[0]]) + RemoveAll(dl[1..], T)
  }

  lemma {:induction false} RemoveAllAppend(a: seq<TR>, b: seq<TR>, T: set<TR>)
    ensures RemoveAll(a + b, T) == RemoveAll(a, T) + RemoveAll(b, T)
  {
    if a == [] {
      assert a + b == b;
    } else {
      assert (a + b)[0] == a[0] && (a + b)[1..] == a[1..] + b;
      RemoveAllAppend(a[1..], b, T);
    }
  }

  /** Removing the marks A and then B is removing B, when A is part of B. */
  lemma {:induction false} RemoveAllTwice(dl: seq<TR>, A: set<TR>, B: set<TR>)
    requires A <= B
    ensures RemoveAll(RemoveAll(dl, A), B) == RemoveAll(dl, B)
  {
    if dl != [] {
      var head: seq<TR> := if dl[0] in A then [] else [dl[0]];
      RemoveAllAppend(head, RemoveAll(dl[1..], A), B);
      RemoveAllTwice(dl[1..], A, B);
      if dl[0] !in A {
        assert [dl[0]][1..] == [];
      }
    }
  }

  /** The second pass's inner loop with the intended removal: the unmarked
      symbols of dll, in order. */
  method RemoveMarkedAll(dll: seq<TR>, tKeys: set<TR>) returns (dl: seq<TR>)
    ensures dl == RemoveAll(dll, tKeys)
  {
    dl := [];
    var i := 0;
    while i < |dll|
      invariant 0 <= i <= |dll|
      invariant dl == RemoveAll(dll[..i], tKeys)
    {
      var d := dll[i];
      assert dll[..i + 1] == dll[..i] + [d];
      RemoveAllAppend(dll[..i], [d], tKeys);
      assert [d][1..] == [];
      if d !in tKeys {
        dl := dl + [d];
      }
      i := i + 1;
    }
    assert dll[..i] == dll;
  }

  /** The first pass takes a right-hand side as terminating when it is empty
      or a single terminal. */
  predicate Direct(dl: seq<TR>)
  {
    |dl| == 0 || (|dl| == 1 && dl[0].s.None?)
  }

  /** The removal the second pass applies: the one pda.py performs, which
      drops one occurrence of each marked symbol, or the intended one, which
      drops them all. */
  datatype Removal = AsWritten | Intended

  /** What is left of dl once the marks in T are removed by rm. */
  function Removed(rm: Removal, dl: seq<TR>, T: set<TR>): seq<TR>
  {
    match rm
    case AsWritten => RemoveFirsts(dl, T)
    case Intended => RemoveAll(dl, T)
  }

  /** The second pass takes a right-hand side as terminating when, after
      the removal, a single terminal is left. */
  predicate ReducesBy(rm: Removal, dl: seq<TR>, T: set<TR>)
  {
    var r := Removed(rm, dl, T);
    |r| == 1 && r[0].s.None?
  }

  /** The second pass's inner loop under removal rm. */
  method RemoveMarkedBy(rm: Removal, dll: seq<TR>, tKeys: set<TR>) returns (dl: seq<TR>)
    ensures dl == Removed(rm, dll, tKeys)
  {
    match rm
    case AsWritten => dl := RemoveMarked(dll, tKeys);
    case Intended => dl := RemoveMarkedAll(dll, tKeys);
  }

  /** A set no pass can extend: it holds S, only left-hand sides besides S,
      and no left-hand side outside it has a right-hand side either pass
      accepts. */
  ghost predicate Closed(rm: Removal, P: Productions, S: TR, T: set<TR>)
  {
    S in T && T <= P.Keys + {S} &&
    forall k :: k in P && k !in T ==> forall dl :: dl in P[k] ==> !Direct(dl) && !ReducesBy(rm, dl, T)
  }

  /** order lists S first, then each added left-hand side with a right-hand
      side accepted on the symbols before it. */
  ghost predicate Justified(rm: Removal, P: Productions, S: TR, order: seq<TR>)
    decreases |order|
  {
    if |order| <= 1 then order == [S]
    else
      var init, k := order[..|order| - 1], Last(order);
      Justified(rm, P, S, init) && k in P && exists dl :: dl in P[k] && (Direct(dl) || ReducesBy(rm, dl, Elems(init)))
  }

  /** Marking more symbols keeps a reducing right-hand side reducing, as long
      as no terminal is marked. */
  lemma ReducesMonotone(dl: seq<TR>, A: set<TR>, B: set<TR>)
    requires A <= B && forall x :: x in B ==> x.s.Some?
    requires ReducesBy(Intended, dl, A)
    ensures ReducesBy(Intended, dl, B)
  {
    var r := RemoveAll(dl, A);
    RemoveAllTwice(dl, A, B);
    assert r == [r[0]] && r[0] !in B;
    assert RemoveAll(r, B) == [r[0]] + RemoveAll(r[1..], B);
  }

  /** The symbols the intended iteration gathers lie in every closed set
      that holds no terminal: its result is the least closed set. */
  lemma {:induction false} LeastClosed(P: Productions, S: TR, order: seq<TR>, T: set<TR>)
    requires Justified(Intended, P, S, order)
    requires Closed(Intended, P, S, T) && forall x :: x in T ==> x.s.Some?
    ensures Elems(order) <= T
    decreases |order|
  {
    if |order| > 1 {
      var init, k := order[..|order| - 1], Last(order);
      assert order == init + [k];
      LeastClosed(P, S, init, T);
      var dl :| dl in P[k] && (Direct(dl) || ReducesBy(Intended, dl, Elems(init)));
      if k !in T {
        if ReducesBy(Intended, dl, Elems(init)) {
          ReducesMonotone(dl, Elems(init), T);
        }
      }
    }
  }

  /** Removing one occurrence of each mark in A first changes nothing for a
      removal of every mark in T, when A is part of T. */
  lemma {:induction false} RemoveAllAfterFirsts(dl: seq<TR>, A: set<TR>, T: set<TR>)
    requires A <= T
    ensures RemoveAll(RemoveFirsts(dl, A), T) == RemoveAll(dl, T)
  {
    if dl != [] {
      if dl[0] in A {
        RemoveAllAfterFirsts(dl[1..], A - {dl[0]}, T);
      } else {
        var r := [dl[0]] + RemoveFirsts(dl[1..], A);
        assert r[0] == dl[0] && r[1..] == RemoveFirsts(dl[1..], A);
        RemoveAllAfterFirsts(dl[1..], A, T);
      }
    }
  }

  /** A right-hand side the second pass as written accepts is accepted by
      the intended one too, as long as no terminal is marked. */
  lemma ReducesAsWritten(dl: seq<TR>, T: set<TR>)
    requires forall x :: x in T ==> x.s.Some?
    requires ReducesBy(AsWritten, dl, T)
    ensures ReducesBy(Intended, dl, T)
  {
    var r := RemoveFirsts(dl, T);
    RemoveAllAfterFirsts(dl, T, T);
    assert r == [r[0]] && r[0] !in T;
    assert RemoveAll(r, T) == [r[0]] + RemoveAll(r[1..], T);
  }

  /** An order the loop as written justifies is justified for the intended
      removal, as long as it holds no terminal. */
  lemma {:induction false} JustifiedAsWritten(P: Productions, S: TR, order: seq<TR>)
    requires Justified(AsWritten, P, S, order)
    requires forall x :: x in order ==> x.s.Some?
    ensures Justified(Intended, P, S, order)
    decreases |order|
  {
    if |order| > 1 {
      var init, k := order[..|order| - 1], Last(order);
      assert forall x :: x in init ==> x in order;
      JustifiedAsWritten(P, S, init);
      var dl :| dl in P[k] && (Direct(dl) || ReducesBy(AsWritten, dl, Elems(init)));
      if !Direct(dl) {
        ReducesAsWritten(dl, Elems(init));
      }
    }
  }

  /** What the loop as written marks lies within what the intended loop
      marks: within every closed set for the intended removal that holds no
      terminal. */
  lemma AsWrittenWithinIntended(P: Productions, S: TR, order: seq<TR>, T: set<TR>)
    requires Justified(AsWritten, P, S, order) && forall x :: x in order ==> x.s.Some?
    requires Closed(Intended, P, S, T) && forall x :: x in T ==> x.s.Some?
    ensures Elems(order) <= T
  {
    JustifiedAsWritten(P, S, order);
    LeastClosed(P, S, order, T);
  }

  /** A justified order starts with S, and each later symbol has a right-hand
      side accepted on the symbols before it. */
  lemma {:induction false} JustifiedAt(rm: Removal, P: Productions, S: TR, order: seq<TR>, i: nat)
    returns (dl: seq<TR>)
    requires Justified(rm, P, S, order) && 0 < i < |order|
    ensures order[0] == S && order[i] in P && dl in P[order[i]]
    ensures Direct(dl) || ReducesBy(rm, dl, Elems(order[..i]))
    decreases |order|
  {
    var init := order[..|order| - 1];
    if i == |order| - 1 {
      dl :| dl in P[Last(order)] && (Direct(dl) || ReducesBy(rm, dl, Elems(init)));
      if |init| > 1 {
        var first := JustifiedAt(rm, P, S, init, 1);
      }
    } else {
      dl := JustifiedAt(rm, P, S, init, i);
      assert init[..i] == order[..i];
    }
  }

  /** NPDA._copyP: a new dictionary with the same keys and lists. */
  method CopyP(P: Productions) returns (PP: Productions)
    ensures PP == P
  {
    PP := map[];
    var keys := Enumerate(P.Keys);
    var i := 0;
    while i < |keys|
      invariant 0 <= i <= |keys|
      invariant PP.Keys == Elems(keys[..i])
      invariant forall k' :: k' in PP ==> PP[k'] == P[k']
    {
      var k := keys[i];
      var dList := P[k];
      ElemsSnoc(keys, i);
      PP := PP[k := []];
      var j := 0;
      while j < |dList|
        invariant 0 <= j <= |dList|
        invariant PP.Keys == Elems(keys[..i + 1]) && PP[k] == dList[..j]
        invariant forall k' :: k' in PP && k' != k ==> PP[k'] == P[k']
      {
        PP := PP[k := PP[k] + [dList[j]]];
        assert dList[..j + 1] == dList[..j] + [dList[j]];
        j := j + 1;
      }
      assert dList[..j] == dList;
      i := i + 1;
    }
    assert keys[..i] == keys;
  }

  ghost predicate Inv(rm: Removal, P: Productions, S: TR, PP: Productions, T: set<TR>, order: seq<TR>)
  {
    S in T && T <= P.Keys + {S} && Justified(rm, P, S, order) && Elems(order) == T &&
    PP.Keys == P.Keys && forall k :: k in P ==> PP[k] == P[k] || (k in T && PP[k] == [[]])
  }

  /** Marking k keeps the invariant when k is marked already or has a right-hand
      side either pass accepts; order grows by k when k is new. */
  lemma Mark(rm: Removal, P: Productions, S: TR, PP: Productions, T: set<TR>, order: seq<TR>, k: TR, dl: seq<TR>)
    requires Inv(rm, P, S, PP, T, order) && k in P
    requires k in T || (dl in P[k] && (Direct(dl) || ReducesBy(rm, dl, T)))
    ensures Inv(rm, P, S, PP[k := [[]]], T + {k}, Marked(order, T, k))
  {
    if k !in T {
      var o := order + [k];
      assert Last(o) == k && o[..|o| - 1] == order;
      assert Elems(o) == Elems(order) + {k};
    }
  }

  /** order, extended by k when k is not marked yet. */
  function Marked(order: seq<TR>, T: set<TR>, k: TR): seq<TR>
  {
    if k in T then order else order + [k]
  }

  /** The scan of one list in the first pass. */
  method AnyDirect(lList: seq<seq<TR>>) returns (terminate: bool)
    ensures terminate <==> exists dl :: dl in lList && Direct(dl)
  {
    terminate := false;
    var i := 0;
    while i < |lList|
      invariant 0 <= i <= |lList|
      invariant terminate <==> exists j :: 0 <= j < i && Direct(lList[j])
    {
      var dl := lList[i];
      if |dl| == 0 {
        terminate := true;
      }
      if |dl| == 1 && dl[0].s.None? {
        terminate := true;
      }
      i := i + 1;
    }
    if exists dl :: dl in lList && Direct(dl) {
      var dl :| dl in lList && Direct(dl);
      var j :| 0 <= j < |lList| && lList[j] == dl;
    }
  }

  /** The first pass: every left-hand side with an empty or single-terminal
      right-hand side is marked and its dummy list emptied. */
  method FirstPass(rm: Removal, P: Productions, S: TR, keys: seq<TR>, PP: Productions, tKeys: set<TR>, ghost order: seq<TR>)
    returns (PP': Productions, tKeys': set<TR>, ghost order': seq<TR>)
    requires Elems(keys) == P.Keys && Inv(rm, P, S, PP, tKeys, order)
    ensures Inv(rm, P, S, PP', tKeys', order') && tKeys <= tKeys'
    ensures forall k :: k in P && k !in tKeys' ==> forall dl :: dl in P[k] ==> !Direct(dl)
  {
    PP', tKeys', order' := PP, tKeys, order;
    var i := 0;
    while i < |keys|
      invariant 0 <= i <= |keys|
      invariant Inv(rm, P, S, PP', tKeys', order') && tKeys <= tKeys'
      invariant forall j :: 0 <= j < i && keys[j] !in tKeys' ==> forall dl :: dl in P[keys[j]] ==> !Direct(dl)
    {
      var k := keys[i];
      assert k in Elems(keys);
      var lList := PP'[k];
      var terminate := AnyDirect(lList);
      if terminate {
        ghost var dl: seq<TR> := [];
        if k !in tKeys' {
          dl :| dl in lList && Direct(dl);
        }
        Mark(rm, P, S, PP', tKeys', order', k, dl);
        order' := Marked(order', tKeys', k);
        tKeys' := tKeys' + {k};
        PP' := PP'[k := [[]]];
      }
      i := i + 1;
    }
    forall k | k in P && k !in tKeys'
      ensures forall dl :: dl in P[k] ==> !Direct(dl)
    {
      var j :| 0 <= j < |keys| && keys[j] == k;
    }
  }

  /** The scan of one unmarked left-hand side k in the second pass: k is
      marked as soon as one of its right-hand sides reduces. */
  method ReduceKey(rm: Removal, P: Productions, S: TR, k: TR, PP: Productions, tKeys: set<TR>, ghost order: seq<TR>)
    returns (PP': Productions, tKeys': set<TR>, ghost order': seq<TR>, found: bool)
    requires k in P && k !in tKeys && Inv(rm, P, S, PP, tKeys, order)
    ensures Inv(rm, P, S, PP', tKeys', order') && tKeys <= tKeys'
    ensures found ==> k in tKeys'
    ensures !found ==> tKeys' == tKeys && forall dl :: dl in P[k] ==> !ReducesBy(rm, dl, tKeys)
  {
    PP', tKeys', order', found := PP, tKeys, order, false;
    var dList := PP[k];
    var x := 0;
    while x < |dList|
      invariant 0 <= x <= |dList|
      invariant Inv(rm, P, S, PP', tKeys', order') && tKeys <= tKeys'
      invariant found ==> k in tKeys'
      invariant !found ==> tKeys' == tKeys && forall l :: 0 <= l < x ==> !ReducesBy(rm, dList[l], tKeys)
    {
      var dll := dList[x];
      var dl := RemoveMarkedBy(rm, dll, tKeys');
      if |dl| == 1 && dl[0].s.None? {
        Mark(rm, P, S, PP', tKeys', order', k, dll);
        order' := Marked(order', tKeys', k);
        PP' := PP'[k := [[]]];
        tKeys' := tKeys' + {k};
        found := true;
      }
      x := x + 1;
    }
  }

  /** The second pass over the left-hand sides not yet marked; `find` says
      whether it marked any. */
  method SecondPass(rm: Removal, P: Productions, S: TR, keys: seq<TR>, PP: Productions, tKeys: set<TR>, ghost order: seq<TR>)
    returns (PP': Productions, tKeys': set<TR>, ghost order': seq<TR>, find: bool)
    requires Elems(keys) == P.Keys && Inv(rm, P, S, PP, tKeys, order)
    ensures Inv(rm, P, S, PP', tKeys', order') && tKeys <= tKeys'
    ensures find ==> tKeys' != tKeys
    ensures !find ==> tKeys' == tKeys &&
                      forall k :: k in P && k !in tKeys ==> forall dl :: dl in P[k] ==> !ReducesBy(rm, dl, tKeys)
  {
    PP', tKeys', order', find := PP, tKeys, order, false;
    var i := 0;
    while i < |keys|
      invariant 0 <= i <= |keys|
      invariant Inv(rm, P, S, PP', tKeys', order') && tKeys <= tKeys'
      invariant find ==> tKeys' != tKeys
      invariant !find ==> tKeys' == tKeys &&
                          forall j :: 0 <= j < i && keys[j] !in tKeys ==> forall dl :: dl in P[keys[j]] ==> !ReducesBy(rm, dl, tKeys)
    {
      var k := keys[i];
      assert k in Elems(keys);
      if k !in tKeys' {
        var found;
        PP', tKeys', order', found := ReduceKey(rm, P, S, k, PP', tKeys', order');
        if found {
          find := true;
        }
      }
      i := i + 1;
    }
    if !find {
      forall k | k in P && k !in tKeys
        ensures forall dl :: dl in P[k] ==> !ReducesBy(rm, dl, tKeys)
      {
        var j :| 0 <= j < |keys| && keys[j] == k;
      }
    }
  }

  lemma CardGrows(A: set<TR>, B: set<TR>, U: set<TR>)
    requires A <= B <= U && A != B
    ensures |B| <= |U| && |U| - |B| < |U| - |A|
  {
    assert B == A + (B - A) && A !! (B - A);
    assert U == B + (U - B) && B !! (U - B);
    assert B - A != {};
  }

  /** NPDA._removeUnterminated(P, S) with the intended removal: repeats both
      passes until the second marks nothing. The result is closed and
      justified, so by LeastClosed it is the least closed set. */
  method RemoveUnterminated(P: Productions, S: TR, rm: Removal) returns (tKeys: set<TR>, ghost order: seq<TR>)
    ensures Closed(rm, P, S, tKeys) && Justified(rm, P, S, order) && Elems(order) == tKeys
  {
    var PP := CopyP(P);
    var keys := Enumerate(PP.Keys);
    tKeys, order := {S}, [S];
    while true
      invariant Inv(rm, P, S, PP, tKeys, order)
      decreases |P.Keys + {S}| - |tKeys|
    {
      ghost var before := tKeys;
      var find;
      PP, tKeys, order, find := Round(rm, P, S, keys, PP, tKeys, order);
      if !find {
        break;
      }
      CardGrows(before, tKeys, P.Keys + {S});
    }
  }

  /** One round of the while loop: the first pass, then the second; a round
      that marks nothing new leaves the marked set closed. */
  method Round(rm: Removal, P: Productions, S: TR, keys: seq<TR>, PP: Productions, tKeys: set<TR>, ghost order: seq<TR>)
    returns (PP': Productions, tKeys': set<TR>, ghost order': seq<TR>, find: bool)
    requires Elems(keys) == P.Keys && Inv(rm, P, S, PP, tKeys, order)
    ensures Inv(rm, P, S, PP', tKeys', order') && tKeys <= tKeys'
    ensures find ==> tKeys' != tKeys
    ensures !find ==> Closed(rm, P, S, tKeys')
  {
    PP', tKeys', order' := FirstPass(rm, P, S, keys, PP, tKeys, order);
    PP', tKeys', order', find := SecondPass(rm, P, S, keys, PP', tKeys', order');
  }

  /** Over non-terminals alone, the intended removal leaves non-terminals,
      and leaves nothing exactly when every one is marked. */
  lemma {:induction false} RemoveAllTriples(ts: seq<TR>, T: set<TR>)
    requires AllTriples(ts)
    ensures AllTriples(RemoveAll(ts, T))
    ensures RemoveAll(ts, T) == [] <==> forall i :: 0 <= i < |ts| ==> ts[i] in T
  {
    if ts != [] {
      assert AllTriples(ts[1..]) by {
        forall i | 0 <= i < |ts[1..]| ensures ts[1..][i].s.Some? {
          assert ts[1..][i] == ts[i + 1];
        }
      }
      RemoveAllTriples(ts[1..], T);
      var head: seq<TR> := if ts[0] in T then [] else [ts[0]];
      var r := RemoveAll(ts, T);
      assert r == head + RemoveAll(ts[1..], T);
      forall i | 0 <= i < |r| ensures r[i].s.Some? {
        if i >= |head| {
          assert r[i] == RemoveAll(ts[1..], T)[i - |head|];
        }
      }
      if forall i :: 0 <= i < |ts| ==> ts[i] in T {
        forall i | 0 <= i < |ts[1..]| ensures ts[1..][i] in T {
          assert ts[1..][i] == ts[i + 1];
        }
      }
      if r == [] {
        forall i | 0 <= i < |ts| ensures ts[i] in T {
          if i > 0 {
            assert ts[i] == ts[1..][i - 1];
          }
        }
      }
    }
  }

  /** With the intended removal, a rule a [..] ... [..] of the construction
      reduces exactly when every one of its non-terminals is marked. */
  lemma ReducesAllIff(a: string, ts: seq<TR>, T: set<TR>)
    requires AllTriples(ts) && Term(a) !in T
    ensures ReducesBy(Intended, [Term(a)] + ts, T) <==> forall i :: 0 <= i < |ts| ==> ts[i] in T
  {
    assert ([Term(a)] + ts)[1..] == ts;
    RemoveAllTriples(ts, T);
    var r := RemoveAll(ts, T);
    assert RemoveAll([Term(a)] + ts, T) == [Term(a)] + r;
    if r != [] {
      assert r[0].s.Some?;
    }
  }

  /** The rules toCfg builds for the PDA with one state q, start symbol Z and
      the moves (q, a, Z) -> (q, [A, A]) and (q, a, A) -> (q, []), which
      accepts aaa by empty stack. */
  function RepeatedSymbolRules(): Productions
  {
    map[Start := [[Triple("q", "Z", "q")]],
        Triple("q", "Z", "q") := [[Term("a"), Triple("q", "A", "q"), Triple("q", "A", "q")]],
        Triple("q", "A", "q") := [[Term("a")]]]
  }

  /** The removal as written leaves a [q A q] in the rule of [q Z q],
      whatever is marked. */
  lemma RepeatedRuleStays(T: set<TR>)
    ensures !ReducesBy(AsWritten, [Term("a"), Triple("q", "A", "q"), Triple("q", "A", "q")], T)
  {
    var Y := Triple("q", "A", "q");
    var dl := [Term("a"), Y, Y];
    assert dl[1..] == [Y, Y] && [Y, Y][1..] == [Y] && [Y][1..] == [];
    var Ta := if Term("a") in T then T - {Term("a")} else T;
    var r := RemoveFirsts([Y, Y], Ta);
    var TY := if Y in Ta then Ta - {Y} else Ta;
    assert RemoveFirsts([Y], TY) == (if Y in TY then [] else [Y]);
    assert Y in r;
    if Term("a") !in T {
      assert RemoveFirsts(dl, T) == [Term("a")] + r;
    } else {
      assert RemoveFirsts(dl, T) == r;
    }
  }

  /** The loop as written on RepeatedSymbolRules: any set it can end with
      (closed and justified for the removal as written) is exactly
      {S, [q A q]}. The first pass marks [q A q], whose rule is a single
      terminal; the rule of [q Z q] keeps a [q A q] after the removal, so
      [q Z q] is never marked, and neither is anything that needs it. */
  lemma RepeatedSymbolDropped(T: set<TR>, order: seq<TR>)
    requires Closed(AsWritten, RepeatedSymbolRules(), Start, T)
    requires Justified(AsWritten, RepeatedSymbolRules(), Start, order) && Elems(order) == T
    ensures T == {Start, Triple("q", "A", "q")}
  {
    var P, X, Y := RepeatedSymbolRules(), Triple("q", "Z", "q"), Triple("q", "A", "q");
    assert P[Y] == [[Term("a")]] && Direct([Term("a")]);
    assert Y in T;
    if X in T {
      var i :| 0 <= i < |order| && order[i] == X;
      if i == 0 {
        var first := JustifiedAt(AsWritten, P, Start, order, 1);
        assert false;
      }
      var dl := JustifiedAt(AsWritten, P, Start, order, i);
      assert P[X] == [[Term("a"), Y, Y]] && dl == [Term("a"), Y, Y];
      RepeatedRuleStays(Elems(order[..i]));
      assert false;
    }
    assert T <= P.Keys + {Start};
  }

  /** With the intended removal every closed set of RepeatedSymbolRules
      holds [q Z q], so the start rule survives. */
  lemma RepeatedSymbolKept(T: set<TR>)
    requires Closed(Intended, RepeatedSymbolRules(), Start, T)
    ensures Triple("q", "Z", "q") in T
  {
    var P, X, Y := RepeatedSymbolRules(), Triple("q", "Z", "q"), Triple("q", "A", "q");
    assert P[Y] == [[Term("a")]] && Direct([Term("a")]);
    assert Y in T;
    var dl := [Term("a"), Y, Y];
    assert Term("a") !in T;
    assert dl[1..] == [Y, Y] && [Y, Y][1..] == [Y] && [Y][1..] == [];
    assert RemoveAll([Y], T) == [] + RemoveAll([], T) == [];
    assert RemoveAll([Y, Y], T) == [] + RemoveAll([Y], T) == [];
    assert RemoveAll(dl, T) == [Term("a")];
    assert P[X] == [dl] && ReducesBy(Intended, dl, T);
  }
}
