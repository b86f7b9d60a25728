/** stack.py: a LIFO container whose top is the last element of `elements`,
    and two palindrome checkers, one recursive, one built on the stack. */
module Stacks {
  import opened Util

  /** What Stack(data) is given: nothing, another stack, a sequence, or
      something else. */
  datatype InitArg<T> = NoData | StackData(items: seq<T>) | SequenceData(items: seq<T>) | OtherData

  datatype InitError = TypeError | ValueError

  datatype InitResult<T> = Built(elements: seq<T>) | Raised(error: InitError)

  /** Stack.__init__ as written: `isinstance(data, 'Stack')` passes a string
      where Python wants a type, so every call with data raises TypeError
      before either branch is reached. */
  function InitAsWritten<T>(data: InitArg<T>): (r: InitResult<T>)
    ensures r.Built? <==> data.NoData?
    ensures r.Built? ==> r.elements == []
    ensures r.Raised? ==> r.error == TypeError
  {
    match data
    case NoData => Built([])
    case _ => Raised(TypeError)
  }

  /** Copying a stack, the use made of the constructor when an NPDA forks,
      raises instead of copying; so does building from a sequence. */
  lemma StackArgumentRaises<T>(items: seq<T>)
    ensures InitAsWritten(StackData(items)) == Raised(TypeError)
    ensures InitAsWritten(SequenceData(items)) == Raised(TypeError)
  {
  }

  class Stack<T> {
    /** The contents, bottom first: the top is the last element. */
    var elements: seq<T>

    /** Stack(): an empty stack. */
    constructor ()
      ensures elements == []
    {
      elements := [];
    }

    /** Stack(data) for a sequence: its elements are pushed in order, so the
        last one ends on top. */
    constructor FromSequence(data: seq<T>)
      ensures elements == data
    {
      elements := [];
      new;
      var i := 0;
      while i < |data|
        invariant 0 <= i <= |data|
        invariant elements == data[..i]
      {
        Push(data[i]);
        i := i + 1;
      }
    }

    /** Stack(other) as intended: a new stack holding other's elements, which
        later pushes and pops on either stack do not share. */
    constructor Copy(other: Stack<T>)
      ensures elements == other.elements
    {
      elements := other.elements;
    }

    method IsEmpty() returns (empty: bool)
      ensures empty <==> |elements| == 0
    {
      empty := |elements| == 0;
    }

    method Push(e: T)
      modifies this
      ensures elements == old(elements) + [e]
    {
      elements := elements + [e];
    }

    /** Removes and returns the top. */
    method Pop() returns (e: T)
      requires elements != []
      modifies this
      ensures e == old(elements)[|old(elements)| - 1]
      ensures elements == old(elements)[..|old(elements)| - 1]
    {
      e := elements[|elements| - 1];
      elements := elements[..|elements| - 1];
    }

    /** The top, left in place. */
    method Peek() returns (e: T)
      requires elements != []
      ensures e == elements[|elements| - 1]
    {
      e := elements[|elements| - 1];
    }

    method Size() returns (n: nat)
      ensures n == |elements|
    {
      n := |elements|;
    }

    /** Despite its name, a new stack with the same elements in the same
        order (it pushes them bottom first); this stack is left unchanged. */
    method Reversed() returns (r: Stack<T>)
      ensures fresh(r) && r.elements == elements
    {
      r := new Stack();
      var i := 0;
      while i < |elements|
        invariant 0 <= i <= |elements|
        invariant r.elements == elements[..i]
      {
        r.Push(elements[i]);
        i := i + 1;
      }
    }
  }

  /** push(e) followed by pop() hands back e and restores the contents;
      the size goes up by one and back down. */
  method PushThenPop<T>(s: Stack<T>, e: T) returns (x: T, grown: nat, restored: nat)
    modifies s
    ensures x == e && s.elements == old(s.elements)
    ensures grown == |old(s.elements)| + 1 && restored == |old(s.elements)|
  {
    s.Push(e);
    grown := s.Size();
    var top := s.Peek();
    assert top == e;
    x := s.Pop();
    restored := s.Size();
  }

  /** palindrome(s): the recursive checker. */
  predicate IsPalindrome(s: string)
    decreases |s|
  {
    if |s| <= 1 then true
    else if s[0] != s[|s| - 1] then false
    else IsPalindrome(s[1..|s| - 1])
  }

  /** Each character equals its mirror image. */
  ghost predicate Mirrored(s: string)
  {
    forall k :: 0 <= k < |s| ==> s[k] == s[|s| - 1 - k]
  }

  lemma {:induction false} PalindromeIsMirrored(s: string)
    ensures IsPalindrome(s) <==> Mirrored(s)
    decreases |s|
  {
    if |s| > 1 {
      var inner := s[1..|s| - 1];
      PalindromeIsMirrored(inner);
      if Mirrored(s) {
        forall k | 0 <= k < |inner| ensures inner[k] == inner[|inner| - 1 - k] {
          assert inner[k] == s[k + 1] && inner[|inner| - 1 - k] == s[|s| - 1 - (k + 1)];
        }
      }
      if s[0] == s[|s| - 1] && Mirrored(inner) {
        forall k | 0 <= k < |s| ensures s[k] == s[|s| - 1 - k] {
          if 0 < k < |s| - 1 {
            assert s[k] == inner[k - 1] && s[|s| - 1 - k] == inner[|inner| - 1 - (k - 1)];
          }
        }
      }
    }
  }

  /** palindrome(s) holds exactly when s reads the same reversed. */
  lemma PalindromeIffReversed(s: string)
    ensures IsPalindrome(s) <==> s == Reverse(s)
  {
    PalindromeIsMirrored(s);
    if s == Reverse(s) {
      forall k | 0 <= k < |s| ensures s[k] == s[|s| - 1 - k] {
        assert s[k] == Reverse(s)[k];
      }
    }
  }

  /** palindrome2(s): pushes the first half, skips the middle character of an
      odd-length string, then pops one character per position of the second
      half. It agrees with the recursive checker; the pops never meet an
      empty stack, because the second half is as long as the first. */
  method Palindrome2(s: string) returns (r: bool)
    ensures r == IsPalindrome(s)
  {
    PalindromeIsMirrored(s);
    var myStack := new Stack<char>();
    var n := |s|;
    var m := n / 2;
    var i := 0;
    while i < m
      invariant 0 <= i <= m
      invariant myStack.elements == s[..i]
    {
      myStack.Push(s[i]);
      i := i + 1;
    }
    if n % 2 != 0 {
      m := m + 1;
    }
    var j := m;
    while j < n
      invariant m <= j <= n
      invariant myStack.elements == s[..n - j]
      invariant forall k :: m <= k < j ==> s[k] == s[n - 1 - k]
    {
      var c := myStack.Pop();
      assert c == s[n - 1 - j];
      if c != s[j] {
        return false;
      }
      j := j + 1;
    }
    forall k | 0 <= k < n ensures s[k] == s[n - 1 - k] {
      if k < m {
        assert m <= n - 1 - k || k == n - 1 - k;
      }
    }
    return true;
  }
}
