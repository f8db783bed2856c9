/**
 * The listener registries of the generic event emitter the bridge is built
 * on, as insertion-ordered sequences. A listener is identified by an id,
 * standing for JavaScript function identity.
 */
module Registry {

  type ListenerId = nat

  /** One `on(name, listener)` registration of a typed channel. */
  datatype Registration = Registration(name: string, listener: ListenerId)

  /** The listeners registered for `name`, in registration order. */
  function ListenersFor(regs: seq<Registration>, name: string): (ls: seq<ListenerId>)
    ensures |ls| <= |regs|
    ensures forall l :: l in ls <==> Registration(name, l) in regs
  {
    if regs == [] then []
    else
      var rest := ListenersFor(regs[1..], name);
      assert forall r :: r in regs <==> r == regs[0] || r in regs[1..];
      if regs[0].name == name then [regs[0].listener] + rest else rest
  }

  /** The sequence without its first occurrence of `x` (unchanged when `x` is absent). */
  function RemoveFirst<T(==)>(s: seq<T>, x: T): (r: seq<T>)
    ensures x in s ==> |r| == |s| - 1
    ensures x !in s ==> r == s
  {
    if s == [] then []
    else
      assert s == [s[0]] + s[1..];
      if s[0] == x then s[1..] else [s[0]] + RemoveFirst(s[1..], x)
  }

  /** The position of the first occurrence of `x`. */
  function FirstIndex<T(==)>(s: seq<T>, x: T): (i: nat)
    requires x in s
    ensures i < |s| && s[i] == x && x !in s[..i]
  {
    if s[0] == x then 0
    else
      var j := FirstIndex(s[1..], x);
      assert s[..j + 1] == [s[0]] + s[1..][..j];
      j + 1
  }

  /** Removal takes out the first occurrence of `x` and keeps the rest in order. */
  lemma {:induction false} RemoveFirstIsFirstAndKeepsOrder<T>(s: seq<T>, x: T)
    requires x in s
    ensures RemoveFirst(s, x) == s[..FirstIndex(s, x)] + s[FirstIndex(s, x) + 1..]
  {
    if s[0] != x {
      RemoveFirstIsFirstAndKeepsOrder(s[1..], x);
      var j := FirstIndex(s[1..], x);
      assert s[..j + 1] == [s[0]] + s[1..][..j];
      assert s[j + 2..] == s[1..][j + 1..];
    }
  }

  /** Removal takes away one occurrence of `x` and keeps every other element. */
  lemma {:induction false} RemoveFirstKeepsOthers<T>(s: seq<T>, x: T)
    ensures multiset(RemoveFirst(s, x)) == multiset(s) - multiset{x}
  {
    if s != [] {
      assert s == [s[0]] + s[1..];
      if s[0] != x {
        RemoveFirstKeepsOthers(s[1..], x);
      }
    }
  }

  /** Registering appends the listener to its name's list and to no other. */
  lemma {:induction false} ListenersAfterOn(regs: seq<Registration>, r: Registration, name: string)
    ensures ListenersFor(regs + [r], name) ==
              ListenersFor(regs, name) + (if r.name == name then [r.listener] else [])
  {
    if regs != [] {
      assert (regs + [r])[1..] == regs[1..] + [r];
      ListenersAfterOn(regs[1..], r, name);
    }
  }

  /**
   * Removing a registration removes the listener's first occurrence from its
   * name's list; the lists of other names are unchanged.
   */
  lemma {:induction false} ListenersAfterOff(regs: seq<Registration>, r: Registration, name: string)
    ensures ListenersFor(RemoveFirst(regs, r), name) ==
              if r.name == name then RemoveFirst(ListenersFor(regs, name), r.listener)
              else ListenersFor(regs, name)
  {
    if regs != [] && regs[0] != r {
      ListenersAfterOff(regs[1..], r, name);
      assert RemoveFirst(regs, r) == [regs[0]] + RemoveFirst(regs[1..], r);
      assert ([regs[0]] + RemoveFirst(regs[1..], r))[1..] == RemoveFirst(regs[1..], r);
    }
  }

  /** Removing a registration leaves the lists of the other names as they were. */
  lemma OffLeavesOtherNames(regs: seq<Registration>, r: Registration)
    ensures forall n :: n != r.name ==> ListenersFor(RemoveFirst(regs, r), n) == ListenersFor(regs, n)
  {
    forall n | n != r.name ensures ListenersFor(RemoveFirst(regs, r), n) == ListenersFor(regs, n) {
      ListenersAfterOff(regs, r, n);
    }
  }
}
