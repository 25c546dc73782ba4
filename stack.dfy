/**
 * The lexically scoped variable store the Protelis VM uses while it evaluates
 * a program: an ordered list of scopes, each mapping a variable reference to a
 * value. In this model index 0 is the outermost (global) scope and the last
 * element is the current, innermost scope, so entering a scope appends.
 */
module Stack {
  import opened Wrappers

  /** The innermost scope of a non-empty scope list. */
  function Current<K, V>(s: seq<map<K, V>>): map<K, V>
    requires |s| >= 1
  {
    s[|s| - 1]
  }

  /** The scopes that enclose the innermost one: what is left after leaving it. */
  function Enclosing<K, V>(s: seq<map<K, V>>): seq<map<K, V>>
    requires |s| >= 1
  {
    s[..|s| - 1]
  }

  /** Index of the innermost scope that binds `k`, searching from the innermost outwards. */
  function Innermost<K, V>(s: seq<map<K, V>>, k: K): (r: Option<nat>)
    ensures r.Some? ==> r.value < |s| && k in s[r.value]
    ensures r.Some? ==> forall j :: r.value < j < |s| ==> k !in s[j]
    ensures r.None? <==> forall j :: 0 <= j < |s| ==> k !in s[j]
  {
    if |s| == 0 then None
    else if k in s[|s| - 1] then Some(|s| - 1)
    else Innermost(s[..|s| - 1], k)
  }

  /** The value `get` reports: the binding in the innermost scope that has one, or none. */
  function Lookup<K, V>(s: seq<map<K, V>>, k: K): (r: Option<V>)
    ensures r.None? <==> forall j :: 0 <= j < |s| ==> k !in s[j]
    ensures r.Some? ==> exists i :: 0 <= i < |s| && k in s[i] && s[i][k] == r.value &&
                                    forall j :: i < j < |s| ==> k !in s[j]
  {
    match Innermost(s, k)
    case Some(i) => Some(s[i][k])
    case None => None
  }

  /**
   * The scope a put of `k` writes into: the current scope when shadowing is
   * allowed; otherwise the innermost scope that already binds `k`, or the
   * current scope when no scope does.
   */
  function Target<K, V>(s: seq<map<K, V>>, k: K, canShadow: bool): (t: nat)
    requires |s| >= 1
    ensures t < |s|
    ensures canShadow ==> t == |s| - 1
    ensures !canShadow ==> forall j :: t < j < |s| ==> k !in s[j]
    ensures !canShadow && k !in s[t] ==> t == |s| - 1 && forall j :: 0 <= j < |s| ==> k !in s[j]
  {
    if canShadow then |s| - 1
    else match Innermost(s, k)
      case Some(i) => i
      case None => |s| - 1
  }

  /** The scope list after `put(k, v, canShadow)`. */
  function Assign<K, V>(s: seq<map<K, V>>, k: K, v: V, canShadow: bool): seq<map<K, V>>
    requires |s| >= 1
  {
    var t := Target(s, k, canShadow);
    s[t := s[t][k := v]]
  }

  /** The value `put(k, v, canShadow)` returns: the one it overwrote, if any. */
  function Overwritten<K, V>(s: seq<map<K, V>>, k: K, canShadow: bool): Option<V>
    requires |s| >= 1
  {
    var t := Target(s, k, canShadow);
    if k in s[t] then Some(s[t][k]) else None
  }

  /** The scope list after `putAll(m)`: every pair of `m` bound in the current scope. */
  function BindAll<K, V>(s: seq<map<K, V>>, m: map<K, V>): seq<map<K, V>>
    requires |s| >= 1
  {
    s[|s| - 1 := s[|s| - 1] + m]
  }

  // ---------------------------------------------------------------------------
  // Laws of the scope list
  // ---------------------------------------------------------------------------

  /** A binding with no binding of the same variable inside it is the one lookup finds. */
  lemma LookupAt<K, V>(s: seq<map<K, V>>, k: K, i: nat)
    requires i < |s| && k in s[i]
    requires forall j :: i < j < |s| ==> k !in s[j]
    ensures Lookup(s, k) == Some(s[i][k])
  {
  }

  /** Lookup consults the current scope first and only then the enclosing ones. */
  lemma LookupPeel<K, V>(s: seq<map<K, V>>, k: K)
    requires |s| >= 1
    ensures Lookup(s, k) == if k in Current(s) then Some(Current(s)[k]) else Lookup(Enclosing(s), k)
  {
  }

  /** Entering a new scope leaves every existing binding visible. */
  lemma PushKeepsBindings<K, V>(s: seq<map<K, V>>, k: K)
    ensures Lookup(s + [map[]], k) == Lookup(s, k)
  {
  }

  /** After leaving the innermost scope, a variable bound only there is no longer visible. */
  lemma PopForgetsInnermost<K, V>(s: seq<map<K, V>>, k: K)
    requires |s| >= 2
    requires forall j :: 0 <= j < |s| - 1 ==> k !in s[j]
    ensures Lookup(Enclosing(s), k) == None
    ensures k in Current(s) ==> Lookup(s, k) == Some(Current(s)[k])
  {
  }

  /** Shadowing changes the current scope only; the enclosing scopes are untouched. */
  lemma ShadowChangesOnlyCurrent<K, V>(s: seq<map<K, V>>, k: K, v: V)
    requires |s| >= 1
    ensures |Assign(s, k, v, true)| == |s|
    ensures Enclosing(Assign(s, k, v, true)) == Enclosing(s)
    ensures Current(Assign(s, k, v, true)) == Current(s)[k := v]
    ensures Overwritten(s, k, true) == if k in Current(s) then Some(Current(s)[k]) else None
  {
  }

  /**
   * Without shadowing, a variable bound in an enclosing scope (and not in the
   * current one) is overwritten where it lives: the current scope gains no
   * binding, the enclosing scopes see the new value, and the old one is returned.
   */
  lemma OverwriteReachesEnclosing<K, V>(s: seq<map<K, V>>, k: K, v: V)
    requires |s| >= 2
    requires k !in Current(s) && Lookup(Enclosing(s), k).Some?
    ensures |Assign(s, k, v, false)| == |s|
    ensures Current(Assign(s, k, v, false)) == Current(s)
    ensures Lookup(Enclosing(Assign(s, k, v, false)), k) == Some(v)
    ensures Overwritten(s, k, false) == Lookup(Enclosing(s), k)
  {
    var t := Target(s, k, false);
    var s' := Assign(s, k, v, false);
    assert t < |s| - 1;
    assert Enclosing(s')[t] == s'[t];
    LookupAt(Enclosing(s'), k, t);
    LookupPeel(s, k);
    LookupAt(s, k, t);
  }

  /** Without shadowing, put returns exactly the value get reported before it. */
  lemma OverwriteReturnsVisibleValue<K, V>(s: seq<map<K, V>>, k: K)
    requires |s| >= 1
    ensures Overwritten(s, k, false) == Lookup(s, k)
  {
  }

  /** Immediately after a put, get returns the value just stored. */
  lemma GetAfterPut<K, V>(s: seq<map<K, V>>, k: K, v: V, canShadow: bool)
    requires |s| >= 1
    ensures Lookup(Assign(s, k, v, canShadow), k) == Some(v)
  {
    var t := Target(s, k, canShadow);
    LookupAt(Assign(s, k, v, canShadow), k, t);
  }

  /** A put of one variable does not change what get reports for any other. */
  lemma PutLeavesOtherVariables<K, V>(s: seq<map<K, V>>, k: K, v: V, canShadow: bool, other: K)
    requires |s| >= 1 && other != k
    ensures Lookup(Assign(s, k, v, canShadow), other) == Lookup(s, other)
  {
    var s' := Assign(s, k, v, canShadow);
    assert forall j :: 0 <= j < |s| ==> (other in s'[j] <==> other in s[j]);
    match Innermost(s, other)
    case Some(i) =>
      LookupAt(s', other, i);
    case None =>
  }

  /**
   * The round trip the language relies on: enter a scope, shadow `k`, and
   * leave it again. Inside, `k` reads as the new value; afterwards the scope
   * list is exactly as before, so the outer value (or its absence) is back.
   */
  lemma ShadowIsUndoneByPop<K, V>(s: seq<map<K, V>>, k: K, v: V)
    ensures Lookup(Assign(s + [map[]], k, v, true), k) == Some(v)
    ensures Overwritten(s + [map[]], k, true) == None
    ensures Enclosing(Assign(s + [map[]], k, v, true)) == s
  {
  }

  /**
   * Enter a scope, put `k` without shadowing while an enclosing scope binds
   * it, and leave the scope: the enclosing binding now holds the new value.
   */
  lemma OverwriteSurvivesPop<K, V>(s: seq<map<K, V>>, k: K, v: V)
    requires Lookup(s, k).Some?
    ensures Current(Assign(s + [map[]], k, v, false)) == map[]
    ensures Lookup(Enclosing(Assign(s + [map[]], k, v, false)), k) == Some(v)
    ensures Overwritten(s + [map[]], k, false) == Lookup(s, k)
  {
    assert Enclosing(s + [map[]]) == s;
    OverwriteReachesEnclosing(s + [map[]], k, v);
  }

  /**
   * putAll binds every pair of `m` in the current scope, shadowing outer
   * bindings, keeps the enclosing scopes and the number of scopes, and leaves
   * every variable outside `m` as it was.
   */
  lemma BindAllBindsInCurrent<K, V>(s: seq<map<K, V>>, m: map<K, V>, k: K)
    requires |s| >= 1
    ensures |BindAll(s, m)| == |s|
    ensures Enclosing(BindAll(s, m)) == Enclosing(s)
    ensures Lookup(BindAll(s, m), k) == if k in m then Some(m[k]) else Lookup(s, k)
  {
  }

  // ---------------------------------------------------------------------------
  // The store as the VM holds it: a mutable object
  // ---------------------------------------------------------------------------

  /** A variable store whose scope list is updated in place by its commands. */
  class ScopeStack<K(==), V> {
    var scopes: seq<map<K, V>>

    /** The base scope is never removed. */
    ghost predicate Valid()
      reads this
    {
      |scopes| >= 1
    }

    /** A store holding only its base scope, filled with `globals`. */
    constructor (globals: map<K, V>)
      ensures Valid() && scopes == [globals]
    {
      scopes := [globals];
    }

    /** Enter a new nested lexical scope. */
    method Push()
      requires Valid()
      modifies this
      ensures Valid()
      ensures scopes == old(scopes) + [map[]]
      ensures forall k :: Get(k) == Lookup(old(scopes), k)
    {
      scopes := scopes + [map[]];
      forall k ensures Lookup(scopes, k) == Lookup(old(scopes), k) {
        PushKeepsBindings(old(scopes), k);
      }
    }

    /** Exit the current most-nested lexical scope. */
    method Pop()
      requires Valid() && |scopes| >= 2
      modifies this
      ensures Valid()
      ensures scopes == Enclosing(old(scopes))
    {
      scopes := scopes[..|scopes| - 1];
    }

    /**
     * Bind `v` to `k`, shadowing outer bindings when `canShadow` holds and
     * otherwise overwriting the nearest binding; returns the overwritten value.
     */
    method Put(k: K, v: V, canShadow: bool) returns (prior: Option<V>)
      requires Valid()
      modifies this
      ensures Valid()
      ensures scopes == Assign(old(scopes), k, v, canShadow)
      ensures prior == Overwritten(old(scopes), k, canShadow)
      ensures Get(k) == Some(v)
      ensures forall other :: other != k ==> Get(other) == Lookup(old(scopes), other)
    {
      var t := Target(scopes, k, canShadow);
      prior := if k in scopes[t] then Some(scopes[t][k]) else None;
      scopes := scopes[t := scopes[t][k := v]];
      GetAfterPut(old(scopes), k, v, canShadow);
      forall other | other != k ensures Lookup(scopes, other) == Lookup(old(scopes), other) {
        PutLeavesOtherVariables(old(scopes), k, v, canShadow, other);
      }
    }

    /** Bind every pair of `m` into the current lexical scope. */
    method PutAll(m: map<K, V>)
      requires Valid()
      modifies this
      ensures Valid()
      ensures scopes == BindAll(old(scopes), m)
      ensures forall k :: Get(k) == if k in m then Some(m[k]) else Lookup(old(scopes), k)
    {
      scopes := scopes[|scopes| - 1 := scopes[|scopes| - 1] + m];
      forall k ensures Lookup(scopes, k) == if k in m then Some(m[k]) else Lookup(old(scopes), k) {
        BindAllBindsInCurrent(old(scopes), m, k);
      }
    }

    /** Look up `k` from the innermost scope outwards; changes nothing. */
    function Get(k: K): (r: Option<V>)
      reads this
      ensures r.None? <==> forall j :: 0 <= j < |scopes| ==> k !in scopes[j]
      ensures r.Some? ==> exists i :: 0 <= i < |scopes| && k in scopes[i] && scopes[i][k] == r.value &&
                                      forall j :: i < j < |scopes| ==> k !in scopes[j]
    {
      Lookup(scopes, k)
    }
  }
}

/**
 * A client of the store that relies on the contracts alone: a shadowing put is
 * undone by leaving its scope, a non-shadowing one outlives it.
 */
module StackClient {
  import opened Wrappers
  import opened Stack

  method ShadowAndOverwrite() {
    var st := new ScopeStack<string, int>(map["x" := 1]);
    st.Push();
    var prior := st.Put("x", 2, true);
    assert prior == None && st.Get("x") == Some(2);
    st.Pop();
    assert st.Get("x") == Some(1);
    st.Push();
    prior := st.Put("x", 3, false);
    assert prior == Some(1) && st.Get("x") == Some(3);
    st.Pop();
    assert st.Get("x") == Some(3);
  }
}
