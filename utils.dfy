/** Model of src/utils.ts: the id counter behind `uniqueId`, `setPop` over an
    insertion-ordered `Set`, and `CallStackObserver`. */
module Utils {
  import opened Wrappers

  /** The module-level counter `idNum` read and incremented by `uniqueId`. It is
      shared by every timer, so a timer holds a reference to it. */
  class IdAllocator {
    var idNum: nat

    ghost predicate Valid()
      reads this
    {
      idNum >= 1
    }

    constructor ()
      ensures Valid() && idNum == 1
    {
      idNum := 1;
    }

    /** `uniqueId`: returns the counter, then increments it. */
    method UniqueId() returns (id: nat)
      requires Valid()
      modifies this
      ensures Valid()
      ensures id == old(idNum) && idNum == id + 1
    {
      id := idNum;
      idNum := idNum + 1;
    }
  }

  // ---------------------------------------------------------------------------
  // A JavaScript `Set` is a collection without duplicates that remembers the
  // order in which its elements were first added. It is modelled by the
  // sequence of its elements in that order.

  predicate Distinct<T(==)>(s: seq<T>) {
    forall i, j :: 0 <= i < j < |s| ==> s[i] != s[j]
  }

  /** `Set.prototype.add`: appends an element that is not yet present. */
  function Added<T(==,!new)>(s: seq<T>, x: T): (r: seq<T>)
    ensures forall y :: y in r <==> y in s || y == x
    ensures Distinct(s) ==> Distinct(r)
    ensures x in s ==> r == s
    ensures x !in s ==> |r| == |s| + 1 && r[..|s|] == s
  {
    if x in s then s else s + [x]
  }

  /** `Set.prototype.delete`: removes the element if present; the others keep
      their order. */
  function Without<T(==,!new)>(s: seq<T>, x: T): (r: seq<T>)
    ensures forall y :: y in r <==> y in s && y != x
    ensures Distinct(s) ==> Distinct(r)
    ensures |r| <= |s|
  {
    if s == [] then []
    else if s[0] == x then Without(s[1..], x)
    else
      DistinctTail(s);
      DistinctPrepend(s[0], Without(s[1..], x));
      [s[0]] + Without(s[1..], x)
  }

  lemma DistinctTail<T>(s: seq<T>)
    requires s != []
    ensures Distinct(s) ==> Distinct(s[1..]) && s[0] !in s[1..]
  {
    if Distinct(s) {
      forall j | 0 <= j < |s| - 1 ensures s[1..][j] != s[0] {
        assert s[1..][j] == s[j + 1];
      }
    }
  }

  lemma DistinctPrepend<T>(a: T, w: seq<T>)
    ensures a !in w && Distinct(w) ==> Distinct([a] + w)
  {
    if a !in w && Distinct(w) {
      forall i, j | 0 <= i < j < |w| + 1 ensures ([a] + w)[i] != ([a] + w)[j] {
        if i == 0 {
          assert ([a] + w)[j] == w[j - 1];
        } else {
          assert ([a] + w)[i] == w[i - 1] && ([a] + w)[j] == w[j - 1];
        }
      }
    }
  }

  /** Deleting an element that is not present changes nothing. */
  lemma {:induction false} WithoutAbsent<T(!new)>(s: seq<T>, x: T)
    requires x !in s
    ensures Without(s, x) == s
  {
    if s != [] {
      WithoutAbsent(s[1..], x);
      assert s == [s[0]] + s[1..];
    }
  }

  /** In a set, deleting the first-inserted element leaves the others in order. */
  lemma WithoutFirst<T(!new)>(s: seq<T>)
    requires Distinct(s) && s != []
    ensures Without(s, s[0]) == s[1..]
  {
    DistinctTail(s);
    WithoutAbsent(s[1..], s[0]);
  }

  /** In a set, deleting the element at position `i` leaves the elements
      before it and the elements after it, each in their order. */
  lemma {:induction false} WithoutAt<T(!new)>(s: seq<T>, i: nat)
    requires Distinct(s) && i < |s|
    ensures Without(s, s[i]) == s[..i] + s[i + 1..]
  {
    if i == 0 {
      WithoutFirst(s);
    } else {
      var x, t := s[i], s[1..];
      assert s[0] != x;
      DistinctTail(s);
      assert t[i - 1] == x;
      WithoutAt(t, i - 1);
      assert Without(s, x) == [s[0]] + Without(t, x);
      assert t[..i - 1] == s[1..i] && t[i..] == s[i + 1..];
      assert [s[0]] + s[1..i] == s[..i];
    }
  }

  /** Deleting twice is deleting once. */
  lemma WithoutIdempotent<T(!new)>(s: seq<T>, x: T)
    ensures Without(Without(s, x), x) == Without(s, x)
  {
    WithoutAbsent(Without(s, x), x);
  }

  /** An insertion-ordered set that the program mutates in place. */
  class OrderedSet<T(==,!new)> {
    var elems: seq<T>

    ghost predicate Valid()
      reads this
    {
      Distinct(elems)
    }

    /** `new Set()` */
    constructor ()
      ensures Valid() && elems == []
    {
      elems := [];
    }

    /** `set.add(x)` */
    method Add(x: T)
      requires Valid()
      modifies this
      ensures Valid() && elems == Added(old(elems), x)
    {
      elems := Added(elems, x);
    }

    /** `set.delete(x)` */
    method Delete(x: T)
      requires Valid()
      modifies this
      ensures Valid() && elems == Without(old(elems), x)
    {
      elems := Without(elems, x);
    }
  }

  /** `setPop`: removes and returns the first-inserted element, or returns
      `undefined` and leaves an empty set unchanged. */
  method SetPop<T(==,!new)>(s: OrderedSet<T>) returns (r: Option<T>)
    requires s.Valid()
    modifies s
    ensures s.Valid()
    ensures old(s.elems) == [] ==> r == None && s.elems == []
    ensures old(s.elems) != [] ==> r == Some(old(s.elems)[0]) && s.elems == old(s.elems)[1..]
  {
    if s.elems == [] {
      r := None;
    } else {
      var v := s.elems[0];
      WithoutFirst(s.elems);
      s.Delete(v);
      r := Some(v);
    }
  }

  // ---------------------------------------------------------------------------

  /** `CallStackObserver`: an on/off switch over the host's "run after this
      turn" primitive (`setImmediate`/`clearImmediate`). `immediate` is the
      stored handle. The host's side is modelled by the set of continuations
      registered and neither run nor cleared yet, and a counter issuing fresh
      handles. `hasHandler` tells whether `onCallStackEmpty` is set. */
  class CallStackObserver {
    var immediate: Option<nat>
    var hasHandler: bool
    var pendingContinuations: set<nat>
    var nextHandle: nat

    ghost predicate Valid()
      reads this
    {
      && (forall h :: h in pendingContinuations ==> h < nextHandle)
      && (immediate.Some? ==> immediate.value < nextHandle)
    }

    /** The stored handle is exactly the continuation the host still holds. */
    ghost predicate Armed()
      reads this
    {
      pendingContinuations == if immediate.Some? then {immediate.value} else {}
    }

    constructor ()
      ensures Valid() && Armed()
      ensures immediate == None && !hasHandler && pendingContinuations == {}
    {
      immediate := None;
      hasHandler := false;
      pendingContinuations := {};
      nextHandle := 0;
    }

    /** `isOn`: a handle is stored; while armed, that is exactly when a
        continuation is pending with the host. */
    function IsOn(): (on: bool)
      reads this
      ensures Armed() ==> (on <==> pendingContinuations != {})
    {
      immediate.Some?
    }

    /** Assigning `onCallStackEmpty`. */
    method SetHandler()
      modifies this
      ensures hasHandler
      ensures immediate == old(immediate) && pendingContinuations == old(pendingContinuations)
      ensures nextHandle == old(nextHandle)
    {
      hasHandler := true;
    }

    /** `on`: registers one fresh continuation unless one is already stored. */
    method On()
      requires Valid()
      modifies this
      ensures Valid() && IsOn() && hasHandler == old(hasHandler)
      ensures old(immediate).Some? ==>
        immediate == old(immediate) && pendingContinuations == old(pendingContinuations)
        && nextHandle == old(nextHandle)
      ensures old(immediate).None? ==>
        immediate == Some(old(nextHandle)) && nextHandle == old(nextHandle) + 1
        && pendingContinuations == old(pendingContinuations) + {old(nextHandle)}
      ensures old(Armed()) ==> Armed()
    {
      if immediate.None? {
        immediate := Some(nextHandle);
        pendingContinuations := pendingContinuations + {nextHandle};
        nextHandle := nextHandle + 1;
      }
    }

    /** `off`: clears the stored continuation with the host (a no-op when there
        is none) and forgets the handle. */
    method Off()
      requires Valid()
      modifies this
      ensures Valid() && !IsOn() && hasHandler == old(hasHandler)
      ensures pendingContinuations ==
        old(pendingContinuations) - (if old(immediate).Some? then {old(immediate).value} else {})
      ensures nextHandle == old(nextHandle)
      ensures old(Armed()) ==> Armed()
    {
      if immediate.Some? {
        pendingContinuations := pendingContinuations - {immediate.value};
      }
      immediate := None;
    }

    /** The host runs pending continuation `h`. With a handler set, the
        observer turns off and on again, so it holds a fresh continuation
        before the handler is called; `callHandler` says whether it is. */
    method Fire(h: nat) returns (callHandler: bool)
      requires Valid() && h in pendingContinuations
      modifies this
      ensures Valid() && callHandler == hasHandler && hasHandler == old(hasHandler)
      ensures !callHandler ==>
        immediate == old(immediate) && nextHandle == old(nextHandle)
        && pendingContinuations == old(pendingContinuations) - {h}
      ensures callHandler ==>
        immediate == Some(old(nextHandle)) && nextHandle == old(nextHandle) + 1
        && pendingContinuations ==
           old(pendingContinuations) - {h}
           - (if old(immediate).Some? then {old(immediate).value} else {})
           + {old(nextHandle)}
      ensures callHandler && old(Armed()) ==> Armed() && pendingContinuations == {old(nextHandle)}
    {
      pendingContinuations := pendingContinuations - {h};
      callHandler := hasHandler;
      if hasHandler {
        Off();
        On();
      }
    }
  }
}
