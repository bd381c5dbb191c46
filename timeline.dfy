/** The timeline of timed entries. The source keeps them in a persistent
    red-black tree keyed by `[time, id]`, replacing the field with the tree each
    `insert`/`remove` returns. Here the tree is the sequence of its entries in
    key order, and its operations are functions. The order is the numeric one,
    first on the due time, then on the id; the tree is built with the library's
    default comparator, which the module JsKeyOrder examines. */
module Timeline {
  import opened Base

  datatype Key = Key(time: int, id: nat)

  function KeyOf(e: ExecutionInfo): Key {
    Key(e.time, e.id)
  }

  /** Numeric lexicographic order on `(time, id)`. */
  predicate KeyLess(a: Key, b: Key) {
    a.time < b.time || (a.time == b.time && a.id < b.id)
  }

  /** Entries in strictly increasing key order. */
  predicate Sorted(t: seq<ExecutionInfo>) {
    forall i, j :: 0 <= i < j < |t| ==> KeyLess(KeyOf(t[i]), KeyOf(t[j]))
  }

  /** `tree.keys` as a set. */
  function Keys(t: seq<ExecutionInfo>): set<Key> {
    set e | e in t :: KeyOf(e)
  }

  /** The first entry of a sorted timeline has the least key of all. */
  lemma FirstIsLeast(t: seq<ExecutionInfo>, x: ExecutionInfo)
    requires Sorted(t) && x in t && x != t[0]
    ensures KeyLess(KeyOf(t[0]), KeyOf(x))
  {
    var i :| 0 <= i < |t| && t[i] == x;
  }

  /** Every key of the tail of a sorted timeline exceeds the first key. */
  lemma TailAfterFirst(t: seq<ExecutionInfo>)
    requires Sorted(t) && t != []
    ensures Sorted(t[1..])
    ensures forall x :: x in t[1..] ==> KeyLess(KeyOf(t[0]), KeyOf(x))
    ensures KeyOf(t[0]) !in Keys(t[1..])
  {
    forall x | x in t[1..] ensures KeyLess(KeyOf(t[0]), KeyOf(x)) {
      var j :| 0 <= j < |t| - 1 && t[1..][j] == x;
      assert t[j + 1] == x;
    }
  }

  /** A sorted timeline extended at the front by a smaller key stays sorted. */
  lemma SortedPrepend(e: ExecutionInfo, t: seq<ExecutionInfo>)
    requires Sorted(t)
    requires forall x :: x in t ==> KeyLess(KeyOf(e), KeyOf(x))
    ensures Sorted([e] + t)
  {
    forall i, j | 0 <= i < j < |t| + 1
      ensures KeyLess(KeyOf(([e] + t)[i]), KeyOf(([e] + t)[j]))
    {
      assert ([e] + t)[j] == t[j - 1];
      if i > 0 {
        assert ([e] + t)[i] == t[i - 1];
      }
    }
  }

  /** `tree.insert([e.time, e.id], e)` for a key not yet present (the engine
      never inserts a present key). */
  function Insert(t: seq<ExecutionInfo>, e: ExecutionInfo): (r: seq<ExecutionInfo>)
    requires Sorted(t) && KeyOf(e) !in Keys(t)
    ensures Sorted(r)
    ensures forall x :: x in r <==> x == e || x in t
    ensures |r| == |t| + 1
  {
    if t == [] || KeyLess(KeyOf(e), KeyOf(t[0])) then
      assert forall x :: x in t ==> x == t[0] || KeyLess(KeyOf(t[0]), KeyOf(x)) by {
        forall x | x in t && x != t[0] ensures KeyLess(KeyOf(t[0]), KeyOf(x)) {
          FirstIsLeast(t, x);
        }
      }
      SortedPrepend(e, t);
      [e] + t
    else
      TailAfterFirst(t);
      assert KeyLess(KeyOf(t[0]), KeyOf(e));
      var rest := Insert(t[1..], e);
      SortedPrepend(t[0], rest);
      assert t == [t[0]] + t[1..];
      [t[0]] + rest
  }

  /** `tree.remove(k)`: drops the entry with key `k`; a key that is absent
      leaves the timeline as it is. */
  function Remove(t: seq<ExecutionInfo>, k: Key): (r: seq<ExecutionInfo>)
    requires Sorted(t)
    ensures Sorted(r)
    ensures forall x :: x in r <==> x in t && KeyOf(x) != k
    ensures k !in Keys(r)
    ensures k !in Keys(t) ==> r == t
    ensures |r| == if k in Keys(t) then |t| - 1 else |t|
  {
    if t == [] then []
    else
      TailAfterFirst(t);
      assert t == [t[0]] + t[1..];
      assert Keys(t) == {KeyOf(t[0])} + Keys(t[1..]);
      if KeyOf(t[0]) == k then
        t[1..]
      else
        var rest := Remove(t[1..], k);
        SortedPrepend(t[0], rest);
        [t[0]] + rest
  }
}
