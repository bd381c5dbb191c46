/** The order the timeline gets as written. The tree is created without a
    comparator (src/virtual.timer.ts:22), so the library falls back to
    comparing keys with JavaScript's `<`. On two arrays `<` converts both to
    strings (elements joined with ",") and compares the strings code unit by
    code unit. That order is not the numeric one: a key with a longer decimal
    due time can sort first. */
module JsKeyOrder {
  import opened Timeline

  function DigitChar(d: nat): (c: char)
    requires d < 10
    ensures '0' <= c <= '9'
  {
    ['0', '1', '2', '3', '4', '5', '6', '7', '8', '9'][d]
  }

  /** Decimal form of a natural number, as `String(n)` gives it for values
      below 10^21, with no leading zeros. */
  function Digits(n: nat): (r: string)
    ensures 1 <= |r|
    ensures forall i :: 0 <= i < |r| ==> '0' <= r[i] <= '9'
    ensures n < 10 <==> |r| == 1
  {
    if n < 10 then [DigitChar(n)] else Digits(n / 10) + [DigitChar(n % 10)]
  }

  function IntString(n: int): string {
    if n < 0 then "-" + Digits(-n) else Digits(n)
  }

  /** `String([time, id])` */
  function KeyString(k: Key): string {
    IntString(k.time) + "," + IntString(k.id)
  }

  /** JavaScript's `<` on strings: lexicographic on code units, a proper prefix
      first. */
  predicate StringLess(a: string, b: string) {
    if a == [] then b != []
    else if b == [] then false
    else a[0] < b[0] || (a[0] == b[0] && StringLess(a[1..], b[1..]))
  }

  /** `a < b` on two key arrays, as the default comparator evaluates it. */
  predicate JsKeyLess(a: Key, b: Key) {
    StringLess(KeyString(a), KeyString(b))
  }

  /** From start time 0, `setTimeout(f, 10000)` then `setTimeout(g, 9)` insert
      keys `[10000, 1]` and `[9, 2]`. As written, "10000,1" < "9,2", so the
      10000 ms entry is the tree's first key and fires first, moving the clock
      to 10000 and then back to 9. The numeric order puts `[9, 2]` first. */
  lemma JsKeyOrderMisordersDueTimes()
    ensures JsKeyLess(Key(10000, 1), Key(9, 2))
    ensures KeyLess(Key(9, 2), Key(10000, 1)) && !KeyLess(Key(10000, 1), Key(9, 2))
  {
    assert Digits(1) == "1";
    assert Digits(10) == Digits(1) + "0";
    assert Digits(100) == Digits(10) + "0";
    assert Digits(1000) == Digits(100) + "0";
    assert Digits(10000) == Digits(1000) + "0";
    var a := KeyString(Key(10000, 1));
    var b := KeyString(Key(9, 2));
    assert a[0] == '1';
    assert b == "9,2";
    assert a[0] < b[0];
  }
}
