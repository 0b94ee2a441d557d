/** Member order of the canonical JSON printer: `sorted` by the UTF-16 big-endian
bytes of the key (src/actl/domain/audit/canonical.py), which is the order by
UTF-16 code units of section 3.2.3 of RFC 8785.
*/
module CanonicalKeys {

  /******* UTF-16 *******/

  /** Code units of one character; characters beyond U+FFFF take a surrogate pair. */
  function Units(c: char): seq<int> {
    var n := c as int;
    if n < 0x1_0000 then [n]
    else [0xD800 + (n - 0x1_0000) / 0x400, 0xDC00 + (n - 0x1_0000) % 0x400]
  }

  function Utf16(s: string): seq<int> {
    if s == [] then [] else Units(s[0]) + Utf16(s[1..])
  }

  /** Big-endian bytes of code units. */
  function BigEndian(units: seq<int>): seq<int> {
    if units == [] then [] else [units[0] / 0x100, units[0] % 0x100] + BigEndian(units[1..])
  }

  /** `s.encode("utf-16-be")` */
  function Utf16Be(s: string): seq<int> {
    BigEndian(Utf16(s))
  }

  /** A unit is the character itself or half of its surrogate pair. */
  lemma UnitsDecode(c: char)
    ensures var u := Units(c);
      if c as int < 0x1_0000 then u == [c as int]
      else
        && |u| == 2 && 0xD800 <= u[0] < 0xDC00 <= u[1] < 0xE000
        && c as int == 0x1_0000 + (u[0] - 0xD800) * 0x400 + (u[1] - 0xDC00)
  {
  }

  lemma {:induction false} Utf16Injective(s: string, t: string)
    requires Utf16(s) == Utf16(t)
    ensures s == t
  {
    if s == [] || t == [] {
      assert s == [] && t == [];
    } else {
      var a, b := Units(s[0]), Units(t[0]);
      assert Utf16(s)[0] == a[0] && Utf16(t)[0] == b[0];
      assert |a| == |b|;
      if |a| == 2 { assert Utf16(s)[1] == a[1] && Utf16(t)[1] == b[1]; }
      assert s[0] == t[0];
      assert Utf16(s)[|a|..] == Utf16(s[1..]) && Utf16(t)[|a|..] == Utf16(t[1..]);
      Utf16Injective(s[1..], t[1..]);
      assert s == [s[0]] + s[1..] && t == [t[0]] + t[1..];
    }
  }

  /******* Lexicographic order *******/

  predicate LexLess(a: seq<int>, b: seq<int>) {
    b != [] && (a == [] || a[0] < b[0] || (a[0] == b[0] && LexLess(a[1..], b[1..])))
  }

  lemma {:induction false} LexTotal(a: seq<int>, b: seq<int>)
    ensures a == b || LexLess(a, b) || LexLess(b, a)
    ensures !(LexLess(a, b) && LexLess(b, a)) && !LexLess(a, a)
    decreases |a|
  {
    if a != [] {
      LexTotal(a[1..], a[1..]);
    }
    if a != [] && b != [] {
      LexTotal(a[1..], b[1..]);
      assert a == [a[0]] + a[1..] && b == [b[0]] + b[1..];
    }
  }

  lemma {:induction false} LexTransitive(a: seq<int>, b: seq<int>, c: seq<int>)
    requires LexLess(a, b) && LexLess(b, c)
    ensures LexLess(a, c)
    decreases |b|
  {
    if a != [] && a[0] == b[0] && b[0] == c[0] {
      LexTransitive(a[1..], b[1..], c[1..]);
    }
  }

  /** The byte order the code uses is the code-unit order the RFC asks for. */
  lemma {:induction false} ByteOrderIsUnitOrder(a: seq<int>, b: seq<int>)
    requires forall i :: 0 <= i < |a| ==> 0 <= a[i] < 0x1_0000
    requires forall i :: 0 <= i < |b| ==> 0 <= b[i] < 0x1_0000
    ensures LexLess(BigEndian(a), BigEndian(b)) <==> LexLess(a, b)
    decreases |a|
  {
    if a != [] && b != [] {
      ByteOrderIsUnitOrder(a[1..], b[1..]);
      var x, y := BigEndian(a), BigEndian(b);
      assert x[1..][1..] == BigEndian(a[1..]) && y[1..][1..] == BigEndian(b[1..]);
      assert x[0] == a[0] / 0x100 && x[1..][0] == a[0] % 0x100;
      assert y[0] == b[0] / 0x100 && y[1..][0] == b[0] % 0x100;
    }
  }

  lemma {:induction false} UnitRange(s: string)
    ensures forall i :: 0 <= i < |Utf16(s)| ==> 0 <= Utf16(s)[i] < 0x1_0000
  {
    if s != [] {
      UnitRange(s[1..]);
    }
  }

  predicate KeyLess(k: string, l: string) {
    LexLess(Utf16Be(k), Utf16Be(l))
  }

  /** Where the two lists part, the first has ended or has the smaller entry. */
  ghost predicate LessAt(a: seq<int>, b: seq<int>, k: nat) {
    k <= |a| && k < |b| && a[..k] == b[..k] && (k == |a| || a[k] < b[k])
  }

  lemma SameFirst(a: seq<int>, b: seq<int>, k: nat)
    requires LessAt(a, b, k) && k > 0
    ensures a != [] && b != [] && a[0] == b[0]
  {
    assert a[..k][0] == b[..k][0];
  }

  lemma LessAtNext(a: seq<int>, b: seq<int>, k: nat)
    requires a != [] && b != [] && a[0] == b[0]
    ensures LessAt(a[1..], b[1..], k) <==> LessAt(a, b, k + 1)
  {
    if k < |a| && k < |b| {
      assert a[..k + 1] == [a[0]] + a[1..][..k] && b[..k + 1] == [b[0]] + b[1..][..k];
      assert a[1..][..k] == a[..k + 1][1..] && b[1..][..k] == b[..k + 1][1..];
    }
  }

  lemma {:induction false} LexLessIsLessAt(a: seq<int>, b: seq<int>)
    ensures LexLess(a, b) <==> exists k: nat :: LessAt(a, b, k)
    decreases |a|
  {
    if a == [] || b == [] || a[0] != b[0] {
      assert LexLess(a, b) ==> LessAt(a, b, 0);
      forall k: nat | LessAt(a, b, k) ensures LexLess(a, b) {
        if k > 0 { SameFirst(a, b, k); }
      }
    } else {
      LexLessIsLessAt(a[1..], b[1..]);
      if exists k: nat :: LessAt(a[1..], b[1..], k) {
        var k: nat :| LessAt(a[1..], b[1..], k);
        LessAtNext(a, b, k);
      }
      if exists k: nat :: LessAt(a, b, k) {
        var k: nat :| LessAt(a, b, k);
        assert k > 0;
        LessAtNext(a, b, k - 1);
      }
    }
  }

  /** One key is before another exactly where their code units part with the smaller first. */
  lemma KeyLessIsUnitOrder(k: string, l: string)
    ensures KeyLess(k, l) <==> LexLess(Utf16(k), Utf16(l))
    ensures KeyLess(k, l) <==> exists i: nat :: LessAt(Utf16(k), Utf16(l), i)
  {
    UnitRange(k);
    UnitRange(l);
    ByteOrderIsUnitOrder(Utf16(k), Utf16(l));
    LexLessIsLessAt(Utf16(k), Utf16(l));
  }

  lemma KeyOrder(k: string, l: string)
    ensures k == l || KeyLess(k, l) || KeyLess(l, k)
    ensures !(KeyLess(k, l) && KeyLess(l, k))
  {
    KeyLessIsUnitOrder(k, l);
    KeyLessIsUnitOrder(l, k);
    LexTotal(Utf16(k), Utf16(l));
    if Utf16(k) == Utf16(l) { Utf16Injective(k, l); }
  }

  /******* Sorting *******/

  ghost predicate Ascending(keys: seq<string>) {
    forall i, j :: 0 <= i < j < |keys| ==> KeyLess(keys[i], keys[j])
  }

  /** Only one ascending list has a given set of keys. */
  lemma {:induction false} AscendingUnique(a: seq<string>, b: seq<string>)
    requires Ascending(a) && Ascending(b)
    requires forall k :: k in a <==> k in b
    ensures a == b
    decreases |a|
  {
    assert b == [] || b[0] in b;
    if a != [] {
      assert a[0] in b && b != [] && b[0] in a;
      KeyOrder(a[0], b[0]);
      assert a[0] == b[0];
      forall k ensures k in a[1..] <==> k in b[1..] {
        KeyOrder(a[0], a[0]);
        assert a[0] !in a[1..] && b[0] !in b[1..];
        assert k in a <==> k == a[0] || k in a[1..];
        assert k in b <==> k == b[0] || k in b[1..];
      }
      AscendingUnique(a[1..], b[1..]);
      assert a == [a[0]] + a[1..] && b == [b[0]] + b[1..];
    }
  }
}
