/**
 * Python's ordering of `str` values (code point by code point, a proper
 * prefix first) and `sorted(xs, reverse=True)` over a list of names.
 */
module Order {

  /** `a <= b` on Python strings. */
  predicate LexLe(a: string, b: string)
    decreases |a|
  {
    a == [] || (b != [] && (a[0] < b[0] || (a[0] == b[0] && LexLe(a[1..], b[1..]))))
  }

  /** `a < b` on Python strings. */
  predicate LexLt(a: string, b: string) {
    LexLe(a, b) && a != b
  }

  lemma {:induction false} LexLeRefl(a: string)
    ensures LexLe(a, a)
    decreases |a|
  {
    if a != [] { LexLeRefl(a[1..]); }
  }

  lemma {:induction false} LexLeTotal(a: string, b: string)
    ensures LexLe(a, b) || LexLe(b, a)
    decreases |a|
  {
    if a != [] && b != [] && a[0] == b[0] { LexLeTotal(a[1..], b[1..]); }
  }

  lemma {:induction false} LexLeAntisym(a: string, b: string)
    requires LexLe(a, b) && LexLe(b, a)
    ensures a == b
    decreases |a|
  {
    if a != [] {
      LexLeAntisym(a[1..], b[1..]);
      assert a == [a[0]] + a[1..] && b == [b[0]] + b[1..];
    }
  }

  lemma {:induction false} LexLeTrans(a: string, b: string, c: string)
    requires LexLe(a, b) && LexLe(b, c)
    ensures LexLe(a, c)
    decreases |a|
  {
    if a != [] && a[0] == b[0] && b[0] == c[0] {
      LexLeTrans(a[1..], b[1..], c[1..]);
    }
  }

  /** A common prefix does not change the comparison of two strings. */
  lemma {:induction false} LexLeCommonPrefix(p: string, a: string, b: string)
    ensures LexLe(p + a, p + b) <==> LexLe(a, b)
    decreases |p|
  {
    if p != [] {
      assert (p + a)[1..] == p[1..] + a && (p + b)[1..] == p[1..] + b;
      LexLeCommonPrefix(p[1..], a, b);
    } else {
      assert p + a == a && p + b == b;
    }
  }

  /**
   * Between strings cut at the same width, the first parts decide unless
   * they are equal.
   */
  lemma {:induction false} LexLeSameWidth(p: string, a: string, q: string, b: string)
    requires |p| == |q|
    ensures LexLe(p + a, q + b) <==> LexLt(p, q) || (p == q && LexLe(a, b))
    decreases |p|
  {
    if p == [] {
      assert p + a == a && q + b == b;
      LexLeRefl(p);
    } else {
      assert (p + a)[0] == p[0] && (q + b)[0] == q[0];
      assert (p + a)[1..] == p[1..] + a && (q + b)[1..] == q[1..] + b;
      LexLeSameWidth(p[1..], a, q[1..], b);
      if p[0] == q[0] {
        assert p == q <==> p[1..] == q[1..] by {
          assert p == [p[0]] + p[1..] && q == [q[0]] + q[1..];
        }
      }
    }
  }

  /** Newest first: every element is at least as great as the one after it. */
  predicate SortedDesc(s: seq<string>) {
    forall i :: 0 < i < |s| ==> LexLe(s[i], s[i - 1])
  }

  /** In a descending list the first element is the greatest. */
  lemma {:induction false} HeadIsGreatest(s: seq<string>)
    requires SortedDesc(s) && s != []
    ensures forall i :: 0 <= i < |s| ==> LexLe(s[i], s[0])
    decreases |s|
  {
    if |s| == 1 {
      LexLeRefl(s[0]);
    } else {
      HeadIsGreatest(s[1..]);
      forall i | 0 <= i < |s| ensures LexLe(s[i], s[0]) {
        if i == 0 {
          LexLeRefl(s[0]);
        } else {
          assert s[1..][i - 1] == s[i];
          LexLeTrans(s[i], s[1], s[0]);
        }
      }
    }
  }

  /** Puts `x` into a descending list. */
  function Insert(x: string, s: seq<string>): (r: seq<string>)
    requires SortedDesc(s)
    ensures SortedDesc(r)
    ensures multiset(r) == multiset(s) + multiset{x}
    ensures r[0] == x || (s != [] && r[0] == s[0])
    decreases |s|
  {
    if s == [] || LexLe(s[0], x) then
      [x] + s
    else
      LexLeTotal(s[0], x);
      var t := Insert(x, s[1..]);
      assert s == [s[0]] + s[1..];
      [s[0]] + t
  }

  /** `sorted(s, reverse=True)`. */
  function SortDesc(s: seq<string>): (r: seq<string>)
    ensures SortedDesc(r)
    ensures multiset(r) == multiset(s)
    decreases |s|
  {
    if s == [] then []
    else
      assert s == [s[0]] + s[1..];
      Insert(s[0], SortDesc(s[1..]))
  }

  /**
   * There is only one descending arrangement of a multiset of strings, so
   * `SortDesc` is determined by its contract.
   */
  lemma {:induction false} SortedDescUnique(a: seq<string>, b: seq<string>)
    requires SortedDesc(a) && SortedDesc(b)
    requires multiset(a) == multiset(b)
    ensures a == b
    decreases |a|
  {
    if a != [] {
      SameHead(a, b);
      assert multiset(a[1..]) == multiset(b[1..]) by {
        assert a == [a[0]] + a[1..] && b == [b[0]] + b[1..];
        assert multiset(a[1..]) == multiset(a) - multiset{a[0]};
        assert multiset(b[1..]) == multiset(b) - multiset{b[0]};
      }
      SortedDescUnique(a[1..], b[1..]);
    }
  }

  /** Two descending arrangements of the same strings start with the same one. */
  lemma SameHead(a: seq<string>, b: seq<string>)
    requires SortedDesc(a) && SortedDesc(b)
    requires multiset(a) == multiset(b) && a != []
    ensures b != [] && a[0] == b[0]
  {
    assert |b| == |a| by { assert |multiset(a)| == |multiset(b)|; }
    assert a[0] in multiset(b) && b[0] in multiset(a) by {
      assert a[0] in multiset(a) && b[0] in multiset(b);
    }
    HeadIsGreatest(a);
    HeadIsGreatest(b);
    LexLeAntisym(a[0], b[0]);
  }

  // Fixed-width digit strings: the string order is the numeric order.

  predicate IsDigit(c: char) {
    '0' <= c <= '9'
  }

  predicate AllDigits(s: string) {
    forall i :: 0 <= i < |s| ==> IsDigit(s[i])
  }

  function Pow10(n: nat): (r: nat)
    ensures r >= 1
  {
    if n == 0 then 1 else 10 * Pow10(n - 1)
  }

  /** The number a string of ASCII digits denotes. */
  function DigitsValue(s: string): (v: nat)
    requires AllDigits(s)
    ensures v < Pow10(|s|)
    decreases |s|
  {
    if s == [] then 0
    else
      var d := (s[0] as int) - ('0' as int);
      var p := Pow10(|s| - 1);
      var rest := DigitsValue(s[1..]);
      assert d * p <= 9 * p;
      d * p + rest
  }

  /** A smaller leading digit wins whatever follows it. */
  lemma LeadingDigit(da: int, db: int, p: int, ra: int, rb: int)
    requires 0 <= da < db && 0 <= ra < p && 0 <= rb
    ensures da * p + ra < db * p + rb
  {
    var k := db - da;
    MulAtLeast(k, p);
    assert db * p == da * p + k * p by { Distribute(da, k, p); }
  }

  lemma MulAtLeast(k: int, p: int)
    requires k >= 1 && p >= 0
    ensures k * p >= p
  {
    if k > 1 { MulAtLeast(k - 1, p); }
  }

  lemma Distribute(x: int, k: int, p: int)
    ensures (x + k) * p == x * p + k * p
  {
  }

  /** For two digit strings of one width, `LexLe` compares their values. */
  lemma {:induction false} DigitsOrder(a: string, b: string)
    requires AllDigits(a) && AllDigits(b) && |a| == |b|
    ensures LexLe(a, b) <==> DigitsValue(a) <= DigitsValue(b)
    decreases |a|
  {
    if a != [] {
      var p := Pow10(|a| - 1);
      var da := (a[0] as int) - ('0' as int);
      var db := (b[0] as int) - ('0' as int);
      var ra, rb := DigitsValue(a[1..]), DigitsValue(b[1..]);
      assert DigitsValue(a) == da * p + ra;
      assert DigitsValue(b) == db * p + rb;
      if da < db {
        LeadingDigit(da, db, p, ra, rb);
      } else if db < da {
        LeadingDigit(db, da, p, rb, ra);
      } else {
        DigitsOrder(a[1..], b[1..]);
      }
    }
  }

  /** Pairs `(x, y)` with `y` below `p` are ordered by `x * p + y`. */
  lemma PairOrder(x1: int, y1: int, x2: int, y2: int, p: int)
    requires 0 <= x1 && 0 <= x2 && 0 <= y1 < p && 0 <= y2 < p
    ensures (x1 < x2 || (x1 == x2 && y1 <= y2)) <==> x1 * p + y1 <= x2 * p + y2
  {
    if x1 < x2 {
      LeadingDigit(x1, x2, p, y1, y2);
    } else if x2 < x1 {
      LeadingDigit(x2, x1, p, y2, y1);
    }
  }

  /** Two fields around a separator, each of one width, compare field by field. */
  lemma FieldsOrder(h1: string, l1: string, h2: string, l2: string, sep: char)
    requires |h1| == |h2|
    ensures LexLe(h1 + [sep] + l1, h2 + [sep] + l2) <==> LexLt(h1, h2) || (h1 == h2 && LexLe(l1, l2))
  {
    assert h1 + [sep] + l1 == h1 + ([sep] + l1);
    assert h2 + [sep] + l2 == h2 + ([sep] + l2);
    LexLeSameWidth(h1, [sep] + l1, h2, [sep] + l2);
    LexLeCommonPrefix([sep], l1, l2);
  }

  /** For digit strings of one width, the strict string order is the strict numeric order. */
  lemma DigitsLt(a: string, b: string)
    requires AllDigits(a) && AllDigits(b) && |a| == |b|
    ensures LexLt(a, b) <==> DigitsValue(a) < DigitsValue(b)
  {
    DigitsOrder(a, b);
    DigitsOrder(b, a);
    if DigitsValue(a) == DigitsValue(b) {
      LexLeAntisym(a, b);
    }
  }

  /**
   * Two fields of digits around a separator, each field of one fixed width,
   * compare as strings the way the number `high * 10^|low| + low` does.
   */
  lemma DigitFieldsOrder(h1: string, l1: string, h2: string, l2: string, sep: char)
    requires AllDigits(h1) && AllDigits(l1) && AllDigits(h2) && AllDigits(l2)
    requires |h1| == |h2| && |l1| == |l2|
    ensures LexLe(h1 + [sep] + l1, h2 + [sep] + l2)
        <==> DigitsValue(h1) * Pow10(|l1|) + DigitsValue(l1) <= DigitsValue(h2) * Pow10(|l2|) + DigitsValue(l2)
  {
    var x1, y1, x2, y2, p := DigitsValue(h1), DigitsValue(l1), DigitsValue(h2), DigitsValue(l2), Pow10(|l1|);
    var strings := LexLt(h1, h2) || (h1 == h2 && LexLe(l1, l2));
    var pairs := x1 < x2 || (x1 == x2 && y1 <= y2);
    FieldsOrder(h1, l1, h2, l2, sep);
    assert strings == pairs by {
      DigitsLt(h1, h2);
      DigitsOrder(l1, l2);
      DigitsOrder(h1, h2);
      DigitsOrder(h2, h1);
      if x1 == x2 { LexLeAntisym(h1, h2); }
    }
    PairOrder(x1, y1, x2, y2, p);
  }
}
