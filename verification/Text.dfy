/** Strings and byte strings as the Go and Python code handles them. */
module Text {
  type byte = b: int | 0 <= b < 256

  datatype Option<+T> = None | Some(value: T)

  predicate HasPrefix<T(==)>(s: seq<T>, p: seq<T>) {
    |p| <= |s| && s[..|p|] == p
  }

  predicate HasSuffix<T(==)>(s: seq<T>, p: seq<T>) {
    |p| <= |s| && s[|s| - |p|..] == p
  }

  lemma {:induction false} NoPrefix<T>(s: seq<T>, p: seq<T>, k: nat)
    requires k < |p|
    requires k < |s| ==> s[k] != p[k]
    ensures !HasPrefix(s, p)
  {
    if |p| <= |s| {
      assert s[..|p|][k] == s[k];
    }
  }

  lemma {:induction false} NoSuffix<T>(s: seq<T>, p: seq<T>, k: nat)
    requires k < |p|
    requires |p| <= |s| ==> s[|s| - |p| + k] != p[k]
    ensures !HasSuffix(s, p)
  {
    if |p| <= |s| {
      assert s[|s| - |p|..][k] == s[|s| - |p| + k];
    }
  }

  /** The first k elements of two sequences joined. */
  lemma {:induction false} TakeOfJoin<T>(a: seq<T>, b: seq<T>, k: nat)
    requires k <= |a| + |b|
    ensures k <= |a| ==> (a + b)[..k] == a[..k]
    ensures k >= |a| ==> (a + b)[..k] == a + b[..k - |a|]
  {
  }

  lemma {:induction false} TakeOneMore<T>(s: seq<T>, k: nat)
    requires k < |s|
    ensures s[..k + 1] == s[..k] + [s[k]]
  {
  }

  lemma {:induction false} JoinIsAssociative<T>(a: seq<T>, b: seq<T>, c: seq<T>)
    ensures (a + b) + c == a + (b + c)
  {
  }

  function Min(a: int, b: int): int {
    if a <= b then a else b
  }

  /** The concatenation of a sequence of chunks. */
  function Concat<T>(chunks: seq<seq<T>>): seq<T> {
    if chunks == [] then [] else Concat(chunks[..|chunks| - 1]) + chunks[|chunks| - 1]
  }

  lemma {:induction false} ConcatPushes<T>(a: seq<seq<T>>, last: seq<T>)
    ensures Concat(a + [last]) == Concat(a) + last
  {
    assert (a + [last])[..|a + [last]| - 1] == a;
  }

  lemma {:induction false} ConcatAppends<T>(a: seq<seq<T>>, b: seq<seq<T>>)
    ensures Concat(a + b) == Concat(a) + Concat(b)
  {
    if b == [] {
      assert a + b == a;
    } else {
      var init, last := b[..|b| - 1], b[|b| - 1];
      ConcatAppends(a, init);
      ConcatPushes(a + init, last);
      assert a + b == (a + init) + [last];
      assert (Concat(a) + Concat(init)) + last == Concat(a) + (Concat(init) + last);
    }
  }

  lemma {:induction false} ConcatOne<T>(a: seq<T>)
    ensures Concat([a]) == a
  {
    assert [a][..0] == [];
  }

  // ---- decimal numerals (fmt's %d and %0wd) ----

  function Digit(d: nat): (c: char)
    requires d < 10
  {
    ('0' as int + d) as char
  }

  predicate IsDigit(c: char) {
    '0' <= c <= '9'
  }

  /** `fmt.Sprintf("%d", n)` */
  function Decimal(n: nat): (s: string)
    ensures |s| > 0
  {
    if n < 10 then [Digit(n)] else Decimal(n / 10) + [Digit(n % 10)]
  }

  /** `fmt.Sprintf("%0wd", n)` */
  function Padded(n: nat, w: nat): string {
    var d := Decimal(n);
    if |d| >= w then d else seq(w - |d|, _ => '0') + d
  }

  predicate AllDigits(s: string) {
    forall i :: 0 <= i < |s| ==> IsDigit(s[i])
  }

  /** The number a digit string denotes; leading zeros do not matter. */
  function NumberOf(s: string): nat
    requires AllDigits(s)
  {
    if s == [] then 0 else NumberOf(s[..|s| - 1]) * 10 + (s[|s| - 1] as int - '0' as int)
  }

  lemma {:induction false} DecimalDenotes(n: nat)
    ensures AllDigits(Decimal(n)) && NumberOf(Decimal(n)) == n
  {
    if n >= 10 {
      DecimalDenotes(n / 10);
      assert Decimal(n)[..|Decimal(n)| - 1] == Decimal(n / 10);
    } else {
      assert Decimal(n)[..0] == [];
    }
  }

  lemma {:induction false} ZerosDoNotMatter(k: nat, s: string)
    requires AllDigits(s)
    ensures AllDigits(seq(k, _ => '0') + s) && NumberOf(seq(k, _ => '0') + s) == NumberOf(s)
  {
    var z := seq(k, _ => '0');
    if s == [] {
      assert z + s == z;
      if k > 0 {
        assert z[..k - 1] == seq(k - 1, _ => '0') + [];
        ZerosDoNotMatter(k - 1, []);
      }
    } else {
      assert (z + s)[..|z + s| - 1] == z + s[..|s| - 1];
      ZerosDoNotMatter(k, s[..|s| - 1]);
    }
  }

  /** A padded numeral still denotes its number, whatever the width. */
  lemma {:induction false} PaddedDenotes(n: nat, w: nat)
    ensures AllDigits(Padded(n, w)) && NumberOf(Padded(n, w)) == n
  {
    DecimalDenotes(n);
    if |Decimal(n)| < w {
      ZerosDoNotMatter(w - |Decimal(n)|, Decimal(n));
    }
  }

  // ---- which digit strings denote a number ----

  lemma {:induction false} DecimalLeads(n: nat)
    ensures n > 0 ==> Decimal(n)[0] != '0'
    ensures Decimal(0) == "0"
  {
    if n >= 10 {
      DecimalLeads(n / 10);
    }
  }

  /** A numeral without a leading zero is the decimal of its number. */
  lemma {:induction false} NumeralIsDecimal(s: string)
    requires AllDigits(s) && s != "" && s[0] != '0'
    ensures NumberOf(s) > 0 && s == Decimal(NumberOf(s))
  {
    var init, d := s[..|s| - 1], s[|s| - 1] as int - '0' as int;
    assert s == init + [s[|s| - 1]] && Digit(d) == s[|s| - 1];
    if init == "" {
      assert NumberOf(s) == d;
    } else {
      assert init[0] == s[0];
      NumeralIsDecimal(init);
      assert NumberOf(s) / 10 == NumberOf(init) && NumberOf(s) % 10 == d;
    }
  }

  lemma {:induction false} LeadingZero(s: string)
    requires AllDigits(s) && s != "" && s[0] == '0'
    ensures AllDigits(s[1..]) && NumberOf(s) == NumberOf(s[1..])
  {
    assert s == seq(1, _ => '0') + s[1..];
    ZerosDoNotMatter(1, s[1..]);
  }

  /** The digit strings that denote n are its decimal with zeros in front: one of each length from that of the decimal on. */
  lemma {:induction false} NumeralIsPadded(s: string)
    requires AllDigits(s) && NumberOf(s) > 0
    ensures s == Padded(NumberOf(s), |s|) && |s| >= |Decimal(NumberOf(s))|
  {
    assert s != "";
    if s[0] != '0' {
      NumeralIsDecimal(s);
    } else {
      LeadingZero(s);
      NumeralIsPadded(s[1..]);
      var n, rest := NumberOf(s), s[1..];
      assert s == ['0'] + rest;
      assert seq(|s| - |Decimal(n)|, _ => '0') == ['0'] + seq(|rest| - |Decimal(n)|, _ => '0');
    }
  }
}
