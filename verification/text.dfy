/** String helpers used by the entity printers and the converters: Python's
    `sep.join(parts)` and `str(n)` on integers. */
module Text {

  /** `sep.join(parts)`: the parts in order, with `sep` between neighbours only. */
  function Join(parts: seq<string>, sep: string): (r: string)
    ensures |parts| == 0 ==> r == ""
    ensures |parts| > 0 ==> parts[0] <= r
    ensures |parts| > 0 ==> |parts[|parts| - 1]| <= |r| && r[|r| - |parts[|parts| - 1]|..] == parts[|parts| - 1]
  {
    if |parts| == 0 then ""
    else if |parts| == 1 then parts[0]
    else Join(parts[..|parts| - 1], sep) + sep + parts[|parts| - 1]
  }

  predicate IsDigit(c: char)
  {
    '0' <= c <= '9'
  }

  function DigitChar(d: nat): (c: char)
    requires d < 10
    ensures IsDigit(c) && c as int - '0' as int == d
  {
    ('0' as int + d) as char
  }

  /** `str(n)` for a non-negative integer: its decimal digits, most significant
      first, with no leading zero. */
  function NatToString(n: nat): (r: string)
    ensures |r| > 0
    ensures forall i | 0 <= i < |r| :: IsDigit(r[i])
    ensures n == 0 ==> r == "0"
    ensures n > 0 ==> r[0] != '0'
    decreases n
  {
    if n < 10 then [DigitChar(n)] else NatToString(n / 10) + [DigitChar(n % 10)]
  }

  /** `int(s)` for a string of decimal digits. */
  function ParseNat(s: string): nat
    requires forall i | 0 <= i < |s| :: IsDigit(s[i])
  {
    if s == [] then 0 else ParseNat(s[..|s| - 1]) * 10 + DigitValue(s[|s| - 1])
  }

  function DigitValue(c: char): nat
    requires IsDigit(c)
  {
    c as int - '0' as int
  }

  /** The decimal text of a number reads back as that number. */
  lemma {:induction false} ParseNatToString(n: nat)
    ensures ParseNat(NatToString(n)) == n
    decreases n
  {
    if n >= 10 {
      var s := NatToString(n);
      assert s[..|s| - 1] == NatToString(n / 10);
      ParseNatToString(n / 10);
    }
  }

  /** `str(i)` for any integer: a minus sign before the digits of a negative
      number, no leading zero, and the digits read back as its magnitude. */
  function IntToString(i: int): (r: string)
    ensures |r| > 0
    ensures forall k | 0 <= k < |r| :: IsDigit(r[k]) || (k == 0 && r[k] == '-' && i < 0)
    ensures r[0] == '-' <==> i < 0
    ensures i < 0 ==> |r| > 1 && r[1] != '0' && ParseNat(r[1..]) == -i
    ensures i >= 0 ==> ParseNat(r) == i
    ensures i >= 0 && |r| > 1 ==> r[0] != '0'
  {
    if i < 0 then
      ParseNatToString(-i);
      assert ("-" + NatToString(-i))[1..] == NatToString(-i);
      "-" + NatToString(-i)
    else
      ParseNatToString(i);
      NatToString(i)
  }

  /** The number of occurrences of `c` in `s`. */
  function CountChar(c: char, s: string): nat
  {
    if s == [] then 0 else (if s[0] == c then 1 else 0) + CountChar(c, s[1..])
  }

  lemma {:induction false} CountCharAppend(c: char, a: string, b: string)
    ensures CountChar(c, a + b) == CountChar(c, a) + CountChar(c, b)
  {
    if a == [] {
      assert a + b == b;
    } else {
      assert (a + b)[1..] == a[1..] + b;
      CountCharAppend(c, a[1..], b);
    }
  }

  lemma {:induction false} CountCharAbsent(c: char, s: string)
    requires forall i | 0 <= i < |s| :: s[i] != c
    ensures CountChar(c, s) == 0
  {
    if s != [] {
      CountCharAbsent(c, s[1..]);
    }
  }

  // ------------------------------------------------------------ splitting a ", "-joined list

  /** No `", "` occurs inside `g`. */
  predicate NoCommaSpace(g: string)
  {
    forall k | 0 <= k < |g| - 1 :: !(g[k] == ',' && g[k + 1] == ' ')
  }

  /** `s.split(", ")`: the pieces between the occurrences of `", "`, left to right. */
  function SplitComma(s: string): (r: seq<string>)
    ensures |r| > 0
    decreases |s|
  {
    if |s| < 2 then [s]
    else if s[0] == ',' && s[1] == ' ' then [""] + SplitComma(s[2..])
    else
      var rest := SplitComma(s[1..]);
      [[s[0]] + rest[0]] + rest[1..]
  }

  lemma {:induction false} SplitCommaSingle(g: string)
    requires NoCommaSpace(g)
    ensures SplitComma(g) == [g]
    decreases |g|
  {
    if |g| >= 2 {
      SplitCommaSingle(g[1..]);
      assert [g[0]] + g[1..] == g;
    }
  }

  lemma {:induction false} SplitCommaCons(g: string, rest: string)
    requires NoCommaSpace(g)
    ensures SplitComma(g + ", " + rest) == [g] + SplitComma(rest)
    decreases |g|
  {
    var s := g + ", " + rest;
    if g == [] {
      assert s[2..] == rest;
    } else {
      assert s[1..] == g[1..] + ", " + rest;
      SplitCommaCons(g[1..], rest);
      assert [g[0]] + g[1..] == g;
    }
  }

  /** Joining a part in front of a non-empty list puts one separator after it. */
  lemma {:induction false} JoinCons(g: string, more: seq<string>, sep: string)
    requires |more| > 0
    ensures Join([g] + more, sep) == g + sep + Join(more, sep)
    decreases |more|
  {
    var all := [g] + more;
    if |more| == 1 {
      assert all[..1] == [g];
    } else {
      assert all[..|all| - 1] == [g] + more[..|more| - 1];
      JoinCons(g, more[..|more| - 1], sep);
    }
  }

  /** `", ".join` is undone by `split(", ")` when no part contains the separator
      and the list is not empty (the empty list and `[""]` both join to `""`). */
  lemma {:induction false} SplitJoin(parts: seq<string>)
    requires |parts| > 0
    requires forall i | 0 <= i < |parts| :: NoCommaSpace(parts[i])
    ensures SplitComma(Join(parts, ", ")) == parts
    decreases |parts|
  {
    if |parts| == 1 {
      SplitCommaSingle(parts[0]);
    } else {
      assert parts == [parts[0]] + parts[1..];
      JoinCons(parts[0], parts[1..], ", ");
      SplitCommaCons(parts[0], Join(parts[1..], ", "));
      SplitJoin(parts[1..]);
    }
  }
}
