/** Python 2 byte strings and the few `str` methods the client uses:
    `split`, `partition`, `lower`, `rstrip` and decimal formatting of integers. */
module Text {

  datatype Option<+T> = None | Some(value: T)

  datatype Result<+T, +E> = Ok(value: T) | Err(error: E)

  /** One character of a Python 2 `str`, which is a string of bytes. */
  type Char8 = c: char | c as int < 256

  /** A Python 2 `str`. */
  type Str = seq<Char8>

  /** Python truthiness of a value that is either `None` or a string:
      `None` and the empty string are both falsy. */
  predicate Truthy(s: Option<Str>)
  {
    s.Some? && |s.value| > 0
  }

  /** `sep.join(parts)` */
  function Join(parts: seq<Str>, sep: Char8): Str
  {
    if |parts| == 0 then []
    else if |parts| == 1 then parts[0]
    else parts[0] + [sep] + Join(parts[1..], sep)
  }

  /** `s.split(sep)`: the pieces between the separators, at least one piece,
      none containing the separator, and joining them gives back `s`. */
  function Split(s: Str, sep: Char8): (parts: seq<Str>)
    ensures |parts| > 0
    ensures forall i :: 0 <= i < |parts| ==> sep !in parts[i]
    ensures Join(parts, sep) == s
  {
    if |s| == 0 then [[]]
    else
      var rest := Split(s[1..], sep);
      if s[0] == sep then
        assert s == [sep] + s[1..];
        [[]] + rest
      else
        var parts := [[s[0]] + rest[0]] + rest[1..];
        assert parts[1..] == rest[1..];
        assert s == [s[0]] + s[1..];
        parts
  }

  lemma {:induction false} SplitWithoutSeparator(s: Str, sep: Char8)
    requires sep !in s
    ensures Split(s, sep) == [s]
  {
    if |s| > 0 {
      SplitWithoutSeparator(s[1..], sep);
    }
  }

  /** Splitting at a separator splits the two sides independently. */
  lemma {:induction false} SplitAtSeparator(a: Str, sep: Char8, b: Str)
    ensures Split(a + [sep] + b, sep) == Split(a, sep) + Split(b, sep)
  {
    var s := a + [sep] + b;
    if |a| == 0 {
      assert s[1..] == b;
    } else {
      assert s[1..] == a[1..] + [sep] + b;
      SplitAtSeparator(a[1..], sep, b);
    }
  }

  /** Splitting undoes joining, for pieces free of the separator. */
  lemma {:induction false} SplitJoin(parts: seq<Str>, sep: Char8)
    requires |parts| > 0
    requires forall i :: 0 <= i < |parts| ==> sep !in parts[i]
    ensures Split(Join(parts, sep), sep) == parts
  {
    if |parts| == 1 {
      SplitWithoutSeparator(parts[0], sep);
    } else {
      SplitWithoutSeparator(parts[0], sep);
      SplitJoin(parts[1..], sep);
      SplitAtSeparator(parts[0], sep, Join(parts[1..], sep));
      assert parts == [parts[0]] + parts[1..];
    }
  }

  /** `e.partition(sep)` without the middle: the text before the first
      separator and the text after it; without a separator, all of `e` and "". */
  function Partition(e: Str, sep: Char8): (r: (Str, Str))
    ensures sep !in r.0
    ensures sep in e ==> e == r.0 + [sep] + r.1
    ensures sep !in e ==> r == (e, [])
  {
    if |e| == 0 then ([], [])
    else if e[0] == sep then
      assert e == [] + [sep] + e[1..];
      ([], e[1..])
    else
      var r := Partition(e[1..], sep);
      assert e == [e[0]] + e[1..];
      ([e[0]] + r.0, r.1)
  }

  /** The cut is at the FIRST separator: whatever follows it, separators
      included, stays in the value. */
  lemma {:induction false} PartitionAtFirst(k: Str, sep: Char8, v: Str)
    requires sep !in k
    ensures Partition(k + [sep] + v, sep) == (k, v)
  {
    if |k| == 0 {
      assert k + [sep] + v == [sep] + v;
    } else {
      assert (k + [sep] + v)[1..] == k[1..] + [sep] + v;
      PartitionAtFirst(k[1..], sep, v);
      assert [k[0]] + k[1..] == k;
    }
  }

  /** `str.lower()` on a byte string: only ASCII letters change. */
  function LowerChar(c: Char8): Char8
  {
    if 'A' <= c <= 'Z' then (c as int + 32) as char else c
  }

  function Lower(s: Str): (r: Str)
    ensures |r| == |s|
    ensures forall i :: 0 <= i < |s| ==> r[i] == LowerChar(s[i])
  {
    seq(|s|, i requires 0 <= i < |s| => LowerChar(s[i]))
  }

  /** Reference reading of "equal without regard to case": the same byte,
      or the same ASCII letter in upper and lower case. */
  predicate SameIgnoringCase(x: Char8, y: Char8)
  {
    || x == y
    || ('A' <= x <= 'Z' && y as int == x as int + 32)
    || ('A' <= y <= 'Z' && x as int == y as int + 32)
  }

  predicate EqualIgnoringCase(a: Str, b: Str)
  {
    |a| == |b| && forall i :: 0 <= i < |a| ==> SameIgnoringCase(a[i], b[i])
  }

  lemma LowerCharEqualIff(x: Char8, y: Char8)
    ensures LowerChar(x) == LowerChar(y) <==> SameIgnoringCase(x, y)
  {
  }

  /** Two strings lower to the same string exactly when they differ only in
      the case of their ASCII letters. */
  lemma LowerEqualIff(a: Str, b: Str)
    ensures Lower(a) == Lower(b) <==> EqualIgnoringCase(a, b)
  {
    if Lower(a) == Lower(b) {
      forall i | 0 <= i < |a| ensures SameIgnoringCase(a[i], b[i]) {
        assert Lower(a)[i] == Lower(b)[i];
        LowerCharEqualIff(a[i], b[i]);
      }
    }
    if EqualIgnoringCase(a, b) {
      forall i | 0 <= i < |a| ensures Lower(a)[i] == Lower(b)[i] {
        LowerCharEqualIff(a[i], b[i]);
      }
    }
  }

  /** Lowering twice is lowering once, and leaves no upper-case letter. */
  lemma LowerIdempotent(s: Str)
    ensures Lower(Lower(s)) == Lower(s)
    ensures forall i :: 0 <= i < |s| ==> !('A' <= Lower(s)[i] <= 'Z')
  {
    forall i | 0 <= i < |s| ensures Lower(Lower(s))[i] == Lower(s)[i] {
      assert Lower(s)[i] == LowerChar(s[i]);
    }
  }

  /** `s.rstrip(c)`: the longest prefix of `s` that does not end in `c`,
      every character removed being `c`. */
  function RStrip(s: Str, c: Char8): (r: Str)
    ensures r <= s
    ensures |r| == 0 || r[|r| - 1] != c
    ensures forall i :: |r| <= i < |s| ==> s[i] == c
  {
    if |s| > 0 && s[|s| - 1] == c then RStrip(s[..|s| - 1], c) else s
  }

  /** Decimal digits, as `'%d' % n` and `str(n)` write them. */
  function DigitChar(d: nat): Char8
    requires d < 10
  {
    "0123456789"[d]
  }

  predicate IsDigit(c: Char8)
  {
    '0' <= c <= '9'
  }

  function DigitValue(c: Char8): nat
  {
    if IsDigit(c) then c as int - '0' as int else 0
  }

  function NatText(n: nat): (r: Str)
    ensures |r| > 0
    ensures forall i :: 0 <= i < |r| ==> IsDigit(r[i])
  {
    if n < 10 then [DigitChar(n)] else NatText(n / 10) + [DigitChar(n % 10)]
  }

  /** `'%d' % n`: an optional minus sign followed by the digits of `|n|`. */
  function DecimalText(n: int): (r: Str)
    ensures |r| > 0
    ensures forall i :: 0 <= i < |r| ==> IsDigit(r[i]) || (i == 0 && r[i] == '-')
  {
    if n < 0 then "-" + NatText(-n) else NatText(n)
  }

  /** The value of a string of decimal digits (reference reading of `int(s)`). */
  function NatValue(s: Str): nat
  {
    if |s| == 0 then 0 else NatValue(s[..|s| - 1]) * 10 + DigitValue(s[|s| - 1])
  }

  function IntValue(s: Str): int
  {
    if |s| > 0 && s[0] == '-' then -(NatValue(s[1..]) as int) else NatValue(s)
  }

  lemma {:induction false} NatTextValue(n: nat)
    ensures NatValue(NatText(n)) == n
  {
    if n >= 10 {
      NatTextValue(n / 10);
      var t := NatText(n / 10) + [DigitChar(n % 10)];
      assert t[..|t| - 1] == NatText(n / 10);
    }
  }

  /** Reading back the decimal text of an integer gives the integer. */
  lemma DecimalTextValue(n: int)
    ensures IntValue(DecimalText(n)) == n
  {
    if n < 0 {
      NatTextValue(-n);
      assert DecimalText(n)[1..] == NatText(-n);
    } else {
      NatTextValue(n);
    }
  }
}
