/** `urllib.quote_plus` and `urllib.urlencode` of Python 2, with the inverse
    readings used to state what they promise: percent-encoding as in
    section 2.1 of RFC 3986, with a space written `+` as in HTML form
    encoding (application/x-www-form-urlencoded). */
module UrlEncoding {
  import opened Text

  /** The characters `quote` never encodes when no extra safe characters are
      given: ASCII letters, digits and `_.-` (Python 2 does not include `~`). */
  predicate AlwaysSafe(c: Char8)
  {
    ('A' <= c <= 'Z') || ('a' <= c <= 'z') || ('0' <= c <= '9') || c == '_' || c == '.' || c == '-'
  }

  /** The characters `quote_plus` output is made of. */
  predicate QuotedChar(c: Char8)
  {
    AlwaysSafe(c) || c == '+' || c == '%'
  }

  function HexDigit(d: nat): Char8
    requires d < 16
  {
    "0123456789ABCDEF"[d]
  }

  predicate IsHex(c: Char8)
  {
    ('0' <= c <= '9') || ('a' <= c <= 'f') || ('A' <= c <= 'F')
  }

  function HexValue(c: Char8): (d: nat)
    ensures d < 16
  {
    if '0' <= c <= '9' then c as int - '0' as int
    else if 'a' <= c <= 'f' then c as int - 'a' as int + 10
    else if 'A' <= c <= 'F' then c as int - 'A' as int + 10
    else 0
  }

  /** One byte as `quote_plus` writes it: kept, `+` for a space, or `%XX`
      with two upper-case hexadecimal digits. */
  function QuoteChar(c: Char8): Str
  {
    if AlwaysSafe(c) then [c]
    else if c == ' ' then ['+']
    else ['%', HexDigit(c as int / 16), HexDigit(c as int % 16)]
  }

  /** `quote_plus(s)`: every character of the result is a safe character,
      `+` or `%`, and a string of safe characters is returned unchanged. */
  function QuotePlus(s: Str): (r: Str)
    ensures forall i :: 0 <= i < |r| ==> QuotedChar(r[i])
    ensures (forall i :: 0 <= i < |s| ==> AlwaysSafe(s[i])) ==> r == s
  {
    if |s| == 0 then []
    else
      var head, tail := QuoteChar(s[0]), QuotePlus(s[1..]);
      QuoteCharQuoted(s[0]);
      assert (forall i :: 0 <= i < |s| ==> AlwaysSafe(s[i])) ==> head + tail == [s[0]] + s[1..];
      head + tail
  }

  lemma QuoteCharQuoted(c: Char8)
    ensures forall i :: 0 <= i < |QuoteChar(c)| ==> QuotedChar(QuoteChar(c)[i])
  {
    if !AlwaysSafe(c) && c != ' ' {
      HexDigitValue(c as int / 16);
      HexDigitValue(c as int % 16);
    }
  }

  /** `unquote_plus(s)`: `+` becomes a space and `%` followed by two
      hexadecimal digits becomes the byte they spell; anything else is kept. */
  function UnquotePlus(s: Str): Str
  {
    if |s| == 0 then []
    else if s[0] == '+' then [' '] + UnquotePlus(s[1..])
    else if s[0] == '%' && |s| >= 3 && IsHex(s[1]) && IsHex(s[2]) then
      [(HexValue(s[1]) * 16 + HexValue(s[2])) as char] + UnquotePlus(s[3..])
    else [s[0]] + UnquotePlus(s[1..])
  }

  lemma HexDigitValue(d: nat)
    requires d < 16
    ensures IsHex(HexDigit(d)) && AlwaysSafe(HexDigit(d)) && HexValue(HexDigit(d)) == d
  {
  }

  lemma UnquoteQuoteChar(c: Char8, rest: Str)
    ensures UnquotePlus(QuoteChar(c) + rest) == [c] + UnquotePlus(rest)
  {
    var q := QuoteChar(c) + rest;
    if AlwaysSafe(c) {
      assert q[1..] == rest;
    } else if c == ' ' {
      assert q[1..] == rest;
    } else {
      HexDigitValue(c as int / 16);
      HexDigitValue(c as int % 16);
      assert q[3..] == rest;
      assert (c as int / 16) * 16 + c as int % 16 == c as int;
    }
  }

  /** `unquote_plus` undoes `quote_plus`. */
  lemma {:induction false} UnquoteQuote(s: Str)
    ensures UnquotePlus(QuotePlus(s)) == s
  {
    if |s| > 0 {
      UnquoteQuoteChar(s[0], QuotePlus(s[1..]));
      UnquoteQuote(s[1..]);
      assert [s[0]] + s[1..] == s;
    }
  }

  /** No separator of a query string survives quoting. */
  lemma QuotedHasNoSeparators(s: Str)
    ensures '&' !in QuotePlus(s) && '=' !in QuotePlus(s) && ';' !in QuotePlus(s)
  {
  }

  /** The `key=value` items of a query string, both sides quoted. */
  function EncodeItems(pairs: seq<(Str, Str)>): (items: seq<Str>)
    ensures |items| == |pairs|
  {
    if |pairs| == 0 then []
    else [QuotePlus(pairs[0].0) + "=" + QuotePlus(pairs[0].1)] + EncodeItems(pairs[1..])
  }

  /** `urlencode(pairs)`, the pairs taken in the order given: decoding it
      gives back its pairs, in order. */
  function UrlEncode(pairs: seq<(Str, Str)>): (r: Str)
    ensures |pairs| > 0 ==> UrlDecode(r) == pairs
  {
    var items := EncodeItems(pairs);
    DecodeEncodeItems(pairs);
    if |pairs| > 0 then SplitJoin(items, '&'); Join(items, '&') else Join(items, '&')
  }

  /** Reading one `key=value` item back. */
  function DecodeItem(item: Str): (Str, Str)
  {
    var kv := Partition(item, '=');
    (UnquotePlus(kv.0), UnquotePlus(kv.1))
  }

  function DecodeItems(items: seq<Str>): (pairs: seq<(Str, Str)>)
    ensures |pairs| == |items|
  {
    if |items| == 0 then [] else [DecodeItem(items[0])] + DecodeItems(items[1..])
  }

  /** Reading a query string back into its pairs. */
  function UrlDecode(s: Str): seq<(Str, Str)>
  {
    DecodeItems(Split(s, '&'))
  }

  lemma {:induction false} DecodeEncodeItems(pairs: seq<(Str, Str)>)
    ensures DecodeItems(EncodeItems(pairs)) == pairs
    ensures forall i :: 0 <= i < |pairs| ==> '&' !in EncodeItems(pairs)[i]
  {
    if |pairs| > 0 {
      DecodeEncodeItem(pairs[0].0, pairs[0].1);
      DecodeEncodeItems(pairs[1..]);
      var items := EncodeItems(pairs);
      assert items[1..] == EncodeItems(pairs[1..]);
      assert pairs == [pairs[0]] + pairs[1..];
    }
  }

  /** One item reads back into its pair and holds no `&`. */
  lemma DecodeEncodeItem(k: Str, v: Str)
    ensures DecodeItem(QuotePlus(k) + "=" + QuotePlus(v)) == (k, v)
    ensures '&' !in QuotePlus(k) + "=" + QuotePlus(v)
  {
    QuotedHasNoSeparators(k);
    QuotedHasNoSeparators(v);
    PartitionAtFirst(QuotePlus(k), '=', QuotePlus(v));
    assert QuotePlus(k) + "=" + QuotePlus(v) == QuotePlus(k) + ['='] + QuotePlus(v);
    UnquoteQuote(k);
    UnquoteQuote(v);
  }

  /** The value of the first pair named `name`, if any. */
  function Find(pairs: seq<(Str, Str)>, name: Str): (r: Option<Str>)
    ensures r.Some? <==> exists i :: 0 <= i < |pairs| && pairs[i].0 == name
  {
    if |pairs| == 0 then None
    else if pairs[0].0 == name then Some(pairs[0].1)
    else
      var r := Find(pairs[1..], name);
      assert forall i :: 1 <= i < |pairs| ==> pairs[i] == pairs[1..][i - 1];
      r
  }
}
