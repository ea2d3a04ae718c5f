/** `ConnectionString.generate_sas_token` (azure_iot_device/connection_string.py):
    the shared access signature a device presents as its MQTT password.
    HMAC-SHA256 and base64 are not modelled; they reach the model as the
    functions of a `Crypto` value, and the clock as the integer `now`. */
module SasTokens {
  import opened Text
  import opened UrlEncoding
  import opened ConnectionStrings

  /** `HMAC(key, msg, sha256).digest()`, `b64encode` and `b64decode`; the
      decoder fails (`None`) on text that is not base64. */
  datatype Crypto = Crypto(
    hmacSha256: (Str, Str) -> Str,
    b64encode: Str -> Str,
    b64decode: Str -> Option<Str>)

  /** The keys of the token's dictionary. */
  datatype Field = Sr | Sig | Se | Skn

  function FieldName(f: Field): Str
  {
    match f
    case Sr => "sr"
    case Sig => "sig"
    case Se => "se"
    case Skn => "skn"
  }

  predicate NoDuplicates(order: seq<Field>)
  {
    forall i, j :: 0 <= i < j < |order| ==> order[i] != order[j]
  }

  /** An order in which `urlencode` may visit the dictionary's keys: the
      iteration order of a Python 2 dictionary is not fixed, so the model
      takes it as a parameter and proves nothing that depends on it. */
  predicate IsFieldOrder(order: seq<Field>)
  {
    NoDuplicates(order) && Sr in order && Sig in order && Se in order && Skn in order
  }

  /** Both ways `generate_sas_token` raises `TypeError`: a `None` operand of
      the URI concatenation, or a key `b64decode` rejects (`None` included). */
  datatype TokenError = MissingUriPart | UndecodableKey

  const DefaultLifetime: int := 3600
  const Prefix: Str := "SharedAccessSignature "

  /** `hostname + "/devices/" + device_id`. */
  function ResourceUri(cs: ConnectionString): (r: Option<Str>)
    ensures r.Some? <==> cs.hostname.Some? && cs.deviceId.Some?
    ensures r.Some? ==> cs.hostname.value <= r.value && |r.value| == |cs.hostname.value| + 9 + |cs.deviceId.value|
  {
    if cs.hostname.Some? && cs.deviceId.Some? then Some(cs.hostname.value + "/devices/" + cs.deviceId.value)
    else None
  }

  /** The expiry used: the given one when it is truthy, otherwise one hour
      from `now` (`now` stands for `int(time.time())`). */
  function Expiry(expiry: Option<int>, now: nat): (ttl: int)
    ensures expiry.Some? && expiry.value != 0 ==> ttl == expiry.value
    ensures expiry.None? || expiry.value == 0 ==> ttl == now + 3600
  {
    if expiry.None? || expiry.value == 0 then now + DefaultLifetime else expiry.value
  }

  /** `'%s\n%d' % (quote_plus(uri), ttl)`. */
  function SignInput(uri: Str, ttl: int): Str
  {
    QuotePlus(uri) + "\n" + DecimalText(ttl)
  }

  /** The sign input reads back: it splits at its only newline into the
      quoted URI, which unquotes to the URI, and the decimal text of `ttl`. */
  lemma SignInputReadsBack(uri: Str, ttl: int)
    ensures Partition(SignInput(uri, ttl), '\n') == (QuotePlus(uri), DecimalText(ttl))
    ensures UnquotePlus(Partition(SignInput(uri, ttl), '\n').0) == uri
    ensures IntValue(Partition(SignInput(uri, ttl), '\n').1) == ttl
  {
    var q := QuotePlus(uri);
    assert '\n' !in q by {
      forall i | 0 <= i < |q| ensures q[i] != '\n' {
        assert QuotedChar(q[i]);
      }
    }
    PartitionAtFirst(q, '\n', DecimalText(ttl));
    assert SignInput(uri, ttl) == q + ['\n'] + DecimalText(ttl);
    UnquoteQuote(uri);
    DecimalTextValue(ttl);
  }

  /** `b64decode(shared_access_key)`. */
  function SigningKey(cs: ConnectionString, crypto: Crypto): Option<Str>
  {
    if cs.sharedAccessKey.None? then None else crypto.b64decode(cs.sharedAccessKey.value)
  }

  /** The dictionary `result`, `skn` being absent unless the key name is truthy. */
  datatype TokenFields = TokenFields(sr: Str, sig: Str, se: Str, skn: Option<Str>)

  function FieldValue(t: TokenFields, f: Field): Option<Str>
  {
    match f
    case Sr => Some(t.sr)
    case Sig => Some(t.sig)
    case Se => Some(t.se)
    case Skn => t.skn
  }

  function Fields(cs: ConnectionString, expiry: Option<int>, now: nat, crypto: Crypto): Result<TokenFields, TokenError>
  {
    var uri := ResourceUri(cs);
    if uri.None? then Err(MissingUriPart)
    else
      var ttl := Expiry(expiry, now);
      var key := SigningKey(cs, crypto);
      if key.None? then Err(UndecodableKey)
      else
        var signature := crypto.b64encode(crypto.hmacSha256(key.value, SignInput(uri.value, ttl)));
        var skn := if Truthy(cs.sharedAccessKeyName) then cs.sharedAccessKeyName else None;
        Ok(TokenFields(uri.value, signature, DecimalText(ttl), skn))
  }

  /** The dictionary's items in the order `order`. */
  function Pair(t: TokenFields, f: Field): seq<(Str, Str)>
  {
    match FieldValue(t, f)
    case None => []
    case Some(v) => [(FieldName(f), v)]
  }

  function Pairs(t: TokenFields, order: seq<Field>): seq<(Str, Str)>
  {
    if |order| == 0 then [] else Pair(t, order[0]) + Pairs(t, order[1..])
  }

  /** `'SharedAccessSignature ' + urlencode(result)`. */
  function GenerateSasToken(cs: ConnectionString, expiry: Option<int>, now: nat, crypto: Crypto, order: seq<Field>)
    : (r: Result<Str, TokenError>)
    requires IsFieldOrder(order)
    ensures r == Err(MissingUriPart) <==> cs.hostname.None? || cs.deviceId.None?
    ensures r == Err(UndecodableKey) <==> cs.hostname.Some? && cs.deviceId.Some? && SigningKey(cs, crypto).None?
    ensures r.Ok? ==> Prefix <= r.value
  {
    match Fields(cs, expiry, now, crypto)
    case Err(e) => Err(e)
    case Ok(t) => Ok(Prefix + UrlEncode(Pairs(t, order)))
  }

  /** Reading a token back into its items. */
  function DecodeToken(token: Str): Option<seq<(Str, Str)>>
  {
    if Prefix <= token then Some(UrlDecode(token[|Prefix|..])) else None
  }

  /** The four keys are different strings (their second letters differ). */
  lemma FieldNamesDistinct(f: Field, g: Field)
    requires f != g
    ensures FieldName(f) != FieldName(g)
  {
    assert FieldName(f)[1] != FieldName(g)[1];
  }

  lemma {:induction false} FindMiss(front: seq<(Str, Str)>, back: seq<(Str, Str)>, name: Str)
    requires forall i :: 0 <= i < |front| ==> front[i].0 != name
    ensures Find(front + back, name) == Find(back, name)
  {
    if |front| > 0 {
      assert (front + back)[0] == front[0];
      assert (front + back)[1..] == front[1..] + back;
      assert forall i :: 0 <= i < |front[1..]| ==> front[1..][i] == front[i + 1];
      FindMiss(front[1..], back, name);
    } else {
      assert front + back == back;
    }
  }

  /** Each field's value is found under its name, whatever the order. */
  lemma {:induction false} FindPairs(t: TokenFields, order: seq<Field>, f: Field)
    requires NoDuplicates(order)
    ensures Find(Pairs(t, order), FieldName(f)) == if f in order then FieldValue(t, f) else None
  {
    if |order| > 0 {
      assert NoDuplicates(order[1..]) by {
        forall i, j | 0 <= i < j < |order[1..]| ensures order[1..][i] != order[1..][j] {
          assert order[1..][i] == order[i + 1] && order[1..][j] == order[j + 1];
        }
      }
      FindPairs(t, order[1..], f);
      var front := Pair(t, order[0]);
      if order[0] == f {
        assert f !in order[1..] by {
          forall j | 0 <= j < |order[1..]| ensures order[1..][j] != f {
            assert order[1..][j] == order[j + 1];
          }
        }
        if FieldValue(t, f).None? {
          assert front == [];
          assert Pairs(t, order) == Pairs(t, order[1..]);
        }
      } else {
        FieldNamesDistinct(order[0], f);
        FindMiss(front, Pairs(t, order[1..]), FieldName(f));
        assert f in order <==> f in order[1..] by {
          assert order == [order[0]] + order[1..];
        }
      }
    }
  }

  lemma PairsCount(t: TokenFields, order: seq<Field>)
    requires IsFieldOrder(order)
    ensures |Pairs(t, order)| > 0
  {
    var i :| 0 <= i < |order| && order[i] == Sr;
    PairsContainsSr(t, order, i);
  }

  lemma {:induction false} PairsContainsSr(t: TokenFields, order: seq<Field>, i: int)
    requires 0 <= i < |order| && order[i] == Sr
    ensures |Pairs(t, order)| > 0
  {
    if i > 0 {
      PairsContainsSr(t, order[1..], i - 1);
    }
  }

  /** A generated token reads back into its items: `sr` is the resource
      URI, `se` the decimal text of the expiry, `sig` the base64 HMAC of the
      sign input made of the quoted `sr` and `se`, and `skn` is present
      exactly when the key name is truthy, holding the key name. */
  lemma TokenRoundTrip(cs: ConnectionString, expiry: Option<int>, now: nat, crypto: Crypto, order: seq<Field>)
    requires IsFieldOrder(order)
    requires cs.hostname.Some? && cs.deviceId.Some? && SigningKey(cs, crypto).Some?
    ensures GenerateSasToken(cs, expiry, now, crypto, order).Ok?
    ensures var items := DecodeToken(GenerateSasToken(cs, expiry, now, crypto, order).value);
      var uri, ttl := cs.hostname.value + "/devices/" + cs.deviceId.value, Expiry(expiry, now);
      && items.Some?
      && Find(items.value, FieldName(Sr)) == Some(uri)
      && Find(items.value, FieldName(Se)) == Some(DecimalText(ttl))
      && Find(items.value, FieldName(Sig)) == Some(crypto.b64encode(crypto.hmacSha256(SigningKey(cs, crypto).value, SignInput(uri, ttl))))
      && Find(items.value, FieldName(Skn)) == (if Truthy(cs.sharedAccessKeyName) then cs.sharedAccessKeyName else None)
      && |items.value| == (if Truthy(cs.sharedAccessKeyName) then 4 else 3)
  {
    var t := Fields(cs, expiry, now, crypto).value;
    var pairs := Pairs(t, order);
    var token := Prefix + UrlEncode(pairs);
    assert token[|Prefix|..] == UrlEncode(pairs);
    PairsCount(t, order);
    FindPairs(t, order, Sr);
    FindPairs(t, order, Se);
    FindPairs(t, order, Sig);
    FindPairs(t, order, Skn);
    PairsLength(t, order);
  }

  lemma {:induction false} PairsLength(t: TokenFields, order: seq<Field>)
    requires IsFieldOrder(order)
    ensures |Pairs(t, order)| == if t.skn.Some? then 4 else 3
  {
    PairsLengthFrom(t, order);
    FieldOrderLength(order);
  }

  lemma {:induction false} PairsLengthFrom(t: TokenFields, order: seq<Field>)
    ensures |Pairs(t, order)| == |order| - (if t.skn.None? then multiset(order)[Skn] else 0)
  {
    if |order| > 0 {
      PairsLengthFrom(t, order[1..]);
      assert order == [order[0]] + order[1..];
    }
  }

  lemma FieldOrderLength(order: seq<Field>)
    requires IsFieldOrder(order)
    ensures |order| == 4 && multiset(order)[Skn] == 1
  {
    var m := multiset(order);
    forall f: Field ensures m[f] == 1 {
      var i :| 0 <= i < |order| && order[i] == f;
      OccursOnce(order, i);
    }
    assert multiset(order) == multiset{Sr, Sig, Se, Skn};
  }

  lemma {:induction false} OccursOnce(order: seq<Field>, i: int)
    requires NoDuplicates(order) && 0 <= i < |order|
    ensures multiset(order)[order[i]] == 1
  {
    var f := order[i];
    assert order == order[..i] + [f] + order[i + 1..];
    assert f !in order[..i] by {
      forall j | 0 <= j < i ensures order[..i][j] != f {
        assert order[..i][j] == order[j];
      }
    }
    var back := order[i + 1..];
    assert f !in back by {
      forall j | 0 <= j < |back| ensures back[j] != f {
        assert back[j] == order[i + 1 + j];
      }
    }
  }

  /** The sign input is ASCII, so Python 2's `encode('utf-8')` of it cannot
      fail and leaves it unchanged. */
  lemma SignInputIsAscii(uri: Str, ttl: int)
    ensures forall i :: 0 <= i < |SignInput(uri, ttl)| ==> SignInput(uri, ttl)[i] as int < 128
  {
    var q, d := QuotePlus(uri), DecimalText(ttl);
    assert SignInput(uri, ttl) == q + ['\n'] + d;
    forall i | 0 <= i < |SignInput(uri, ttl)|
      ensures SignInput(uri, ttl)[i] as int < 128
    {
      if i < |q| {
        assert QuotedChar(q[i]);
      } else if i > |q| {
        assert IsDigit(d[i - |q| - 1]) || d[i - |q| - 1] == '-';
      }
    }
  }

  /** With a truthy expiry the token does not depend on the clock. */
  lemma TokenIgnoresClock(cs: ConnectionString, expiry: int, now1: nat, now2: nat, crypto: Crypto, order: seq<Field>)
    requires IsFieldOrder(order) && expiry != 0
    ensures GenerateSasToken(cs, Some(expiry), now1, crypto, order) == GenerateSasToken(cs, Some(expiry), now2, crypto, order)
  {
  }

  /** A falsy expiry, `None` or `0`, means one hour from now. */
  lemma FalsyExpiryDefaults(cs: ConnectionString, now: nat, crypto: Crypto, order: seq<Field>)
    requires IsFieldOrder(order)
    ensures GenerateSasToken(cs, None, now, crypto, order) == GenerateSasToken(cs, Some(0), now, crypto, order)
                                                          == GenerateSasToken(cs, Some(now + 3600), now, crypto, order)
  {
  }
}
