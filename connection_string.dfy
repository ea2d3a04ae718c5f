/** The device credential: parsing `Key=Value;...` connection strings
    (azure_iot_device/connection_string.py). */
module ConnectionStrings {
  import opened Text

  /** `ConnectionString(device_id, shared_access_key_name, shared_access_key,
      hostname)`: the constructor stores whatever it is given, so every field
      may be `None`. */
  datatype ConnectionString = ConnectionString(
    deviceId: Option<Str>,
    sharedAccessKeyName: Option<Str>,
    sharedAccessKey: Option<Str>,
    hostname: Option<Str>)

  datatype ParseError = InvalidConnectionString   // ValueError("Invalid connection string")

  /** The four keys `parse` recognises, compared after `lower()`. */
  datatype Key = HostName | SharedAccessKeyName | SharedAccessKey | DeviceId | Unrecognised

  function Classify(key: Str): Key
  {
    var k := Lower(key);
    if k == "hostname" then HostName
    else if k == "sharedaccesskeyname" then SharedAccessKeyName
    else if k == "sharedaccesskey" then SharedAccessKey
    else if k == "deviceid" then DeviceId
    else Unrecognised
  }

  /** The key (classified) and the value of one `;`-separated element,
      cut at its first `=`. */
  function Entry(element: Str): (Key, Str)
  {
    var kv := Partition(element, '=');
    (Classify(kv.0), kv.1)
  }

  function Entries(elements: seq<Str>): (r: seq<(Key, Str)>)
    ensures |r| == |elements|
    ensures forall i :: 0 <= i < |elements| ==> r[i] == Entry(elements[i])
  {
    seq(|elements|, i requires 0 <= i < |elements| => Entry(elements[i]))
  }

  lemma EntriesConcat(a: seq<Str>, b: seq<Str>)
    ensures Entries(a + b) == Entries(a) + Entries(b)
  {
    assert forall i :: 0 <= i < |a| ==> (a + b)[i] == a[i];
    assert forall i :: |a| <= i < |a| + |b| ==> (a + b)[i] == b[i - |a|];
  }

  /** The value of the LAST entry whose key is `k`, or `None`. */
  function LastValue(entries: seq<(Key, Str)>, k: Key): Option<Str>
  {
    if |entries| == 0 then None
    else if entries[|entries| - 1].0 == k then Some(entries[|entries| - 1].1)
    else LastValue(entries[..|entries| - 1], k)
  }

  function StripSlashes(v: Option<Str>): Option<Str>
  {
    match v
    case None => None
    case Some(s) => Some(RStrip(s, '/'))
  }

  /** The four values `parse` holds after its loop over the elements. */
  function Collect(entries: seq<(Key, Str)>): ConnectionString
  {
    ConnectionString(
      LastValue(entries, DeviceId),
      LastValue(entries, SharedAccessKeyName),
      LastValue(entries, SharedAccessKey),
      StripSlashes(LastValue(entries, HostName)))
  }

  function Scan(s: Str): ConnectionString
  {
    Collect(Entries(Split(s, ';')))
  }

  /** The acceptance rule of `parse`, on Python truthiness:
      `all([hostname, device_id, key]) or all([hostname, key_name, key])`. */
  predicate Complete(cs: ConnectionString)
  {
    (Truthy(cs.hostname) && Truthy(cs.deviceId) && Truthy(cs.sharedAccessKey))
    || (Truthy(cs.hostname) && Truthy(cs.sharedAccessKeyName) && Truthy(cs.sharedAccessKey))
  }

  /** What `ConnectionString.parse(s)` returns or raises. */
  function ParseSpec(s: Str): (r: Result<ConnectionString, ParseError>)
    ensures r.Ok? <==> Complete(Scan(s))
    ensures r.Ok? ==> r.value == Scan(s)
    ensures r.Ok? ==> Truthy(r.value.hostname) && Truthy(r.value.sharedAccessKey)
                      && (Truthy(r.value.deviceId) || Truthy(r.value.sharedAccessKeyName))
  {
    var cs := Scan(s);
    if Complete(cs) then Ok(cs) else Err(InvalidConnectionString)
  }

  /** `ConnectionString.parse`: one pass over `split(';')`, each element
      overwriting the variable its key names. */
  method Parse(connectionString: Str) returns (r: Result<ConnectionString, ParseError>)
    ensures r == ParseSpec(connectionString)
  {
    var hostname: Option<Str> := None;
    var sharedAccessKeyName: Option<Str> := None;
    var deviceId: Option<Str> := None;
    var sharedAccessKey: Option<Str> := None;
    var elements := Split(connectionString, ';');
    for i := 0 to |elements|
      invariant hostname == StripSlashes(LastValue(Entries(elements[..i]), HostName))
      invariant sharedAccessKeyName == LastValue(Entries(elements[..i]), SharedAccessKeyName)
      invariant sharedAccessKey == LastValue(Entries(elements[..i]), SharedAccessKey)
      invariant deviceId == LastValue(Entries(elements[..i]), DeviceId)
    {
      var kv := Partition(elements[i], '=');
      var key, value := Lower(kv.0), kv.1;
      EntriesStep(elements, i);
      ghost var front, e := Entries(elements[..i]), Entry(elements[i]);
      LastValueAppend(front, e, HostName);
      LastValueAppend(front, e, SharedAccessKeyName);
      LastValueAppend(front, e, SharedAccessKey);
      LastValueAppend(front, e, DeviceId);
      if key == "hostname" {
        hostname := Some(RStrip(value, '/'));
      } else if key == "sharedaccesskeyname" {
        sharedAccessKeyName := Some(value);
      } else if key == "sharedaccesskey" {
        sharedAccessKey := Some(value);
      } else if key == "deviceid" {
        deviceId := Some(value);
      }
    }
    assert elements[..|elements|] == elements;
    if (Truthy(hostname) && Truthy(deviceId) && Truthy(sharedAccessKey))
       || (Truthy(hostname) && Truthy(sharedAccessKeyName) && Truthy(sharedAccessKey))
    {
      r := Ok(ConnectionString(deviceId, sharedAccessKeyName, sharedAccessKey, hostname));
    } else {
      r := Err(InvalidConnectionString);
    }
  }

  lemma EntriesStep(elements: seq<Str>, i: nat)
    requires i < |elements|
    ensures Entries(elements[..i + 1]) == Entries(elements[..i]) + [Entry(elements[i])]
  {
    assert elements[..i + 1] == elements[..i] + [elements[i]];
    EntriesConcat(elements[..i], [elements[i]]);
  }

  lemma LastValueAppend(front: seq<(Key, Str)>, e: (Key, Str), k: Key)
    ensures LastValue(front + [e], k) == if e.0 == k then Some(e.1) else LastValue(front, k)
  {
    assert (front + [e])[..|front|] == front;
  }

  /** A key's field is `None` exactly when no element carries that key. */
  lemma {:induction false} LastValueNoneIff(entries: seq<(Key, Str)>, k: Key)
    ensures LastValue(entries, k).None? <==> forall i :: 0 <= i < |entries| ==> entries[i].0 != k
  {
    if |entries| > 0 {
      var n := |entries| - 1;
      LastValueNoneIff(entries[..n], k);
      assert forall i :: 0 <= i < n ==> entries[..n][i] == entries[i];
    }
  }

  ghost predicate IsLastOccurrence(entries: seq<(Key, Str)>, k: Key, i: int)
  {
    0 <= i < |entries| && entries[i].0 == k && forall j :: i < j < |entries| ==> entries[j].0 != k
  }

  /** Otherwise the field holds the value of the LAST element carrying the key. */
  lemma {:induction false} LastValueFindsLast(entries: seq<(Key, Str)>, k: Key) returns (i: int)
    requires LastValue(entries, k).Some?
    ensures IsLastOccurrence(entries, k, i) && LastValue(entries, k).value == entries[i].1
  {
    var n := |entries| - 1;
    if entries[n].0 == k {
      i := n;
    } else {
      i := LastValueFindsLast(entries[..n], k);
      assert entries[..n][i] == entries[i];
      assert forall j :: i < j < n ==> entries[..n][j] == entries[j];
    }
  }

  lemma {:induction false} LastValueSkips(front: seq<(Key, Str)>, e: (Key, Str), back: seq<(Key, Str)>, k: Key)
    requires e.0 != k
    ensures LastValue(front + [e] + back, k) == LastValue(front + back, k)
  {
    if |back| == 0 {
      assert front + [e] + back == front + [e];
      assert front + back == front;
      LastValueAppend(front, e, k);
    } else {
      var n := |back| - 1;
      assert (front + [e] + back)[..|front| + 1 + n] == front + [e] + back[..n];
      assert (front + back)[..|front| + n] == front + back[..n];
      LastValueSkips(front, e, back[..n], k);
    }
  }

  /** The elements of `a;e;b` are those of `a`, then `e`, then those of `b`. */
  lemma SplitAround(a: Str, e: Str, b: Str)
    requires ';' !in e
    ensures Split(a + ";" + e + ";" + b, ';') == Split(a, ';') + [e] + Split(b, ';')
  {
    assert a + ";" + e + ";" + b == a + [';'] + (e + [';'] + b);
    SplitAtSeparator(a, ';', e + ";" + b);
    SplitAtSeparator(e, ';', b);
    SplitWithoutSeparator(e, ';');
  }

  lemma SameEntriesAround(a: seq<Str>, e1: Str, e2: Str, b: seq<Str>)
    requires Entry(e1) == Entry(e2)
    ensures Entries(a + [e1] + b) == Entries(a + [e2] + b)
  {
    var s1, s2 := a + [e1] + b, a + [e2] + b;
    forall i | 0 <= i < |s1|
      ensures Entries(s1)[i] == Entries(s2)[i]
    {
      if i != |a| {
        assert s1[i] == s2[i];
      }
    }
  }

  /** An entry with an unrecognised key leaves every field as it was. */
  lemma CollectSkips(front: seq<(Key, Str)>, e: (Key, Str), back: seq<(Key, Str)>)
    requires e.0 == Unrecognised
    ensures Collect(front + [e] + back) == Collect(front + back)
  {
    LastValueSkips(front, e, back, HostName);
    LastValueSkips(front, e, back, SharedAccessKeyName);
    LastValueSkips(front, e, back, SharedAccessKey);
    LastValueSkips(front, e, back, DeviceId);
  }

  /** An element with an unrecognised key (such as `DevjceId=...`) changes
      nothing, between other elements ... */
  lemma ParseIgnoresUnknownKey(a: Str, e: Str, b: Str)
    requires ';' !in e
    requires Entry(e).0 == Unrecognised
    ensures ParseSpec(a + ";" + e + ";" + b) == ParseSpec(a + ";" + b)
  {
    ScanIgnoresUnknownKey(a, e, b);
  }

  lemma ScanIgnoresUnknownKey(a: Str, e: Str, b: Str)
    requires ';' !in e
    requires Entry(e).0 == Unrecognised
    ensures Scan(a + ";" + e + ";" + b) == Scan(a + ";" + b)
  {
    SplitAround(a, e, b);
    SplitAtSeparator(a, ';', b);
    var fa, fb := Split(a, ';'), Split(b, ';');
    EntriesConcat(fa + [e], fb);
    EntriesConcat(fa, [e]);
    EntriesConcat(fa, fb);
    assert Entries([e]) == [Entry(e)];
    assert Entries(Split(a + ";" + e + ";" + b, ';')) == Entries(fa) + [Entry(e)] + Entries(fb);
    assert Entries(Split(a + ";" + b, ';')) == Entries(fa) + Entries(fb);
    CollectSkips(Entries(fa), Entry(e), Entries(fb));
  }

  /** ... and in front of them. */
  lemma ParseIgnoresLeadingUnknownKey(e: Str, b: Str)
    requires ';' !in e
    requires Entry(e).0 == Unrecognised
    ensures ParseSpec(e + ";" + b) == ParseSpec(b)
  {
    ScanIgnoresLeadingUnknownKey(e, b);
  }

  lemma ScanIgnoresLeadingUnknownKey(e: Str, b: Str)
    requires ';' !in e
    requires Entry(e).0 == Unrecognised
    ensures Scan(e + ";" + b) == Scan(b)
  {
    EntriesLeading(e, b);
    CollectSkipsFirst(Entry(e), Entries(Split(b, ';')));
  }

  lemma CollectSkipsFirst(e: (Key, Str), back: seq<(Key, Str)>)
    requires e.0 == Unrecognised
    ensures Collect([e] + back) == Collect(back)
  {
    CollectSkips([], e, back);
    assert [] + [e] + back == [e] + back;
    assert [] + back == back;
  }

  lemma EntriesLeading(e: Str, b: Str)
    requires ';' !in e
    ensures Entries(Split(e + ";" + b, ';')) == [Entry(e)] + Entries(Split(b, ';'))
  {
    SplitAtSeparator(e, ';', b);
    SplitWithoutSeparator(e, ';');
    EntriesConcat([e], Split(b, ';'));
    assert Entries([e]) == [Entry(e)];
  }

  /** Keys match without regard to case: respelling a key in another case
      changes nothing. */
  lemma ParseIgnoresKeyCase(a: Str, k1: Str, k2: Str, v: Str, b: Str)
    requires EqualIgnoringCase(k1, k2)
    requires '=' !in k1 && '=' !in k2
    requires ';' !in k1 && ';' !in k2 && ';' !in v
    ensures ParseSpec(a + ";" + (k1 + "=" + v) + ";" + b) == ParseSpec(a + ";" + (k2 + "=" + v) + ";" + b)
  {
    var e1, e2 := k1 + "=" + v, k2 + "=" + v;
    LowerEqualIff(k1, k2);
    EntryIgnoresKeyCase(k1, k2, v);
    var s1, s2 := a + ";" + e1 + ";" + b, a + ";" + e2 + ";" + b;
    SplitAround(a, e1, b);
    SplitAround(a, e2, b);
    SameEntriesAround(Split(a, ';'), e1, e2, Split(b, ';'));
    assert Scan(s1) == Scan(s2);
  }

  lemma EntryIgnoresKeyCase(k1: Str, k2: Str, v: Str)
    requires Lower(k1) == Lower(k2)
    requires '=' !in k1 && '=' !in k2
    ensures Entry(k1 + "=" + v) == Entry(k2 + "=" + v)
  {
    PartitionAtFirst(k1, '=', v);
    PartitionAtFirst(k2, '=', v);
    assert k1 + "=" + v == k1 + ['='] + v;
    assert k2 + "=" + v == k2 + ['='] + v;
  }

  lemma CollectAppend(front: seq<(Key, Str)>, e: (Key, Str))
    ensures var cs := Collect(front + [e]);
      match e.0
      case HostName => cs.hostname == Some(RStrip(e.1, '/'))
      case SharedAccessKeyName => cs.sharedAccessKeyName == Some(e.1)
      case SharedAccessKey => cs.sharedAccessKey == Some(e.1)
      case DeviceId => cs.deviceId == Some(e.1)
      case Unrecognised => cs == Collect(front)
  {
    LastValueAppend(front, e, HostName);
    LastValueAppend(front, e, SharedAccessKeyName);
    LastValueAppend(front, e, SharedAccessKey);
    LastValueAppend(front, e, DeviceId);
  }

  /** A final `key=value` element decides that key's field whatever came
      before it (the last occurrence wins), and the element is cut at its
      first `=` only, so a value holding `=` (base64 padding) is kept whole. */
  lemma ParseLastOccurrenceWins(a: Str, key: Str, value: Str, k: Key)
    requires '=' !in key && ';' !in key && ';' !in value
    requires Classify(key) == k
    ensures var cs := Scan(a + ";" + (key + "=" + value));
      match k
      case HostName => cs.hostname == Some(RStrip(value, '/'))
      case SharedAccessKeyName => cs.sharedAccessKeyName == Some(value)
      case SharedAccessKey => cs.sharedAccessKey == Some(value)
      case DeviceId => cs.deviceId == Some(value)
      case Unrecognised => cs == Scan(a)
  {
    EntryOfElement(key, value);
    EntriesTrailing(a, key + "=" + value);
    CollectAppend(Entries(Split(a, ';')), (k, value));
  }

  /** `key=value` is cut at its first `=`. */
  lemma EntryOfElement(key: Str, value: Str)
    requires '=' !in key
    ensures Entry(key + "=" + value) == (Classify(key), value)
  {
    PartitionAtFirst(key, '=', value);
    assert key + "=" + value == key + ['='] + value;
  }

  lemma EntriesTrailing(a: Str, e: Str)
    requires ';' !in e
    ensures Entries(Split(a + ";" + e, ';')) == Entries(Split(a, ';')) + [Entry(e)]
  {
    SplitAtSeparator(a, ';', e);
    SplitWithoutSeparator(e, ';');
    EntriesConcat(Split(a, ';'), [e]);
    assert Entries([e]) == [Entry(e)];
  }

  /** A key that never occurs leaves its field `None`: a missing key name is
      `None`, not "". */
  lemma ParseAbsentKeyIsNone(s: Str, k: Key)
    requires forall i :: 0 <= i < |Split(s, ';')| ==> Entry(Split(s, ';')[i]).0 != k
    ensures k == HostName ==> Scan(s).hostname == None
    ensures k == DeviceId ==> Scan(s).deviceId == None
    ensures k == SharedAccessKeyName ==> Scan(s).sharedAccessKeyName == None
    ensures k == SharedAccessKey ==> Scan(s).sharedAccessKey == None
  {
    LastValueNoneIff(Entries(Split(s, ';')), k);
  }

  /** The stored hostname never ends in `/` ... */
  lemma ParsedHostnameNoTrailingSlash(s: Str)
    ensures var h := Scan(s).hostname; h.Some? ==> |h.value| == 0 || h.value[|h.value| - 1] != '/'
  {
  }

  /** ... and a hostname made only of slashes counts as missing. */
  lemma SlashOnlyHostnameFails(s: Str)
    ensures var raw := LastValue(Entries(Split(s, ';')), HostName);
            (raw.Some? && forall i :: 0 <= i < |raw.value| ==> raw.value[i] == '/') ==> ParseSpec(s).Err?
  {
    var raw := LastValue(Entries(Split(s, ';')), HostName);
    if raw.Some? && forall i :: 0 <= i < |raw.value| ==> raw.value[i] == '/' {
      var r := RStrip(raw.value, '/');
      assert |r| == 0;
      assert !Truthy(Scan(s).hostname);
    }
  }

  /** The text of a credential: its present fields as `Key=value`
      elements joined by `;`, the keys in the order `order`. */
  function Element(name: Str, v: Option<Str>): seq<Str>
  {
    if v.Some? then [name + "=" + v.value] else []
  }

  /** The spelling of each key, as the repository's tests write it. */
  function KeyText(k: Key): Str
  {
    match k
    case HostName => "Hostname"
    case DeviceId => "DeviceId"
    case SharedAccessKeyName => "SharedAccessKeyName"
    case SharedAccessKey => "SharedAccessKey"
    case Unrecognised => ""
  }

  function Field(cs: ConnectionString, k: Key): Option<Str>
  {
    match k
    case HostName => cs.hostname
    case DeviceId => cs.deviceId
    case SharedAccessKeyName => cs.sharedAccessKeyName
    case SharedAccessKey => cs.sharedAccessKey
    case Unrecognised => None
  }

  predicate DistinctKeys(order: seq<Key>)
  {
    forall i, j :: 0 <= i < j < |order| ==> order[i] != order[j]
  }

  /** An order of the four keys: each once, nothing else. */
  predicate IsKeyOrder(order: seq<Key>)
  {
    && DistinctKeys(order) && Unrecognised !in order
    && HostName in order && DeviceId in order && SharedAccessKeyName in order && SharedAccessKey in order
  }

  function Elements(cs: ConnectionString, order: seq<Key>): seq<Str>
  {
    if |order| == 0 then []
    else
      var k := order[|order| - 1];
      Elements(cs, order[..|order| - 1]) + Element(KeyText(k), Field(cs, k))
  }

  function Format(cs: ConnectionString, order: seq<Key>): Str
  {
    Join(Elements(cs, order), ';')
  }

  /** The order of the repository's tests: `Hostname=...;DeviceId=...;
      SharedAccessKeyName=...;SharedAccessKey=...`. */
  const TestOrder: seq<Key> := [HostName, DeviceId, SharedAccessKeyName, SharedAccessKey]

  /** Field values that `Format` can carry: no `;` anywhere, and a hostname
      that `parse` would not strip. */
  predicate Formattable(cs: ConnectionString)
  {
    (cs.hostname.Some? ==> ';' !in cs.hostname.value && (|cs.hostname.value| == 0 || cs.hostname.value[|cs.hostname.value| - 1] != '/'))
    && (cs.deviceId.Some? ==> ';' !in cs.deviceId.value)
    && (cs.sharedAccessKeyName.Some? ==> ';' !in cs.sharedAccessKeyName.value)
    && (cs.sharedAccessKey.Some? ==> ';' !in cs.sharedAccessKey.value)
  }

  lemma ClassifyHostname()
    ensures Classify("Hostname") == HostName && '=' !in "Hostname" && ';' !in "Hostname"
  {
    assert Lower("Hostname") == "hostname";
  }

  lemma ClassifyDeviceId()
    ensures Classify("DeviceId") == DeviceId && '=' !in "DeviceId" && ';' !in "DeviceId"
  {
    assert Lower("DeviceId") == "deviceid";
  }

  lemma ClassifyKeyName()
    ensures Classify("SharedAccessKeyName") == SharedAccessKeyName && '=' !in "SharedAccessKeyName" && ';' !in "SharedAccessKeyName"
  {
    assert Lower("SharedAccessKeyName") == "sharedaccesskeyname";
  }

  lemma ClassifyKey()
    ensures Classify("SharedAccessKey") == SharedAccessKey && '=' !in "SharedAccessKey" && ';' !in "SharedAccessKey"
  {
    assert Lower("SharedAccessKey") == "sharedaccesskey";
  }

  /** Each key's spelling is read back as that key. */
  lemma ClassifyKeyText(k: Key)
    requires k != Unrecognised
    ensures Classify(KeyText(k)) == k && '=' !in KeyText(k) && ';' !in KeyText(k)
  {
    match k
    case HostName => ClassifyHostname();
    case DeviceId => ClassifyDeviceId();
    case SharedAccessKeyName => ClassifyKeyName();
    case SharedAccessKey => ClassifyKey();
  }

  function Present(k: Key, v: Option<Str>): seq<(Key, Str)>
  {
    if v.Some? then [(k, v.value)] else []
  }

  lemma ElementEntry(name: Str, k: Key, v: Option<Str>)
    requires '=' !in name && Classify(name) == k
    ensures Entries(Element(name, v)) == Present(k, v)
  {
    if v.Some? {
      PartitionAtFirst(name, '=', v.value);
      assert name + "=" + v.value == name + ['='] + v.value;
    }
  }

  lemma LastValuePresent(front: seq<(Key, Str)>, k2: Key, v: Option<Str>, k: Key)
    ensures LastValue(front + Present(k2, v), k) == if k2 == k && v.Some? then v else LastValue(front, k)
  {
    if v.Some? {
      LastValueAppend(front, (k2, v.value), k);
    } else {
      assert front + Present(k2, v) == front;
    }
  }

  /** Whatever the order the keys are written in, scanning the elements
      finds each written key's value, and nothing for a key not written. */
  lemma {:induction false} LastValueElements(cs: ConnectionString, order: seq<Key>, k: Key)
    requires DistinctKeys(order) && Unrecognised !in order
    ensures LastValue(Entries(Elements(cs, order)), k) == if k in order then Field(cs, k) else None
  {
    if |order| > 0 {
      var n := |order| - 1;
      var front, last := order[..n], order[n];
      assert order == front + [last];
      assert DistinctKeys(front) by {
        forall i, j | 0 <= i < j < |front| ensures front[i] != front[j] {
          assert front[i] == order[i] && front[j] == order[j];
        }
      }
      LastValueElements(cs, front, k);
      ClassifyKeyText(last);
      ElementEntry(KeyText(last), last, Field(cs, last));
      EntriesConcat(Elements(cs, front), Element(KeyText(last), Field(cs, last)));
      LastValuePresent(Entries(Elements(cs, front)), last, Field(cs, last), k);
      if last == k {
        assert k !in front by {
          forall i | 0 <= i < |front| ensures front[i] != k {
            assert front[i] == order[i];
          }
        }
      }
    }
  }

  lemma {:induction false} ElementsHaveNoSemicolon(cs: ConnectionString, order: seq<Key>)
    requires Formattable(cs) && Unrecognised !in order
    ensures forall i :: 0 <= i < |Elements(cs, order)| ==> ';' !in Elements(cs, order)[i]
  {
    if |order| > 0 {
      var n := |order| - 1;
      var front, last := order[..n], order[n];
      assert Unrecognised !in front by {
        forall i | 0 <= i < |front| ensures front[i] != Unrecognised {
          assert front[i] == order[i];
        }
      }
      ElementsHaveNoSemicolon(cs, front);
      ClassifyKeyText(last);
      var v := Field(cs, last);
      if v.Some? {
        assert ';' !in v.value;
        assert ';' !in KeyText(last) + "=" + v.value;
      }
    }
  }

  lemma ScanElements(cs: ConnectionString, order: seq<Key>)
    requires Formattable(cs) && IsKeyOrder(order)
    ensures Collect(Entries(Elements(cs, order))) == cs
  {
    LastValueElements(cs, order, HostName);
    LastValueElements(cs, order, DeviceId);
    LastValueElements(cs, order, SharedAccessKeyName);
    LastValueElements(cs, order, SharedAccessKey);
  }

  /** Every field survives a format-then-scan round trip, whatever order
      the keys are written in. */
  lemma ScanFormat(cs: ConnectionString, order: seq<Key>)
    requires Formattable(cs) && IsKeyOrder(order)
    ensures Scan(Format(cs, order)) == cs
  {
    var es := Elements(cs, order);
    ScanElements(cs, order);
    if |es| == 0 {
      assert Split(Format(cs, order), ';') == [[]];
      assert Lower([]) == [];
      assert Entries([[]]) == [(Unrecognised, [])];
    } else {
      ElementsHaveNoSemicolon(cs, order);
      SplitJoin(es, ';');
    }
  }

  /** Parsing the text of a credential, its keys in any order, gives the
      credential back when it is complete, and fails as `parse` does when
      it is not. */
  lemma ParseFormatRoundTrip(cs: ConnectionString, order: seq<Key>)
    requires Formattable(cs) && IsKeyOrder(order)
    ensures ParseSpec(Format(cs, order)) == if Complete(cs) then Ok(cs) else Err(InvalidConnectionString)
  {
    ScanFormat(cs, order);
  }

  lemma ParsedValuesHaveNoSemicolon(s: Str, k: Key)
    ensures var v := LastValue(Entries(Split(s, ';')), k); v.Some? ==> ';' !in v.value
  {
    var es := Split(s, ';');
    var v := LastValue(Entries(es), k);
    if v.Some? {
      var i := LastValueFindsLast(Entries(es), k);
      if '=' in es[i] {
        assert es[i] == Partition(es[i], '=').0 + ['='] + Entry(es[i]).1;
      }
    }
  }

  /** Parsing is idempotent: a parsed credential, written out and parsed
      again, is the same credential. */
  lemma ParseIdempotent(s: Str, order: seq<Key>)
    requires ParseSpec(s).Ok? && IsKeyOrder(order)
    ensures ParseSpec(Format(ParseSpec(s).value, order)) == ParseSpec(s)
  {
    var cs := ParseSpec(s).value;
    ParsedValuesHaveNoSemicolon(s, HostName);
    ParsedValuesHaveNoSemicolon(s, DeviceId);
    ParsedValuesHaveNoSemicolon(s, SharedAccessKeyName);
    ParsedValuesHaveNoSemicolon(s, SharedAccessKey);
    var raw := LastValue(Entries(Split(s, ';')), HostName).value;
    assert cs.hostname.value <= raw;
    assert forall i :: 0 <= i < |cs.hostname.value| ==> cs.hostname.value[i] == raw[i];
    assert ';' !in cs.hostname.value;
    assert Formattable(cs);
    ParseFormatRoundTrip(cs, order);
  }

  // The cases of tests/test_connection_string.py, the long texts written
  // as concatenations of their elements.

  lemma TestOrderIsKeyOrder()
    ensures IsKeyOrder(TestOrder)
  {
  }

  lemma ParseFormatInTestOrder(cs: ConnectionString)
    requires Formattable(cs)
    ensures ParseSpec(Format(cs, TestOrder)) == if Complete(cs) then Ok(cs) else Err(InvalidConnectionString)
  {
    TestOrderIsKeyOrder();
    ParseFormatRoundTrip(cs, TestOrder);
  }

  /** The values of the tests hold no `;`, and the hostname no trailing `/`. */
  lemma TestValues()
    ensures ';' !in "host.name" && "host.name"[|"host.name"| - 1] != '/'
    ensures ';' !in "device" && ';' !in "keyname" && ';' !in "key"
  {
  }

  lemma TestOrderElements(cs: ConnectionString)
    ensures Elements(cs, TestOrder)
         == Element("Hostname", cs.hostname) + Element("DeviceId", cs.deviceId)
            + Element("SharedAccessKeyName", cs.sharedAccessKeyName) + Element("SharedAccessKey", cs.sharedAccessKey)
  {
    var o1, o2, o3 := [HostName], [HostName, DeviceId], [HostName, DeviceId, SharedAccessKeyName];
    assert o1 == [] + [HostName] && o2 == o1 + [DeviceId] && o3 == o2 + [SharedAccessKeyName];
    assert TestOrder == o3 + [SharedAccessKey];
    ElementsSnoc(cs, [], HostName);
    ElementsSnoc(cs, o1, DeviceId);
    ElementsSnoc(cs, o2, SharedAccessKeyName);
    ElementsSnoc(cs, o3, SharedAccessKey);
  }

  lemma ElementsSnoc(cs: ConnectionString, order: seq<Key>, k: Key)
    ensures Elements(cs, order + [k]) == Elements(cs, order) + Element(KeyText(k), Field(cs, k))
  {
    assert (order + [k])[..|order|] == order;
  }

  lemma JoinCons(e: Str, rest: seq<Str>)
    requires |rest| > 0
    ensures Join([e] + rest, ';') == e + ";" + Join(rest, ';')
  {
    assert ([e] + rest)[1..] == rest;
  }

  lemma JoinThree(e1: Str, e2: Str, e3: Str)
    ensures Join([e1, e2, e3], ';') == e1 + ";" + e2 + ";" + e3
  {
    assert [e1, e2, e3][1..] == [e2, e3];
    assert [e2, e3][1..] == [e3];
    assert Join([e2, e3], ';') == e2 + [';'] + e3;
    assert Join([e1, e2, e3], ';') == e1 + [';'] + (e2 + [';'] + e3);
  }

  lemma JoinFour(e1: Str, e2: Str, e3: Str, e4: Str)
    ensures Join([e1, e2, e3, e4], ';') == e1 + ";" + e2 + ";" + e3 + ";" + e4
  {
    assert [e1, e2, e3, e4][1..] == [e2, e3, e4];
    JoinThree(e2, e3, e4);
  }

  lemma ParseWithDeviceId()
    ensures ParseSpec("Hostname=host.name" + ";" + "DeviceId=device" + ";" + "SharedAccessKey=key")
         == Ok(ConnectionString(Some("device"), None, Some("key"), Some("host.name")))
  {
    var cs := ConnectionString(Some("device"), None, Some("key"), Some("host.name"));
    FormatWithDeviceId(cs);
    TestValues();
    ParseFormatInTestOrder(cs);
  }

  lemma FormatWithDeviceId(cs: ConnectionString)
    requires cs == ConnectionString(Some("device"), None, Some("key"), Some("host.name"))
    ensures Format(cs, TestOrder) == "Hostname=host.name" + ";" + "DeviceId=device" + ";" + "SharedAccessKey=key"
  {
    assert "Hostname" + "=" + "host.name" == "Hostname=host.name";
    assert "DeviceId" + "=" + "device" == "DeviceId=device";
    assert "SharedAccessKey" + "=" + "key" == "SharedAccessKey=key";
    TestOrderElements(cs);
    assert Elements(cs, TestOrder) == ["Hostname=host.name", "DeviceId=device", "SharedAccessKey=key"];
    JoinThree("Hostname=host.name", "DeviceId=device", "SharedAccessKey=key");
  }

  lemma ParseWithSharedAccessKeyName()
    ensures ParseSpec("Hostname=host.name" + ";" + "DeviceId=device" + ";" + "SharedAccessKeyName=keyname"
                      + ";" + "SharedAccessKey=key")
         == Ok(ConnectionString(Some("device"), Some("keyname"), Some("key"), Some("host.name")))
  {
    var cs := ConnectionString(Some("device"), Some("keyname"), Some("key"), Some("host.name"));
    FormatWithSharedAccessKeyName(cs);
    TestValues();
    ParseFormatInTestOrder(cs);
  }

  lemma FormatWithSharedAccessKeyName(cs: ConnectionString)
    requires cs == ConnectionString(Some("device"), Some("keyname"), Some("key"), Some("host.name"))
    ensures Format(cs, TestOrder)
         == "Hostname=host.name" + ";" + "DeviceId=device" + ";" + "SharedAccessKeyName=keyname"
            + ";" + "SharedAccessKey=key"
  {
    assert "Hostname" + "=" + "host.name" == "Hostname=host.name";
    assert "DeviceId" + "=" + "device" == "DeviceId=device";
    assert "SharedAccessKeyName" + "=" + "keyname" == "SharedAccessKeyName=keyname";
    assert "SharedAccessKey" + "=" + "key" == "SharedAccessKey=key";
    TestOrderElements(cs);
    assert Elements(cs, TestOrder) == ["Hostname=host.name", "DeviceId=device", "SharedAccessKeyName=keyname", "SharedAccessKey=key"];
    JoinFour("Hostname=host.name", "DeviceId=device", "SharedAccessKeyName=keyname", "SharedAccessKey=key");
  }

  lemma ParseMissingDeviceIdFails()
    ensures ParseSpec("Hostname=host.name" + ";" + "SharedAccessKey=key") == Err(InvalidConnectionString)
  {
    var cs := ConnectionString(None, None, Some("key"), Some("host.name"));
    FormatWithoutDeviceId(cs);
    TestValues();
    ParseFormatInTestOrder(cs);
  }

  lemma FormatWithoutDeviceId(cs: ConnectionString)
    requires cs == ConnectionString(None, None, Some("key"), Some("host.name"))
    ensures Format(cs, TestOrder) == "Hostname=host.name" + ";" + "SharedAccessKey=key"
  {
    assert "Hostname" + "=" + "host.name" == "Hostname=host.name";
    assert "SharedAccessKey" + "=" + "key" == "SharedAccessKey=key";
    TestOrderElements(cs);
    assert Elements(cs, TestOrder) == ["Hostname=host.name"] + ["SharedAccessKey=key"];
    JoinCons("Hostname=host.name", ["SharedAccessKey=key"]);
  }

  lemma KeyOnlyFails()
    ensures ParseSpec("SharedAccessKey=key") == Err(InvalidConnectionString)
  {
    var cs := ConnectionString(None, None, Some("key"), None);
    FormatKeyOnly(cs);
    TestValues();
    ParseFormatInTestOrder(cs);
  }

  lemma FormatKeyOnly(cs: ConnectionString)
    requires cs == ConnectionString(None, None, Some("key"), None)
    ensures Format(cs, TestOrder) == "SharedAccessKey=key"
  {
    assert "SharedAccessKey" + "=" + "key" == "SharedAccessKey=key";
    TestOrderElements(cs);
    assert Elements(cs, TestOrder) == ["SharedAccessKey=key"];
  }

  lemma ClassifyMisspelt()
    ensures Classify("DevjceId") == Unrecognised
  {
    var k := Lower("DevjceId");
    assert k[0] != "hostname"[0];
    assert k[3] != "deviceid"[3];
  }

  /** The misspelt `DevjceId` is an unrecognised key, so the hostname is
      missing (the test's `device` stands for any value). */
  lemma ParseMisspeltKeyFails(device: Str)
    requires ';' !in device
    ensures ParseSpec("DevjceId" + "=" + device + ";" + "SharedAccessKey=key") == Err(InvalidConnectionString)
  {
    MisspeltEntry(device);
    ParseIgnoresLeadingUnknownKey("DevjceId" + "=" + device, "SharedAccessKey=key");
    KeyOnlyFails();
  }

  lemma MisspeltEntry(device: Str)
    requires ';' !in device
    ensures ';' !in "DevjceId" + "=" + device
    ensures Entry("DevjceId" + "=" + device).0 == Unrecognised
  {
    PartitionAtFirst("DevjceId", '=', device);
    ClassifyMisspelt();
  }

  lemma ParseMissingSharedAccessKeyFails()
    ensures ParseSpec("Hostname=host.name" + ";" + "DeviceId=device") == Err(InvalidConnectionString)
  {
    var cs := ConnectionString(Some("device"), None, None, Some("host.name"));
    FormatWithoutKey(cs);
    TestValues();
    ParseFormatInTestOrder(cs);
  }

  lemma FormatWithoutKey(cs: ConnectionString)
    requires cs == ConnectionString(Some("device"), None, None, Some("host.name"))
    ensures Format(cs, TestOrder) == "Hostname=host.name" + ";" + "DeviceId=device"
  {
    assert "Hostname" + "=" + "host.name" == "Hostname=host.name";
    assert "DeviceId" + "=" + "device" == "DeviceId=device";
    TestOrderElements(cs);
    assert Elements(cs, TestOrder) == ["Hostname=host.name"] + ["DeviceId=device"];
    JoinCons("Hostname=host.name", ["DeviceId=device"]);
  }
}
