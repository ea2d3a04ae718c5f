# Azure IoT Hub device client (Python 2) — a Dafny model

This project models the two components of the Python 2 Azure IoT Hub device client that hold its logic.

- **Credentials** (`azure_iot_device/connection_string.py`).
  - `ConnectionString` is a value with four optional fields. Its `__init__` only stores them, so it is the datatype `ConnectionStrings.ConnectionString`.
  - `ConnectionString.parse` reads `Key=Value;...` text into such a value or raises `ValueError`. It is the imperative `ConnectionStrings.Parse`, proved equal to the reference reading `ConnectionStrings.ParseSpec`.
  - `generate_sas_token` builds the shared access signature the device sends as its MQTT password. It is the function `SasTokens.GenerateSasToken`.
  - Python 2 byte strings are `seq<Char8>`, in module `Text`. `quote_plus` and `urlencode` are written out exactly in module `UrlEncoding`. HMAC-SHA256, `b64encode` and `b64decode` are the function-valued fields of a `Crypto` parameter. The clock is the integer parameter `now`.
- **The connection lifecycle** (`azure_iot_device/device_client.py`).
  - The four-state machine of `DeviceClient` is an explicit transition table in `ConnectionStateMachine`.
  - The client is the class `DeviceClients.DeviceClient`. Its fields are:
    - the state;
    - the two observer slots;
    - whether a transport exists;
    - an append-only trace of the commands it gives its MQTT transport;
    - an append-only trace of the calls it makes to observers;
    - a ghost log `events` that interleaves the two traces in the order the calls happen, so a contract can say that an observer heard a state before or after a command was given.
  - The transport's callbacks (`on_connect`, `on_disconnect`, the message handler) are methods the environment calls. `on_connect` can arrive only once a transport exists, because paho calls it on the client `_connect` creates; `OnConnect` requires one. `on_disconnect` and the message handler may arrive at any time, and the state machine decides which triggers are legal.
  - An observer is the default `types.FunctionType`, a falsy value, or an application callable that either returns or raises once called.
  - Every exception raised by the client's own code or by an observer is an `Outcome`:
    - `MachineError` from an illegal trigger;
    - `TypeError` from calling the default observer;
    - the exception an application observer raises;
    - `TypeError` from concatenating `None`;
    - failures inside `generate_sas_token`;
    - the "cannot send if not connected" error.

The model follows the code where the system's documentation says otherwise:
- `parse` also accepts hostname plus key name plus key, with no device id. A client built on such a credential can never connect (`KeyNameCredentialCannotConnect`).
- The status observer is called on entry to all four states, not only to connected and disconnected.
- The observer slots default to `types.FunctionType`. It is truthy, so the slot counts as set, and calling it with a string raises `TypeError`. A client whose status observer was never assigned therefore raises from `connect()` and is left in connecting (`DefaultObserverBlocksConnect`).
- The transport reference is never reset, and `_disconnect` only stops the network loop.
- The sign input quotes the URI with `quote_plus`.
- Calling `connect()` outside disconnected raises `MachineError`. It is an error outcome, not a precondition.

## Model

| member | source | states |
|---|---|---|
| Text.Split | azure_iot_device/connection_string.py:47 | `split(';')` gives at least one piece, no piece holds the separator, and joining the pieces gives the input back |
| Text.SplitJoin | azure_iot_device/connection_string.py:47 | splitting undoes joining, for pieces free of the separator |
| Text.Partition | azure_iot_device/connection_string.py:48 | `partition('=')`: the key holds no `=`; with an `=`, key + `=` + value is the element; without one, the value is empty |
| Text.PartitionAtFirst | azure_iot_device/connection_string.py:48 | the cut is at the first `=`, so every later `=` stays in the value |
| Text.LowerEqualIff | azure_iot_device/connection_string.py:49-55 | two keys have the same `lower()` exactly when they have the same length and agree byte by byte up to the case of ASCII letters |
| Text.LowerIdempotent | azure_iot_device/connection_string.py:49-55 | lowering twice is lowering once, and a lowered string holds no upper-case letter |
| Text.RStrip | azure_iot_device/connection_string.py:50 | `rstrip('/')` returns a prefix that does not end in `/`, and every byte removed is `/` |
| Text.DecimalText | azure_iot_device/connection_string.py:30-36 | `%d` and `str` of an integer give a non-empty text of digits, with a minus sign only in front |
| Text.DecimalTextValue | azure_iot_device/connection_string.py:30-36 | the decimal text of `ttl` (`%d` and `str`) reads back as `ttl` |
| UrlEncoding.QuotePlus | azure_iot_device/connection_string.py:29 | `quote_plus` output consists of safe bytes, `+` and `%`, and a string of safe bytes comes back unchanged |
| UrlEncoding.UnquoteQuote | azure_iot_device/connection_string.py:29 | unquoting undoes `quote_plus` for every byte string |
| UrlEncoding.QuotedHasNoSeparators | azure_iot_device/connection_string.py:39 | no `&`, `=` or `;` survives quoting |
| UrlEncoding.UrlEncode | azure_iot_device/connection_string.py:39 | `urlencode` of a non-empty list of pairs decodes back to the same pairs in the same order |
| ConnectionStrings.ParseSpec | azure_iot_device/connection_string.py:57-60 | `parse` succeeds exactly when the hostname and key are truthy and the device id or the key name is truthy; the result holds the scanned fields |
| ConnectionStrings.Parse | azure_iot_device/connection_string.py:42-60 | the loop over the elements returns exactly what `ParseSpec` says, the error included |
| ConnectionStrings.LastValueNoneIff | azure_iot_device/connection_string.py:43-56 | a field is `None` exactly when no element carries its key |
| ConnectionStrings.LastValueFindsLast | azure_iot_device/connection_string.py:47-56 | a field, when set, holds the value of the last element carrying its key |
| ConnectionStrings.ParseLastOccurrenceWins | azure_iot_device/connection_string.py:47-56 | a final `key=value` element decides its key's field whatever came before; an unrecognised final key changes nothing |
| ConnectionStrings.EntryOfElement | azure_iot_device/connection_string.py:48-49 | `key=value` is classified by its key and keeps the whole value |
| ConnectionStrings.ParseAbsentKeyIsNone | azure_iot_device/connection_string.py:43-56 | a key that never occurs leaves its field `None`, not "" |
| ConnectionStrings.ParseIgnoresUnknownKey | azure_iot_device/connection_string.py:49-56 | an element with an unrecognised key between others changes neither the result nor the error |
| ConnectionStrings.ParseIgnoresLeadingUnknownKey | azure_iot_device/connection_string.py:49-56 | an element with an unrecognised key in front changes neither the result nor the error |
| ConnectionStrings.ParseIgnoresKeyCase | azure_iot_device/connection_string.py:49-56 | replacing a key by any spelling that differs from it only in the case of its letters changes nothing |
| ConnectionStrings.ParsedHostnameNoTrailingSlash | azure_iot_device/connection_string.py:50 | the stored hostname never ends in `/` |
| ConnectionStrings.SlashOnlyHostnameFails | azure_iot_device/connection_string.py:50-60 | a last hostname made only of slashes (`Hostname=/`) makes `parse` fail |
| ConnectionStrings.ParsedValuesHaveNoSemicolon | azure_iot_device/connection_string.py:47-48 | no parsed value holds `;` |
| ConnectionStrings.LastValueElements | azure_iot_device/connection_string.py:47-56 | in a credential written out with its keys in any order, each key's last value is its field, and a key not written is absent |
| ConnectionStrings.ScanFormat | azure_iot_device/connection_string.py:47-56 | writing out a credential whose values hold no `;` (and whose hostname has no trailing `/`), with the four keys in any order, and scanning it gives every field back |
| ConnectionStrings.ParseFormatRoundTrip | azure_iot_device/connection_string.py:42-60 | parsing a written-out credential, in any key order, returns it when it is complete and raises otherwise |
| ConnectionStrings.ParseIdempotent | azure_iot_device/connection_string.py:42-60 | a parsed credential, written out in any key order and parsed again, is the same credential |
| ConnectionStrings.ParseWithDeviceId | tests/test_connection_string.py:10-17 | the device-id test string parses to hostname `host.name`, device `device`, key `key` and no key name |
| ConnectionStrings.ParseWithSharedAccessKeyName | tests/test_connection_string.py:20-27 | the key-name test string parses to all four given values |
| ConnectionStrings.ParseMissingDeviceIdFails | tests/test_connection_string.py:29-33 | hostname and key alone raise |
| ConnectionStrings.ParseMisspeltKeyFails | tests/test_connection_string.py:35-39 | with `DevjceId=...` in front of the key, parsing raises for every device value free of `;` |
| ConnectionStrings.ParseMissingSharedAccessKeyFails | tests/test_connection_string.py:41-45 | hostname and device id alone raise |
| SasTokens.ResourceUri | azure_iot_device/connection_string.py:26 | the URI exists exactly when hostname and device id are present; it starts with the hostname and is 9 bytes longer than hostname and device id together |
| SasTokens.Expiry | azure_iot_device/connection_string.py:27-30 | a truthy expiry is the token's lifetime as given; `None` or `0` means one hour after `now` |
| SasTokens.SignInputReadsBack | azure_iot_device/connection_string.py:29-31 | the sign input splits at its only newline into the quoted URI, which unquotes to the URI, and the decimal text of the expiry, which reads back as the expiry |
| SasTokens.GenerateSasToken | azure_iot_device/connection_string.py:18-39 | raises on a missing URI part exactly when hostname or device id is `None`, and on the key exactly when both are present and the key does not decode; a token starts with `SharedAccessSignature ` |
| SasTokens.TokenRoundTrip | azure_iot_device/connection_string.py:26-39 | a token reads back into 3 items, or 4 with a truthy key name. `sr` is the URI. `se` is the decimal expiry. `sig` is the base64 HMAC of the quoted URI, a newline and that decimal text. `skn` is present exactly when the key name is truthy |
| SasTokens.FindPairs | azure_iot_device/connection_string.py:33-39 | whatever order the dictionary is visited in, each field is found under its own name |
| SasTokens.PairsLength | azure_iot_device/connection_string.py:33-38 | the dictionary has 4 items when it holds `skn` and 3 otherwise, whatever the visiting order |
| SasTokens.SignInputIsAscii | azure_iot_device/connection_string.py:29-32 | the sign input is ASCII, so its `encode('utf-8')` cannot fail and changes nothing |
| SasTokens.TokenIgnoresClock | azure_iot_device/connection_string.py:27-39 | with a truthy expiry the token does not depend on the clock |
| SasTokens.FalsyExpiryDefaults | azure_iot_device/connection_string.py:27-28 | `None` and `0` both mean one hour from now |
| ConnectionStateMachine.Lookup | azure_iot_device/device_client.py:21-27 | a trigger is accepted exactly when an edge leaves the current state with that trigger, and it then goes to that edge's destination |
| ConnectionStateMachine.Next | azure_iot_device/device_client.py:21-27 | a trigger the machine accepts leads along an edge of the table |
| ConnectionStateMachine.NextIff | azure_iot_device/device_client.py:21-27 | the next state is `d` exactly when the table holds the edge (trigger, state, `d`) |
| ConnectionStateMachine.TableIsDeterministic | azure_iot_device/device_client.py:21-26 | no two edges share a trigger and a source |
| ConnectionStateMachine.NextOfEdge | azure_iot_device/device_client.py:21-27 | each trigger labels one edge: from that edge's source it goes to the edge's destination, and from every other state it raises |
| ConnectionStateMachine.NextFollowsCycle | azure_iot_device/device_client.py:20-26 | each state has exactly one legal trigger, which moves one step along disconnected, connecting, connected, disconnecting |
| ConnectionStateMachine.RunFollowsCycle | azure_iot_device/device_client.py:20-27 | from disconnected, a history of triggers is accepted exactly when it repeats connect, on_connect, disconnect, on_disconnect, and it ends in the state its length points to |
| DeviceClients.SessionSetup | azure_iot_device/device_client.py:71-83 | the rest of `_connect` once the transport exists: a failure issues nothing; a success issues four commands, TLS first and the network loop last |
| DeviceClients.SessionSetupOutcome | azure_iot_device/device_client.py:71-72 | connecting fails on the username concatenation exactly when hostname or device id is `None`, and in the token exactly when the key does not decode; the token's missing-URI error never occurs there; a failure configures nothing |
| DeviceClients.SessionCredentials | azure_iot_device/device_client.py:71-83 | on success, in order: TLS, username `hostname/device_id` with a token whose `sr` is `hostname/devices/device_id` and whose `se` is now + 3600, a connection to the hostname on port 8883, then the loop |
| DeviceClients.KeyNameCredentialCannotConnect | azure_iot_device/device_client.py:71 | a credential `parse` accepts without a device id has a truthy key name, and connecting with it always raises at the username |
| DeviceClients.DeviceClient.constructor | azure_iot_device/device_client.py:17-34 | disconnected, no transport, both observers at the `types.FunctionType` default, nothing issued or emitted |
| DeviceClients.DeviceClient.SetConnectionStateObserver | azure_iot_device/device_client.py:33 | assigning the status observer slot |
| DeviceClients.DeviceClient.SetMessageObserver | azure_iot_device/device_client.py:34 | assigning the message observer slot |
| DeviceClients.DeviceClient.Fire | azure_iot_device/device_client.py:21-27 | an illegal trigger raises `MachineError` and changes nothing; a legal one moves to the table's destination and is recorded |
| DeviceClients.DeviceClient.EmitConnectionStatus | azure_iot_device/device_client.py:100-103 | a set application observer is called once with the current state's name and its exception, if any, propagates; the default raises without a call; a falsy slot is skipped |
| DeviceClients.DeviceClient.EnterConnecting | azure_iot_device/device_client.py:48-83 | emit first; if that raises, no transport. Otherwise a transport with client id = device id and clean session off, then what `SessionSetup` issues. The log holds the observer call before every command |
| DeviceClients.DeviceClient.SetUpSession | azure_iot_device/device_client.py:71-83 | the commands issued after the transport exists are exactly those of `SessionSetup`, and it ends as `SessionSetup` says |
| DeviceClients.DeviceClient.EnterDisconnecting | azure_iot_device/device_client.py:89-91 | emit, then only stop the loop (no transport disconnect) |
| DeviceClients.DeviceClient.Connect | azure_iot_device/device_client.py:43-46 | `connect()` outside disconnected raises and changes nothing; from disconnected it enters connecting and runs the hook |
| DeviceClients.DeviceClient.AttachHandler | azure_iot_device/device_client.py:52-55 | with the message observer set: attach the handler, then subscribe to the device's cloud-to-device topic, raising after the attach when the device id is `None`; an unset observer issues nothing |
| DeviceClients.DeviceClient.OnConnect | azure_iot_device/device_client.py:50-56 | with the message observer set: attach the handler and subscribe to `devices/<id>/messages/devicebound/#` before the trigger. Then connecting becomes connected and emits; any other state raises. The result code is not read |
| DeviceClients.DeviceClient.FireOnConnect | azure_iot_device/device_client.py:56 | `self._fsm.on_connect()`: from connecting, move to connected and emit the status; from any other state raise and change nothing |
| DeviceClients.DeviceClient.Disconnect | azure_iot_device/device_client.py:85-87 | `disconnect()` outside connected raises and changes nothing; from connected it enters disconnecting, emits, and stops the loop unless the observer raises |
| DeviceClients.DeviceClient.OnDisconnect | azure_iot_device/device_client.py:58-60 | only from disconnecting: back to disconnected and emit; in connected (or any other state) it raises and changes nothing |
| DeviceClients.DeviceClient.Send | azure_iot_device/device_client.py:93-98 | in connected, exactly one publish to `devices/<id>/messages/events/` at QoS 1; otherwise it raises and publishes nothing; the state never changes |
| DeviceClients.DeviceClient.MessageHandler | azure_iot_device/device_client.py:36-41 | the payload goes unchanged, once, to a set message observer, whose exception propagates, and is dropped when the slot is falsy |
| DeviceClients.FromConnectionString | azure_iot_device/device_client.py:105-108 | fails exactly when `parse` fails; otherwise a fresh disconnected client on the parsed credential, with no transport, both observers at the `types.FunctionType` default, the given crypto and field order, and nothing issued, emitted or logged |
| DeviceClients.DefaultObserverBlocksConnect | azure_iot_device/device_client.py:33-49 | with the default status observer, `connect()` raises before creating a transport, and the client stays in connecting, where neither `connect()` nor `disconnect()` is legal |
| DeviceClients.RaisingObserverAbortsConnect | azure_iot_device/device_client.py:48-49 | a status observer that raises is called once with `connecting`; its exception leaves `connect()` with no transport and nothing issued, in connecting |
| DeviceClients.ObservedConnect | azure_iot_device/device_client.py:43-83 | with both observers set and a credential that connects: the log holds the observer hearing connecting, then the transport, TLS, username `hostname/device_id`, port 8883 and the loop, in that order |
| DeviceClients.ObservedOnConnect | azure_iot_device/device_client.py:50-56 | the log gains the handler attach, then the subscription, then the observer hearing connected |
| DeviceClients.ObservedDisconnect | azure_iot_device/device_client.py:85-91 | the log gains the observer hearing disconnecting, then stopping the loop, then the observer hearing disconnected |
| DeviceClients.ObservedSession | azure_iot_device/device_client.py:50-91 | after a successful connect: on_connect, disconnect and on_disconnect log the attach, the subscription, connected, disconnecting, the loop stop and disconnected, in that order |
| DeviceClients.ObservedLifecycle | azure_iot_device/device_client.py:28-31 | a full cycle logs connecting, then the transport, TLS, username `hostname/device_id`, port 8883 and the loop, then the attach and subscription, connected, disconnecting, the loop stop and disconnected, in that order, and keeps the transport |

## Left out

- TLS set-up (`tls_set` with the CA path from `IOTHUB_ROOT_CA_CERT`, and `tls_insecure_set`): one opaque `ConfigureTls` command.
- paho-mqtt itself: its networking, the thread `loop_start` runs, its client-id checks and the `MQTTv311` argument. The callbacks are methods the environment calls one at a time, so concurrency is not modelled.
- HMAC-SHA256, `b64encode` and `b64decode` are foreign code. They are the functions of a `Crypto` parameter. `b64decode` fails by returning `None`.
- `time.time()` is a float. The model takes `now` as `int(time.time())`. For a non-negative clock, `int(t + 3600)` is `int(t) + 3600`, so the default expiry is exact. An expiry given as a float, and its truncation by `int`, are not modelled: the expiry is an integer.
- GenerateSasToken: the order of the token's fields is not stated. They come from a Python 2 dictionary whose iteration order is not fixed, so the order is a parameter. The token is stated through its decoding.
- Logging everywhere, including the log-only `on_publish` callback and the warning for a dropped message.
- Python 2's `lower()`: only ASCII letters change, as for a byte string in the C locale.
- ParseMisspeltKeyFails: proved for every device value free of `;`, which includes the test's `device`.
- ObservedConnect: does not state the password. `SessionCredentials` states the token it carries.
- OnConnect and OnDisconnect: the result code is a parameter that is not read, as `on_connect` and `on_disconnect` only log it.
- An observer that calls back into the client (for example `send` from inside the status observer) is not modelled: an observer call only returns or raises, and it cannot re-enter the client or change its state.
- The transport's behaviour after `loop_stop()` is not modelled. paho may or may not still deliver `on_disconnect`; the model only records that `LoopStop` was issued and lets the environment call `OnDisconnect` whenever it likes.
- ConnectionStateMachine.Next: its contract states only that an accepted trigger follows an edge; the converse, that every edge is accepted, is `NextIff`.
- `setup.py` (packaging) and `samples/send_receive.py` (an example script) are not part of this model.
