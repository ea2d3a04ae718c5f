/** `DeviceClient` (azure_iot_device/device_client.py): the connection state
    machine, its entry hooks, and the commands it gives an MQTT transport.
    The transport (paho-mqtt) is not modelled: the client records the
    commands it issues in `commands`, and the transport's callbacks are
    methods the environment calls. Observer calls are recorded in
    `notifications`, and both kinds of event, interleaved as they happen,
    in the ghost log `events`. */
module DeviceClients {
  import opened Text
  import opened ConnectionStrings
  import opened UrlEncoding
  import opened SasTokens
  import Fsm = ConnectionStateMachine

  /** An observer attribute: the default `types.FunctionType` (a class, so
      truthy, and calling it with a string raises `TypeError`), a callable
      the application assigned (told apart by a number) that returns, one
      that raises once called, or a falsy value. */
  datatype Slot = FunctionTypeClass | Handler(id: nat) | Raising(id: nat) | Falsy

  /** `if self.on_...:` */
  predicate IsSet(slot: Slot)
  {
    slot != Falsy
  }

  /** The calls the client makes on its transport object. */
  datatype Command =
    | NewClient(clientId: Option<Str>, cleanSession: bool)  // mqtt.Client(client_id=..., protocol=MQTTv311, clean_session=...)
    | ConfigureTls                                         // tls_set(...) and tls_insecure_set(False)
    | SetCredentials(username: Str, password: Str)         // username_pw_set
    | ConnectTo(host: Str, port: int)                      // connect
    | LoopStart
    | LoopStop
    | AttachMessageHandler                                 // on_message = self._message_handler
    | Subscribe(topic: Str)
    | Publish(topic: Str, payload: Str, qos: int)

  /** A call of an application observer with its argument. */
  datatype Notification =
    | StateChanged(observer: nat, state: Str)
    | MessageDelivered(observer: nat, payload: Str)

  datatype ClientError =
    | MachineError(trigger: Fsm.Trigger, state: Fsm.State)  // illegal trigger
    | ObserverNotCallable                                   // TypeError from calling types.FunctionType
    | ObserverRaised(observer: nat)                         // whatever an application observer raises
    | NoneConcatenation                                     // TypeError from str + None
    | TokenFailure(error: TokenError)                       // raised inside generate_sas_token
    | NotConnected                                          // StandardError("cannot send if not connected")

  /** How a call ends: normally, or with the exception it raises. */
  datatype Outcome = Done | Raised(error: ClientError)

  const MqttPort: int := 8883
  const TelemetryQos: int := 1

  /** Whether calling a slot raises: calling `types.FunctionType` with a
      string does, and so does a raising application observer. */
  function CallOutcome(slot: Slot): Outcome
  {
    match slot
    case FunctionTypeClass => Raised(ObserverNotCallable)
    case Raising(id) => Raised(ObserverRaised(id))
    case _ => Done
  }

  /** The slot holds an application callable, which is entered when called. */
  predicate IsApplicationObserver(slot: Slot)
  {
    slot.Handler? || slot.Raising?
  }

  /** The observer calls `_emit_connection_status` makes in state `s`. */
  function StatusNotifications(slot: Slot, s: Fsm.State): seq<Notification>
  {
    if IsApplicationObserver(slot) then [StateChanged(slot.id, Fsm.StateName(s))] else []
  }

  /** The observer calls `_message_handler` makes for `payload`. */
  function MessageNotifications(slot: Slot, payload: Str): seq<Notification>
  {
    if IsApplicationObserver(slot) then [MessageDelivered(slot.id, payload)] else []
  }

  /** One entry of the interleaved log: a transport command or an observer call. */
  datatype Event = Cmd(command: Command) | Note(notification: Notification)

  function Cmds(cs: seq<Command>): (r: seq<Event>)
    ensures |r| == |cs| && forall i :: 0 <= i < |cs| ==> r[i] == Cmd(cs[i])
  {
    seq(|cs|, i requires 0 <= i < |cs| => Cmd(cs[i]))
  }

  function Notes(ns: seq<Notification>): (r: seq<Event>)
    ensures |r| == |ns| && forall i :: 0 <= i < |ns| ==> r[i] == Note(ns[i])
  {
    seq(|ns|, i requires 0 <= i < |ns| => Note(ns[i]))
  }

  function C2dTopic(deviceId: Str): Str
  {
    "devices/" + deviceId + "/messages/devicebound/#"
  }

  function EventTopic(deviceId: Str): Str
  {
    "devices/" + deviceId + "/messages/events/"
  }

  /** The rest of `_connect` once the transport exists: the commands issued
      and how it ends. The username is formed before the token is asked for. */
  function SessionSetup(cs: ConnectionString, crypto: Crypto, order: seq<Field>, now: nat): (r: (seq<Command>, Outcome))
    requires IsFieldOrder(order)
    ensures r.1.Raised? ==> r.0 == []
    ensures r.1 == Done ==> |r.0| == 4 && r.0[0] == ConfigureTls && r.0[3] == LoopStart
  {
    if cs.hostname.None? || cs.deviceId.None? then ([], Raised(NoneConcatenation))
    else
      var username := cs.hostname.value + "/" + cs.deviceId.value;
      match GenerateSasToken(cs, None, now, crypto, order)
      case Err(e) => ([], Raised(TokenFailure(e)))
      case Ok(token) =>
        ([ConfigureTls, SetCredentials(username, token), ConnectTo(cs.hostname.value, MqttPort), LoopStart], Done)
  }

  /** Connecting fails exactly when the credential lacks a hostname or a
      device id (the username concatenation raises) or its key does not
      decode; the token's own missing-part error is never the one raised. */
  lemma SessionSetupOutcome(cs: ConnectionString, crypto: Crypto, order: seq<Field>, now: nat)
    requires IsFieldOrder(order)
    ensures var (cmds, outcome) := SessionSetup(cs, crypto, order, now);
      && (outcome == Raised(NoneConcatenation) <==> cs.hostname.None? || cs.deviceId.None?)
      && (outcome == Raised(TokenFailure(UndecodableKey)) <==>
            cs.hostname.Some? && cs.deviceId.Some? && SigningKey(cs, crypto).None?)
      && (outcome == Done <==> cs.hostname.Some? && cs.deviceId.Some? && SigningKey(cs, crypto).Some?)
      && outcome != Raised(TokenFailure(MissingUriPart))
      && (outcome.Raised? ==> cmds == [])
  {
  }

  /** The commands of a successful set-up, without the token. */
  lemma SessionSteps(cs: ConnectionString, crypto: Crypto, order: seq<Field>, now: nat)
    requires IsFieldOrder(order)
    requires cs.hostname.Some? && cs.deviceId.Some? && SigningKey(cs, crypto).Some?
    ensures SessionSetup(cs, crypto, order, now).1 == Done
    ensures var cmds := SessionSetup(cs, crypto, order, now).0;
      && |cmds| == 4 && cmds[0] == ConfigureTls
      && cmds[1].SetCredentials? && cmds[1].username == cs.hostname.value + "/" + cs.deviceId.value
      && cmds[2] == ConnectTo(cs.hostname.value, 8883) && cmds[3] == LoopStart
  {
    SessionSetupOutcome(cs, crypto, order, now);
  }

  /** On success the transport is configured in `_connect`'s order: TLS,
      then username `hostname/device_id` with a fresh token (resource
      `hostname/devices/device_id`, expiring one hour from `now`) as the
      password, then a connection to the hostname on port 8883, then the
      network loop. */
  lemma SessionCredentials(cs: ConnectionString, crypto: Crypto, order: seq<Field>, now: nat)
    requires IsFieldOrder(order)
    requires cs.hostname.Some? && cs.deviceId.Some? && SigningKey(cs, crypto).Some?
    ensures SessionSetup(cs, crypto, order, now).1 == Done
    ensures var cmds := SessionSetup(cs, crypto, order, now).0;
      var h, d := cs.hostname.value, cs.deviceId.value;
      && |cmds| == 4
      && cmds[0] == ConfigureTls
      && cmds[1].SetCredentials? && cmds[1].username == h + "/" + d
      && cmds[2] == ConnectTo(h, 8883)
      && cmds[3] == LoopStart
      && var items := DecodeToken(cmds[1].password);
         items.Some?
         && Find(items.value, "sr") == Some(h + "/devices/" + d)
         && Find(items.value, "se") == Some(DecimalText(now + 3600))
  {
    TokenRoundTrip(cs, None, now, crypto, order);
    SessionCommands(cs, crypto, order, now);
  }

  lemma SessionCommands(cs: ConnectionString, crypto: Crypto, order: seq<Field>, now: nat)
    requires IsFieldOrder(order)
    requires cs.hostname.Some? && cs.deviceId.Some? && GenerateSasToken(cs, None, now, crypto, order).Ok?
    ensures SessionSetup(cs, crypto, order, now)
         == ([ConfigureTls,
              SetCredentials(cs.hostname.value + "/" + cs.deviceId.value, GenerateSasToken(cs, None, now, crypto, order).value),
              ConnectTo(cs.hostname.value, MqttPort),
              LoopStart],
             Done)
  {
  }

  // The lemmas below are small facts about the log. Each scenario
  // method calls them so that its own proof stays cheap.

  /** The log of a call made on a fresh client (empty log `e0`, empty
      traces `n0` and `c0`) that made one observer call before its commands. */
  lemma FirstEvents(e0: seq<Event>, n0: seq<Notification>, c0: seq<Command>,
                    events: seq<Event>, ns: seq<Notification>, cs: seq<Command>, n: Notification)
    requires e0 == [] && n0 == [] && c0 == []
    requires ns == n0 + [n] && events == e0 + Notes(ns[|n0|..]) + Cmds(cs[|c0|..])
    ensures events == [Note(n)] + Cmds(cs)
  {
    assert ns[|n0|..] == [n] && cs[|c0|..] == cs;
  }

  /** Issuing `n` and then the commands `x` logs them in that order. */
  lemma IssuedThen(e0: seq<Event>, c0: seq<Command>, n: Command, x: seq<Command>, e2: seq<Event>)
    requires e2 == e0 + [Cmd(n)] + Cmds((c0 + [n] + x)[|c0 + [n]|..])
    ensures e2 == e0 + Cmds((c0 + [n] + x)[|c0|..])
  {
    assert (c0 + [n] + x)[|c0 + [n]|..] == x;
    assert (c0 + [n] + x)[|c0|..] == [n] + x;
  }

  /** The log after connecting: one observer call, then five commands. */
  lemma ConnectingEvents(events: seq<Event>, n: Notification, cs: seq<Command>)
    requires |cs| == 5 && events == [Note(n)] + Cmds(cs)
    ensures |events| == 6 && events[0] == Note(n)
    ensures forall i :: 1 <= i < 6 ==> events[i] == Cmd(cs[i - 1])
  {
  }

  /** A log that extends a six-event prefix. */
  lemma EventsAfter(prefix: seq<Event>, events: seq<Event>)
    requires |prefix| == 6 && prefix <= events
    ensures events == prefix + events[6..]
  {
  }

  lemma NoteOne(n: Notification)
    ensures Notes([n]) == [Note(n)]
  {
  }

  lemma CmdOne(c: Command)
    ensures Cmds([c]) == [Cmd(c)]
  {
  }

  lemma CmdsTwo(c: Command, d: Command)
    ensures Cmds([c, d]) == [Cmd(c), Cmd(d)]
  {
  }

  /** A credential of the key-name form without a device id is accepted by
      `parse`, but a client built on it can never connect. */
  lemma KeyNameCredentialCannotConnect(s: Str, crypto: Crypto, order: seq<Field>, now: nat)
    requires IsFieldOrder(order)
    requires ParseSpec(s).Ok? && ParseSpec(s).value.deviceId.None?
    ensures Truthy(ParseSpec(s).value.sharedAccessKeyName)
    ensures SessionSetup(ParseSpec(s).value, crypto, order, now).1 == Raised(NoneConcatenation)
  {
  }

  class DeviceClient {
    const connectionString: ConnectionString
    const crypto: Crypto
    const fieldOrder: seq<Field>

    var state: Fsm.State
    /** Whether `_mqtt_client` refers to a transport; it is never reset. */
    var hasTransport: bool
    var onConnectionState: Slot
    var onC2dMessage: Slot
    /** Every command issued on a transport, oldest first. */
    var commands: seq<Command>
    /** Every observer call, oldest first. */
    var notifications: seq<Notification>
    /** The triggers the machine has accepted. */
    ghost var triggers: seq<Fsm.Trigger>
    /** Every command and every observer call, interleaved, oldest first. */
    ghost var events: seq<Event>

    ghost predicate Valid()
      reads this
    {
      && IsFieldOrder(fieldOrder)
      && Fsm.Run(Fsm.Initial, triggers) == Some(state)
      && (state == Fsm.Connected || state == Fsm.Disconnecting ==> hasTransport)
    }

    /** `DeviceClient(connection_string)`: in state disconnected, with no
        transport, both observers at their `types.FunctionType` default, and
        nothing issued or emitted. */
    constructor(connectionString: ConnectionString, crypto: Crypto, fieldOrder: seq<Field>)
      requires IsFieldOrder(fieldOrder)
      ensures Valid()
      ensures this.connectionString == connectionString && this.crypto == crypto && this.fieldOrder == fieldOrder
      ensures state == Fsm.Disconnected && !hasTransport
      ensures onConnectionState == FunctionTypeClass && onC2dMessage == FunctionTypeClass
      ensures commands == [] && notifications == [] && triggers == [] && events == []
    {
      this.connectionString := connectionString;
      this.crypto := crypto;
      this.fieldOrder := fieldOrder;
      state := Fsm.Disconnected;
      hasTransport := false;
      onConnectionState := FunctionTypeClass;
      onC2dMessage := FunctionTypeClass;
      commands := [];
      notifications := [];
      triggers := [];
      events := [];
    }

    /** Issuing one command on the transport. */
    method Issue(c: Command)
      modifies this`commands, this`events
      ensures commands == old(commands) + [c] && events == old(events) + [Cmd(c)]
    {
      commands := commands + [c];
      events := events + [Cmd(c)];
    }

    /** Calling an application observer. */
    method Notify(n: Notification)
      modifies this`notifications, this`events
      ensures notifications == old(notifications) + [n] && events == old(events) + [Note(n)]
    {
      notifications := notifications + [n];
      events := events + [Note(n)];
    }

    /** `client.on_connection_state = slot` */
    method SetConnectionStateObserver(slot: Slot)
      modifies this`onConnectionState
      ensures onConnectionState == slot
    {
      onConnectionState := slot;
    }

    /** `client.on_c2d_message = slot` */
    method SetMessageObserver(slot: Slot)
      modifies this`onC2dMessage
      ensures onC2dMessage == slot
    {
      onC2dMessage := slot;
    }

    /** `self._fsm.<t>()` up to the entry hooks: an illegal trigger raises
        and changes nothing; a legal one moves to the table's destination. */
    method Fire(t: Fsm.Trigger) returns (outcome: Outcome)
      requires Valid()
      modifies this`state, this`triggers
      ensures Fsm.Next(old(state), t).None? ==>
                outcome == Raised(MachineError(t, old(state))) && state == old(state) && triggers == old(triggers)
      ensures Fsm.Next(old(state), t).Some? ==>
                outcome == Done && state == Fsm.Next(old(state), t).value && triggers == old(triggers) + [t]
      ensures Fsm.Run(Fsm.Initial, triggers) == Some(state)
    {
      var next := Fsm.Next(state, t);
      Fsm.RunAppend(Fsm.Initial, triggers, t);
      if next.None? {
        outcome := Raised(MachineError(t, state));
      } else {
        state := next.value;
        triggers := triggers + [t];
        outcome := Done;
      }
    }

    /** `_emit_connection_status`: the status observer, when set, is called
        with the current state's name. */
    method EmitConnectionStatus() returns (outcome: Outcome)
      modifies this`notifications, this`events
      ensures notifications == old(notifications) + StatusNotifications(onConnectionState, state)
      ensures events == old(events) + Notes(StatusNotifications(onConnectionState, state))
      ensures outcome == if IsSet(onConnectionState) then CallOutcome(onConnectionState) else Done
    {
      outcome := Done;
      if IsSet(onConnectionState) {
        match onConnectionState
        case FunctionTypeClass =>
          outcome := Raised(ObserverNotCallable);
        case Handler(id) =>
          Notify(StateChanged(id, Fsm.StateName(state)));
        case Raising(id) =>
          Notify(StateChanged(id, Fsm.StateName(state)));
          outcome := Raised(ObserverRaised(id));
      }
    }

    /** `_connect`, the hook of connecting: emit the status, create the
        transport, then configure and start it. */
    method EnterConnecting(now: nat) returns (outcome: Outcome)
      requires IsFieldOrder(fieldOrder)
      modifies this`notifications, this`hasTransport, this`commands, this`events
      ensures notifications == old(notifications) + StatusNotifications(onConnectionState, state)
      ensures CallOutcome(onConnectionState).Raised? ==>
                outcome == CallOutcome(onConnectionState) && hasTransport == old(hasTransport) && commands == old(commands)
      ensures CallOutcome(onConnectionState) == Done ==>
                && hasTransport
                && commands == old(commands) + [NewClient(connectionString.deviceId, false)]
                               + SessionSetup(connectionString, crypto, fieldOrder, now).0
                && outcome == SessionSetup(connectionString, crypto, fieldOrder, now).1
      ensures old(commands) <= commands
      ensures events == old(events) + Notes(notifications[|old(notifications)|..]) + Cmds(commands[|old(commands)|..])
    {
      outcome := EmitConnectionStatus();
      if outcome.Raised? {
        return;
      }
      hasTransport := true;
      ghost var e0, c0 := events, commands;
      Issue(NewClient(connectionString.deviceId, false));
      outcome := SetUpSession(now);
      IssuedThen(e0, c0, NewClient(connectionString.deviceId, false), SessionSetup(connectionString, crypto, fieldOrder, now).0, events);
    }

    /** The part of `_connect` after the transport is created: the username,
        the token, then the four configuring calls in order. */
    method SetUpSession(now: nat) returns (outcome: Outcome)
      requires IsFieldOrder(fieldOrder)
      modifies this`commands, this`events
      ensures commands == old(commands) + SessionSetup(connectionString, crypto, fieldOrder, now).0
      ensures outcome == SessionSetup(connectionString, crypto, fieldOrder, now).1
      ensures events == old(events) + Cmds(commands[|old(commands)|..])
    {
      var cs := connectionString;
      if cs.hostname.None? || cs.deviceId.None? {
        outcome := Raised(NoneConcatenation);
        return;
      }
      var username := cs.hostname.value + "/" + cs.deviceId.value;
      var token := GenerateSasToken(cs, None, now, crypto, fieldOrder);
      if token.Err? {
        outcome := Raised(TokenFailure(token.error));
        return;
      }
      StartSession(username, token.value, cs.hostname.value);
      outcome := Done;
      SessionCommands(cs, crypto, fieldOrder, now);
    }

    /** `tls_set`, `username_pw_set`, `connect` and `loop_start`, in order. */
    method StartSession(username: Str, password: Str, host: Str)
      modifies this`commands, this`events
      ensures commands == old(commands) + [ConfigureTls, SetCredentials(username, password), ConnectTo(host, MqttPort), LoopStart]
      ensures events == old(events) + Cmds(commands[|old(commands)|..])
    {
      Issue(ConfigureTls);
      Issue(SetCredentials(username, password));
      Issue(ConnectTo(host, MqttPort));
      Issue(LoopStart);
      assert commands[|old(commands)|..] == [ConfigureTls, SetCredentials(username, password), ConnectTo(host, MqttPort), LoopStart];
    }

    /** `_disconnect`, the hook of disconnecting: emit the status, then stop
        the network loop. No transport `disconnect()` is issued and the
        transport is kept. */
    method EnterDisconnecting() returns (outcome: Outcome)
      modifies this`notifications, this`commands, this`events
      ensures notifications == old(notifications) + StatusNotifications(onConnectionState, state)
      ensures outcome == CallOutcome(onConnectionState)
      ensures commands == old(commands) + (if outcome == Done then [LoopStop] else [])
      ensures events == old(events) + Notes(notifications[|old(notifications)|..]) + Cmds(commands[|old(commands)|..])
    {
      outcome := EmitConnectionStatus();
      if outcome.Raised? {
        return;
      }
      Issue(LoopStop);
    }

    /** `connect()`: the connect trigger, then the hook of connecting. */
    method Connect(now: nat) returns (outcome: Outcome)
      requires Valid()
      modifies this`state, this`triggers, this`notifications, this`hasTransport, this`commands, this`events
      ensures Valid()
      ensures old(state) != Fsm.Disconnected ==>
                && outcome == Raised(MachineError(Fsm.Connect, old(state)))
                && state == old(state) && notifications == old(notifications)
                && commands == old(commands) && hasTransport == old(hasTransport)
      ensures old(state) == Fsm.Disconnected ==>
                && state == Fsm.Connecting
                && notifications == old(notifications) + StatusNotifications(onConnectionState, Fsm.Connecting)
                && (CallOutcome(onConnectionState).Raised? ==>
                      outcome == CallOutcome(onConnectionState) && commands == old(commands) && hasTransport == old(hasTransport))
                && (CallOutcome(onConnectionState) == Done ==>
                      && hasTransport
                      && commands == old(commands) + [NewClient(connectionString.deviceId, false)]
                                     + SessionSetup(connectionString, crypto, fieldOrder, now).0
                      && outcome == SessionSetup(connectionString, crypto, fieldOrder, now).1)
      ensures old(notifications) <= notifications && old(commands) <= commands
      ensures events == old(events) + Notes(notifications[|old(notifications)|..]) + Cmds(commands[|old(commands)|..])
    {
      Fsm.NextOfEdge(state, Fsm.Edge(Fsm.Connect, Fsm.Disconnected, Fsm.Connecting));
      outcome := Fire(Fsm.Connect);
      if outcome.Raised? {
        return;
      }
      assert old(state) == Fsm.Disconnected && state == Fsm.Connecting && notifications == old(notifications) && commands == old(commands) && events == old(events);
      outcome := EnterConnecting(now);
    }

    /** The transport's `on_connect` callback: when the message observer is
        set, attach the message handler and subscribe to the device's cloud
        to device topic, then fire on_connect and emit the status. The
        result code is not examined. */
    method OnConnect(resultCode: int) returns (outcome: Outcome)
      requires Valid() && hasTransport
      modifies this`state, this`triggers, this`notifications, this`commands, this`events
      ensures Valid()
      ensures old(commands) <= commands
      ensures !IsSet(onC2dMessage) ==> commands == old(commands)
      ensures IsSet(onC2dMessage) && connectionString.deviceId.None? ==>
                && outcome == Raised(NoneConcatenation) && commands == old(commands) + [AttachMessageHandler]
                && state == old(state) && notifications == old(notifications)
      ensures IsSet(onC2dMessage) && connectionString.deviceId.Some? ==>
                commands == old(commands) + [AttachMessageHandler, Subscribe(C2dTopic(connectionString.deviceId.value))]
      ensures !IsSet(onC2dMessage) || connectionString.deviceId.Some? ==>
                && (old(state) != Fsm.Connecting ==>
                      outcome == Raised(MachineError(Fsm.OnConnect, old(state)))
                      && state == old(state) && notifications == old(notifications))
                && (old(state) == Fsm.Connecting ==>
                      && state == Fsm.Connected
                      && notifications == old(notifications) + StatusNotifications(onConnectionState, Fsm.Connected)
                      && outcome == CallOutcome(onConnectionState))
      ensures old(notifications) <= notifications
      ensures events == old(events) + Cmds(commands[|old(commands)|..]) + Notes(notifications[|old(notifications)|..])
    {
      outcome := AttachHandler();
      if outcome.Raised? {
        return;
      }
      ghost var c1, e1 := commands, events;
      outcome := FireOnConnect();
      assert commands == c1 && e1 == old(events) + Cmds(commands[|old(commands)|..]);
    }

    /** `self._fsm.on_connect()`: the trigger, then the status emission on
        entry to connected. */
    method FireOnConnect() returns (outcome: Outcome)
      requires Valid() && hasTransport
      modifies this`state, this`triggers, this`notifications, this`events
      ensures Valid()
      ensures old(state) != Fsm.Connecting ==>
                outcome == Raised(MachineError(Fsm.OnConnect, old(state)))
                && state == old(state) && notifications == old(notifications)
      ensures old(state) == Fsm.Connecting ==>
                && state == Fsm.Connected
                && notifications == old(notifications) + StatusNotifications(onConnectionState, Fsm.Connected)
                && outcome == CallOutcome(onConnectionState)
      ensures old(notifications) <= notifications
      ensures events == old(events) + Notes(notifications[|old(notifications)|..])
    {
      Fsm.NextOfEdge(state, Fsm.Edge(Fsm.OnConnect, Fsm.Connecting, Fsm.Connected));
      outcome := Fire(Fsm.OnConnect);
      if outcome.Raised? {
        return;
      }
      outcome := EmitConnectionStatus();
    }

    /** The first part of `on_connect`: with the message observer set,
        attach the message handler, then subscribe to the device's cloud to
        device topic, which concatenates the device id. */
    method AttachHandler() returns (outcome: Outcome)
      modifies this`commands, this`events
      ensures !IsSet(onC2dMessage) ==> outcome == Done && commands == old(commands)
      ensures IsSet(onC2dMessage) && connectionString.deviceId.None? ==>
                outcome == Raised(NoneConcatenation) && commands == old(commands) + [AttachMessageHandler]
      ensures IsSet(onC2dMessage) && connectionString.deviceId.Some? ==>
                outcome == Done
                && commands == old(commands) + [AttachMessageHandler, Subscribe(C2dTopic(connectionString.deviceId.value))]
      ensures old(commands) <= commands && events == old(events) + Cmds(commands[|old(commands)|..])
    {
      outcome := Done;
      if IsSet(onC2dMessage) {
        Issue(AttachMessageHandler);
        if connectionString.deviceId.None? {
          outcome := Raised(NoneConcatenation);
          return;
        }
        Issue(Subscribe(C2dTopic(connectionString.deviceId.value)));
        assert commands[|old(commands)|..] == [AttachMessageHandler, Subscribe(C2dTopic(connectionString.deviceId.value))];
      }
    }

    /** `disconnect()`: the disconnect trigger, then the hook of disconnecting. */
    method Disconnect() returns (outcome: Outcome)
      requires Valid()
      modifies this`state, this`triggers, this`notifications, this`commands, this`events
      ensures Valid()
      ensures old(state) != Fsm.Connected ==>
                && outcome == Raised(MachineError(Fsm.Disconnect, old(state)))
                && state == old(state) && notifications == old(notifications) && commands == old(commands)
      ensures old(state) == Fsm.Connected ==>
                && state == Fsm.Disconnecting
                && notifications == old(notifications) + StatusNotifications(onConnectionState, Fsm.Disconnecting)
                && outcome == CallOutcome(onConnectionState)
                && commands == old(commands) + (if outcome == Done then [LoopStop] else [])
      ensures old(notifications) <= notifications && old(commands) <= commands
      ensures events == old(events) + Notes(notifications[|old(notifications)|..]) + Cmds(commands[|old(commands)|..])
    {
      Fsm.NextOfEdge(state, Fsm.Edge(Fsm.Disconnect, Fsm.Connected, Fsm.Disconnecting));
      outcome := Fire(Fsm.Disconnect);
      assert notifications == old(notifications) && commands == old(commands) && events == old(events);
      if outcome.Raised? {
        assert notifications[|old(notifications)|..] == [] && commands[|old(commands)|..] == [];
        return;
      }
      assert old(state) == Fsm.Connected && state == Fsm.Disconnecting;
      outcome := EnterDisconnecting();
    }

    /** The transport's `on_disconnect` callback: fire on_disconnect and emit
        the status. */
    method OnDisconnect(resultCode: int) returns (outcome: Outcome)
      requires Valid()
      modifies this`state, this`triggers, this`notifications, this`events
      ensures Valid()
      ensures old(state) != Fsm.Disconnecting ==>
                outcome == Raised(MachineError(Fsm.OnDisconnect, old(state)))
                && state == old(state) && notifications == old(notifications)
      ensures old(state) == Fsm.Disconnecting ==>
                && state == Fsm.Disconnected
                && notifications == old(notifications) + StatusNotifications(onConnectionState, Fsm.Disconnected)
                && outcome == CallOutcome(onConnectionState)
      ensures old(notifications) <= notifications
      ensures events == old(events) + Notes(notifications[|old(notifications)|..])
    {
      Fsm.NextOfEdge(state, Fsm.Edge(Fsm.OnDisconnect, Fsm.Disconnecting, Fsm.Disconnected));
      outcome := Fire(Fsm.OnDisconnect);
      if outcome.Raised? {
        return;
      }
      outcome := EmitConnectionStatus();
    }

    /** `send(payload)`: in state connected, one publish to the device's
        events topic at QoS 1; in any other state it raises and publishes
        nothing. The state does not change. */
    method Send(payload: Str) returns (outcome: Outcome)
      modifies this`commands, this`events
      ensures state != Fsm.Connected ==> outcome == Raised(NotConnected) && commands == old(commands)
      ensures state == Fsm.Connected && connectionString.deviceId.None? ==>
                outcome == Raised(NoneConcatenation) && commands == old(commands)
      ensures state == Fsm.Connected && connectionString.deviceId.Some? ==>
                && outcome == Done
                && commands == old(commands) + [Publish(EventTopic(connectionString.deviceId.value), payload, 1)]
      ensures old(commands) <= commands && events == old(events) + Cmds(commands[|old(commands)|..])
    {
      if state == Fsm.Connected {
        if connectionString.deviceId.None? {
          outcome := Raised(NoneConcatenation);
        } else {
          Issue(Publish(EventTopic(connectionString.deviceId.value), payload, TelemetryQos));
          outcome := Done;
        }
      } else {
        outcome := Raised(NotConnected);
      }
    }

    /** `_message_handler`: an incoming payload goes, unchanged and once, to
        the message observer when it is set, and is dropped otherwise. */
    method MessageHandler(payload: Str) returns (outcome: Outcome)
      modifies this`notifications, this`events
      ensures notifications == old(notifications) + MessageNotifications(onC2dMessage, payload)
      ensures events == old(events) + Notes(MessageNotifications(onC2dMessage, payload))
      ensures outcome == CallOutcome(onC2dMessage)
    {
      outcome := Done;
      if IsSet(onC2dMessage) {
        match onC2dMessage
        case FunctionTypeClass =>
          outcome := Raised(ObserverNotCallable);
        case Handler(id) =>
          Notify(MessageDelivered(id, payload));
        case Raising(id) =>
          Notify(MessageDelivered(id, payload));
          outcome := Raised(ObserverRaised(id));
      }
    }
  }

  /** `DeviceClient.from_connection_string(s)`: a new client on the parsed
      credential, or the parse error. */
  method FromConnectionString(s: Str, crypto: Crypto, fieldOrder: seq<Field>) returns (r: Result<DeviceClient, ParseError>)
    requires IsFieldOrder(fieldOrder)
    ensures r.Err? <==> ParseSpec(s).Err?
    ensures r.Ok? ==>
              && fresh(r.value) && r.value.Valid()
              && r.value.connectionString == ParseSpec(s).value
              && r.value.crypto == crypto && r.value.fieldOrder == fieldOrder
              && r.value.state == Fsm.Disconnected && !r.value.hasTransport
              && r.value.onConnectionState == FunctionTypeClass && r.value.onC2dMessage == FunctionTypeClass
              && r.value.commands == [] && r.value.notifications == [] && r.value.events == []
  {
    var parsed := Parse(s);
    if parsed.Err? {
      r := Err(parsed.error);
    } else {
      var c := new DeviceClient(parsed.value, crypto, fieldOrder);
      r := Ok(c);
    }
  }

  /** A client whose status observer is left at its default cannot connect:
      the first status emission raises, no transport is created, and the
      machine is left in connecting, where no trigger the environment can
      fire without a transport is legal. */
  method DefaultObserverBlocksConnect(cs: ConnectionString, crypto: Crypto, fieldOrder: seq<Field>, now: nat)
    returns (c: DeviceClient, outcome: Outcome, retry: Outcome, disconnect: Outcome)
    requires IsFieldOrder(fieldOrder)
    ensures outcome == Raised(ObserverNotCallable)
    ensures c.state == Fsm.Connecting && !c.hasTransport && c.commands == [] && c.notifications == [] && c.events == []
    ensures retry == Raised(MachineError(Fsm.Connect, Fsm.Connecting))
    ensures disconnect == Raised(MachineError(Fsm.Disconnect, Fsm.Connecting))
  {
    c := new DeviceClient(cs, crypto, fieldOrder);
    outcome := c.Connect(now);
    retry := c.Connect(now);
    disconnect := c.Disconnect();
  }

  /** An application status observer that raises aborts `_connect` as the
      default does: it is called, but no transport is created, and the
      client is left in connecting. */
  method RaisingObserverAbortsConnect(cs: ConnectionString, crypto: Crypto, fieldOrder: seq<Field>, now: nat, status: nat)
    returns (c: DeviceClient, outcome: Outcome)
    requires IsFieldOrder(fieldOrder)
    ensures outcome == Raised(ObserverRaised(status))
    ensures c.state == Fsm.Connecting && !c.hasTransport && c.commands == []
    ensures c.notifications == [StateChanged(status, Fsm.StateName(Fsm.Connecting))]
  {
    c := new DeviceClient(cs, crypto, fieldOrder);
    c.SetConnectionStateObserver(Raising(status));
    outcome := c.Connect(now);
  }

  /** Connecting with both observers set on a credential that connects:
      the status observer hears connecting, and only then is the transport
      created, configured and started. */
  method ObservedConnect(cs: ConnectionString, crypto: Crypto, fieldOrder: seq<Field>, now: nat, status: nat, inbox: nat)
    returns (c: DeviceClient)
    requires IsFieldOrder(fieldOrder)
    requires cs.hostname.Some? && cs.deviceId.Some? && SigningKey(cs, crypto).Some?
    ensures fresh(c) && c.Valid() && c.connectionString == cs
    ensures c.onConnectionState == Handler(status) && c.onC2dMessage == Handler(inbox)
    ensures c.state == Fsm.Connecting && c.hasTransport
    ensures c.notifications == [StateChanged(status, Fsm.StateName(Fsm.Connecting))]
    ensures |c.commands| == 5
    ensures c.commands[0] == NewClient(cs.deviceId, false) && c.commands[1] == ConfigureTls
    ensures c.commands[2].SetCredentials? && c.commands[2].username == cs.hostname.value + "/" + cs.deviceId.value
    ensures c.commands[3] == ConnectTo(cs.hostname.value, 8883) && c.commands[4] == LoopStart
    ensures c.events == [Note(StateChanged(status, Fsm.StateName(Fsm.Connecting)))] + Cmds(c.commands)
  {
    c := new DeviceClient(cs, crypto, fieldOrder);
    c.SetConnectionStateObserver(Handler(status));
    c.SetMessageObserver(Handler(inbox));
    ghost var e0, n0, c0 := c.events, c.notifications, c.commands;
    var o := c.Connect(now);
    FirstEvents(e0, n0, c0, c.events, c.notifications, c.commands, StateChanged(status, Fsm.StateName(Fsm.Connecting)));
    SessionSteps(cs, crypto, fieldOrder, now);
  }

  /** The transport then reports the connection: the client attaches its
      handler and subscribes to the device's cloud to device topic before
      the status observer hears connected. */
  method ObservedOnConnect(c: DeviceClient, status: nat)
    requires c.Valid() && c.state == Fsm.Connecting && c.hasTransport
    requires c.onConnectionState == Handler(status) && IsSet(c.onC2dMessage) && c.connectionString.deviceId.Some?
    modifies c
    ensures c.Valid() && c.state == Fsm.Connected && c.hasTransport
    ensures c.onConnectionState == old(c.onConnectionState)
    ensures c.notifications == old(c.notifications) + [StateChanged(status, Fsm.StateName(Fsm.Connected))]
    ensures c.commands == old(c.commands) + [AttachMessageHandler, Subscribe(C2dTopic(c.connectionString.deviceId.value))]
    ensures c.events == old(c.events) + [Cmd(AttachMessageHandler), Cmd(Subscribe(C2dTopic(c.connectionString.deviceId.value))),
                                         Note(StateChanged(status, Fsm.StateName(Fsm.Connected)))]
  {
    var o := c.OnConnect(0);
    NoteOne(StateChanged(status, Fsm.StateName(Fsm.Connected)));
    CmdsTwo(AttachMessageHandler, Subscribe(C2dTopic(c.connectionString.deviceId.value)));
  }

  /** Disconnecting, and the transport's report of it: the status observer
      hears disconnecting, then the network loop is stopped (the only
      command), then the observer hears disconnected. */
  method ObservedDisconnect(c: DeviceClient, status: nat)
    requires c.Valid() && c.state == Fsm.Connected && c.onConnectionState == Handler(status)
    modifies c
    ensures c.Valid() && c.state == Fsm.Disconnected && c.hasTransport == old(c.hasTransport)
    ensures c.notifications == old(c.notifications) + [StateChanged(status, Fsm.StateName(Fsm.Disconnecting)), StateChanged(status, Fsm.StateName(Fsm.Disconnected))]
    ensures c.commands == old(c.commands) + [LoopStop]
    ensures c.events == old(c.events) + [Note(StateChanged(status, Fsm.StateName(Fsm.Disconnecting))), Cmd(LoopStop),
                                         Note(StateChanged(status, Fsm.StateName(Fsm.Disconnected)))]
  {
    ghost var e0 := c.events;
    var o := c.Disconnect();
    NoteOne(StateChanged(status, Fsm.StateName(Fsm.Disconnecting)));
    CmdOne(LoopStop);
    assert c.events == e0 + [Note(StateChanged(status, Fsm.StateName(Fsm.Disconnecting))), Cmd(LoopStop)];
    ghost var e1 := c.events;
    o := c.OnDisconnect(0);
    NoteOne(StateChanged(status, Fsm.StateName(Fsm.Disconnected)));
    assert c.events == e1 + [Note(StateChanged(status, Fsm.StateName(Fsm.Disconnected)))];
  }

  /** A full cycle: the status observer hears connecting, connected,
      disconnecting and disconnected, in that order and once each; after
      the first notification come the five commands of connecting, and the
      last six events are those of on_connect, disconnect and on_disconnect. */
  method ObservedLifecycle(cs: ConnectionString, crypto: Crypto, fieldOrder: seq<Field>, now: nat, status: nat, inbox: nat)
    returns (c: DeviceClient)
    requires IsFieldOrder(fieldOrder)
    requires cs.hostname.Some? && cs.deviceId.Some? && SigningKey(cs, crypto).Some?
    ensures c.state == Fsm.Disconnected && c.hasTransport
    ensures c.notifications == [
      StateChanged(status, Fsm.StateName(Fsm.Connecting)), StateChanged(status, Fsm.StateName(Fsm.Connected)),
      StateChanged(status, Fsm.StateName(Fsm.Disconnecting)), StateChanged(status, Fsm.StateName(Fsm.Disconnected))]
    ensures |c.events| == 12 && c.events[0] == Note(StateChanged(status, Fsm.StateName(Fsm.Connecting)))
    ensures c.events[1] == Cmd(NewClient(cs.deviceId, false)) && c.events[2] == Cmd(ConfigureTls)
    ensures c.events[3].Cmd? && c.events[3].command.SetCredentials? && c.events[3].command.username == cs.hostname.value + "/" + cs.deviceId.value
    ensures c.events[4] == Cmd(ConnectTo(cs.hostname.value, 8883)) && c.events[5] == Cmd(LoopStart)
    ensures c.events[6..] == [
      Cmd(AttachMessageHandler), Cmd(Subscribe(C2dTopic(cs.deviceId.value))),
      Note(StateChanged(status, Fsm.StateName(Fsm.Connected))), Note(StateChanged(status, Fsm.StateName(Fsm.Disconnecting))),
      Cmd(LoopStop), Note(StateChanged(status, Fsm.StateName(Fsm.Disconnected)))]
  {
    c := ObservedConnect(cs, crypto, fieldOrder, now, status, inbox);
    ghost var e1 := c.events;
    ConnectingEvents(e1, StateChanged(status, Fsm.StateName(Fsm.Connecting)), c.commands);
    ObservedSession(c, status);
    EventsAfter(e1, c.events);
  }

  /** The rest of a cycle once connecting has succeeded: on_connect, then
      disconnect and on_disconnect. */
  method ObservedSession(c: DeviceClient, status: nat)
    requires c.Valid() && c.state == Fsm.Connecting && c.hasTransport
    requires c.onConnectionState == Handler(status) && IsSet(c.onC2dMessage) && c.connectionString.deviceId.Some?
    modifies c
    ensures c.state == Fsm.Disconnected && c.hasTransport
    ensures c.notifications == old(c.notifications) + [
      StateChanged(status, Fsm.StateName(Fsm.Connected)), StateChanged(status, Fsm.StateName(Fsm.Disconnecting)),
      StateChanged(status, Fsm.StateName(Fsm.Disconnected))]
    ensures c.events == old(c.events) + [
      Cmd(AttachMessageHandler), Cmd(Subscribe(C2dTopic(c.connectionString.deviceId.value))),
      Note(StateChanged(status, Fsm.StateName(Fsm.Connected))), Note(StateChanged(status, Fsm.StateName(Fsm.Disconnecting))),
      Cmd(LoopStop), Note(StateChanged(status, Fsm.StateName(Fsm.Disconnected)))]
  {
    ObservedOnConnect(c, status);
    ObservedDisconnect(c, status);
  }
}
