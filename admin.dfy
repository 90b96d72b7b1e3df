/**
 * The admin side of the envelope protocol: one client per watched worker. Connecting
 * identifies the admin to the worker; a receive loop turns the worker's envelopes into
 * device-record and live-metrics callbacks until the stream breaks.
 */
module Admin {
  import opened Wrappers
  import opened Strs
  import opened Protocol
  import State
  import Worker
  import SysInfo
  import LocalIP
  import Seqs

  /** The helper `contains`: a substring test that ignores (ASCII) case. */
  predicate ContainsFold(s: string, sub: string)
  {
    Contains(ToLower(s), ToLower(sub))
  }

  /** A plain occurrence is also an occurrence once both sides are folded. */
  lemma ContainsFoldOfContains(s: string, sub: string)
    requires Contains(s, sub)
    ensures ContainsFold(s, sub)
  {
    var i :| 0 <= i <= |s| - |sub| && OccursAt(s, sub, i);
    assert ToLower(s)[i..i + |sub|] == ToLower(sub) by {
      forall k | 0 <= k < |sub|
        ensures ToLower(s)[i..i + |sub|][k] == ToLower(sub)[k]
      {
        assert s[i + k] == s[i..i + |sub|][k];
      }
    }
    assert OccursAt(ToLower(s), ToLower(sub), i);
  }

  /** Case does not matter on either side. */
  lemma ContainsFoldIgnoresCase(s: string, sub: string)
    ensures ContainsFold(ToLower(s), sub) == ContainsFold(s, sub)
    ensures ContainsFold(s, ToLower(sub)) == ContainsFold(s, sub)
  {
    ToLowerIdempotent(s);
    ToLowerIdempotent(sub);
  }

  lemma ToLowerIdempotent(s: string)
    ensures ToLower(ToLower(s)) == ToLower(s)
  {
    ToLowerOfLower(ToLower(s));
  }

  /** The three dial failures that get a dedicated explanation, and everything else. */
  datatype DialFailure = Timeout | Refused | NoRoute | OtherFailure

  /** How Connect reads a dial error, first match wins. */
  function ClassifyDialError(errMsg: string): DialFailure
  {
    if ContainsFold(errMsg, "i/o timeout") || ContainsFold(errMsg, "timeout") then Timeout
    else if ContainsFold(errMsg, "connection refused") then Refused
    else if ContainsFold(errMsg, "no route to host") then NoRoute
    else OtherFailure
  }

  /** The error Connect returns for a dial error with message `errMsg`. */
  function DialErrorText(errMsg: string): string
  {
    match ClassifyDialError(errMsg)
    case Timeout =>
      "connection timeout - check if port 9876 is open on Worker PC firewall. Run on Worker PC as Admin: "
      + "New-NetFirewallRule -DisplayName \"admin:admin Worker\" -Direction Inbound -Protocol TCP -LocalPort 9876 -Action Allow"
    case Refused => "connection refused - make sure the Worker application is running in Worker mode"
    case NoRoute => "no route to host - check if both PCs are on the same network"
    case OtherFailure => "failed to connect to worker: " + errMsg
  }

  /**
   * The precedence of the classifier, stated without it: a timeout wins whatever else the
   * message says (the "i/o timeout" test adds nothing to the "timeout" one); a refusal wins
   * over an unreachable host; anything else is wrapped with its original text.
   */
  lemma ClassifyDialErrorPrecedence(errMsg: string)
    ensures ClassifyDialError(errMsg) == Timeout <==> ContainsFold(errMsg, "timeout")
    ensures ClassifyDialError(errMsg) == Refused <==>
      !ContainsFold(errMsg, "timeout") && ContainsFold(errMsg, "connection refused")
    ensures ClassifyDialError(errMsg) == NoRoute <==>
      !ContainsFold(errMsg, "timeout") && !ContainsFold(errMsg, "connection refused")
      && ContainsFold(errMsg, "no route to host")
    ensures ClassifyDialError(errMsg) == OtherFailure ==> DialErrorText(errMsg) == "failed to connect to worker: " + errMsg
  {
    if ContainsFold(errMsg, "i/o timeout") {
      var low := ToLower(errMsg);
      assert ToLower("i/o timeout") == "i/o timeout";
      assert ToLower("timeout") == "timeout";
      var i :| 0 <= i <= |low| - 11 && OccursAt(low, "i/o timeout", i);
      assert low[i + 4..i + 11] == low[i..i + 11][4..11];
      assert OccursAt(low, "timeout", i + 4);
    }
  }

  /** A callback the receive loop fires. */
  datatype Callback =
    | Update(device: SystemInfoPayload)
    | MetricsUpdate(cpuUsage: real, ramUsage: real, gpuUsage: real)

  /** The reaction to one envelope from the worker; a payload that does not parse is skipped. */
  function Dispatch(codec: PayloadCodec, onUpdate: bool, onMetrics: bool, m: Message): seq<Callback>
  {
    match m.msgType
    case SystemInfo =>
      (match codec.decodeSystemInfo(m.payload)
       case Some(p) => if onUpdate then [Update(p)] else []
       case None => [])
    case Metrics =>
      (match codec.decodeMetrics(m.payload)
       case Some(p) => if onMetrics then [MetricsUpdate(p.cpuUsage, p.ramUsage, p.gpuUsage)] else []
       case None => [])
    case _ => []
  }

  /** The receive loop over what is still to come: only a decode error or the end of the stream ends it. */
  function UpdatesLoop(codec: PayloadCodec, onUpdate: bool, onMetrics: bool, inbound: seq<Inbound>): seq<Callback>
  {
    if inbound == [] || inbound[0].DecodeError? then []
    else Dispatch(codec, onUpdate, onMetrics, inbound[0].msg) + UpdatesLoop(codec, onUpdate, onMetrics, inbound[1..])
  }

  /** The device record handed to onUpdate: every payload field copied to the field of the same name. */
  method NewDeviceInfo(p: SystemInfoPayload) returns (d: State.DeviceInfo)
    ensures fresh(d) && d.id == ""
    ensures d.hostname == p.hostname && d.os == p.os && d.architecture == p.architecture
    ensures d.ipAddress == p.ipAddress && d.cpuUsage == p.cpuUsage && d.ramUsage == p.ramUsage
    ensures d.ramTotal == p.ramTotal && d.ramUsed == p.ramUsed && d.gpuName == p.gpuName
    ensures d.gpuUsage == p.gpuUsage && d.internetSpeed == p.internetSpeed && d.uptime == p.uptime
  {
    d := new State.DeviceInfo(
      p.hostname, p.os, p.architecture, p.ipAddress, p.cpuUsage, p.ramUsage,
      p.ramTotal, p.ramUsed, p.gpuName, p.gpuUsage, p.internetSpeed, p.uptime);
  }

  class AdminClient {
    /** The connection (an identifier), once a dial has succeeded; never reset to nil. */
    var conn: Option<nat>
    var connClosed: bool
    /** The envelopes written on the current connection, in order. */
    var sent: seq<Message>
    var connected: bool
    var onUpdateSet: bool
    var onMetricsUpdateSet: bool

    /** A client is only ever connected over an open connection. */
    predicate Valid()
      reads this
    {
      connected ==> conn.Some? && !connClosed
    }

    /** NewAdminClient: which of the two callbacks are non-nil. */
    constructor(onUpdate: bool, onMetricsUpdate: bool)
      ensures Valid() && !connected && conn.None? && !connClosed && sent == []
      ensures onUpdateSet == onUpdate && onMetricsUpdateSet == onMetricsUpdate
    {
      conn := None;
      connClosed := false;
      sent := [];
      connected := false;
      onUpdateSet := onUpdate;
      onMetricsUpdateSet := onMetricsUpdate;
    }

    predicate IsConnected()
      reads this
    {
      connected
    }

    /**
     * Connect: `dial` is the outcome of dialing the worker and `hostname` this machine's name.
     * A failed dial changes nothing and reports the classified error; a successful one marks
     * the client connected and sends `admin_info` first. The receive loop is ReceiveUpdates.
     */
    method Connect(codec: PayloadCodec, hostname: string, dial: Result<nat, string>) returns (err: Option<string>)
      requires Valid()
      modifies this
      ensures dial.Err? ==> err == Some(DialErrorText(dial.error))
      ensures dial.Err? ==> conn == old(conn) && connected == old(connected) && connClosed == old(connClosed) && sent == old(sent)
      ensures dial.Ok? ==> err.None? && conn == Some(dial.value) && connected && !connClosed
      ensures dial.Ok? ==> sent == [AdminInfoMessage(codec, hostname)]
      ensures Valid()
      ensures onUpdateSet == old(onUpdateSet) && onMetricsUpdateSet == old(onMetricsUpdateSet)
    {
      if dial.Err? {
        return Some(DialErrorText(dial.error));
      }
      conn := Some(dial.value);
      connClosed := false;
      sent := [];
      connected := true;
      // sendAdminInfo
      sent := sent + [AdminInfoMessage(codec, hostname)];
      return None;
    }

    /**
     * Disconnect: a no-op unless connected over a connection; otherwise sends one
     * `disconnect`, marks the client disconnected and closes (`closeErr` is what closing reports).
     */
    method Disconnect(closeErr: Option<string>) returns (err: Option<string>)
      requires Valid()
      modifies this
      ensures !old(connected) || old(conn).None? ==> (
        && err.None? && connected == old(connected) && conn == old(conn)
        && connClosed == old(connClosed) && sent == old(sent))
      ensures old(connected) && old(conn).Some? ==> (
        && err == closeErr && !connected && connClosed && conn == old(conn)
        && sent == old(sent) + [ControlMessage(MessageType.Disconnect)])
      ensures !connected && Valid()
      ensures onUpdateSet == old(onUpdateSet) && onMetricsUpdateSet == old(onMetricsUpdateSet)
    {
      if !connected || conn.None? {
        return None;
      }
      sent := sent + [ControlMessage(MessageType.Disconnect)];
      connected := false;
      connClosed := true;
      return closeErr;
    }

    /** SendPing: refused when not connected; otherwise one `ping` (`writeErr` is what the write reports). */
    method SendPing(writeErr: Option<string>) returns (err: Option<string>)
      requires Valid()
      modifies this
      ensures !old(connected) ==> err == Some("not connected") && sent == old(sent)
      ensures old(connected) ==> err == writeErr && sent == old(sent) + [ControlMessage(Ping)]
      ensures connected == old(connected) && conn == old(conn) && connClosed == old(connClosed)
      ensures onUpdateSet == old(onUpdateSet) && onMetricsUpdateSet == old(onMetricsUpdateSet)
    {
      if !connected {
        return Some("not connected");
      }
      sent := sent + [ControlMessage(Ping)];
      return writeErr;
    }

    /**
     * receiveUpdates: runs while connected, over what the decoder yields, and returns the
     * callbacks fired in order; the deferred cleanup leaves the client disconnected and the
     * connection closed.
     */
    method ReceiveUpdates(codec: PayloadCodec, inbound: seq<Inbound>) returns (callbacks: seq<Callback>)
      modifies this
      ensures callbacks == (if old(connected) then UpdatesLoop(codec, onUpdateSet, onMetricsUpdateSet, inbound) else [])
      ensures !connected && conn == old(conn) && connClosed == (old(connClosed) || old(conn).Some?)
      ensures sent == old(sent) && Valid()
      ensures onUpdateSet == old(onUpdateSet) && onMetricsUpdateSet == old(onMetricsUpdateSet)
    {
      callbacks := [];
      if connected {
        callbacks := Receive(codec, onUpdateSet, onMetricsUpdateSet, inbound);
      }
      // the deferred cleanup
      connected := false;
      if conn.Some? {
        connClosed := true;
      }
    }
  }

  /** The loop body of receiveUpdates, run while the client stays connected. */
  method Receive(codec: PayloadCodec, onUpdate: bool, onMetrics: bool, inbound: seq<Inbound>) returns (callbacks: seq<Callback>)
    ensures callbacks == UpdatesLoop(codec, onUpdate, onMetrics, inbound)
  {
    callbacks := [];
    var i := 0;
    while i < |inbound| && inbound[i].Received?
      invariant 0 <= i <= |inbound|
      invariant UpdatesLoop(codec, onUpdate, onMetrics, inbound) == callbacks + UpdatesLoop(codec, onUpdate, onMetrics, inbound[i..])
    {
      var msg := inbound[i].msg;
      assert inbound[i..][1..] == inbound[i + 1..];
      var fired: seq<Callback> := [];
      if msg.msgType == SystemInfo {
        var payload := codec.decodeSystemInfo(msg.payload);
        if payload.Some? && onUpdate {
          fired := [Update(payload.value)];
        }
      } else if msg.msgType == Metrics {
        var payload := codec.decodeMetrics(msg.payload);
        if payload.Some? && onMetrics {
          fired := [MetricsUpdate(payload.value.cpuUsage, payload.value.ramUsage, payload.value.gpuUsage)];
        }
      } else if msg.msgType == Pong {
        // acknowledged in the log only
      }
      assert fired == Dispatch(codec, onUpdate, onMetrics, msg);
      Seqs.AppendAssoc(callbacks, fired, UpdatesLoop(codec, onUpdate, onMetrics, inbound[i + 1..]));
      callbacks := callbacks + fired;
      i := i + 1;
    }
    assert UpdatesLoop(codec, onUpdate, onMetrics, inbound[i..]) == [];
  }

  /** Once the receive loop has ended, a Disconnect sends nothing more. */
  method ReceiveThenDisconnect(client: AdminClient, codec: PayloadCodec, inbound: seq<Inbound>, closeErr: Option<string>)
    returns (callbacks: seq<Callback>, err: Option<string>)
    modifies client
    ensures client.sent == old(client.sent) && err.None? && !client.connected
  {
    callbacks := client.ReceiveUpdates(codec, inbound);
    err := client.Disconnect(closeErr);
  }

  /** The envelopes the loop sees: those before the first decode error. */
  function Delivered(inbound: seq<Inbound>): seq<Message>
  {
    if inbound == [] || inbound[0].DecodeError? then []
    else [inbound[0].msg] + Delivered(inbound[1..])
  }

  /** The device snapshots passed to onUpdate, in order. */
  function Updates(cbs: seq<Callback>): seq<SystemInfoPayload>
  {
    if cbs == [] then []
    else (if cbs[0].Update? then [cbs[0].device] else []) + Updates(cbs[1..])
  }

  lemma {:induction false} UpdatesAppend(a: seq<Callback>, b: seq<Callback>)
    ensures Updates(a + b) == Updates(a) + Updates(b)
  {
    if a == [] {
      assert a + b == b;
    } else {
      var head := if a[0].Update? then [a[0].device] else [];
      Seqs.TailOfConcat(a, b);
      assert (a + b)[0] == a[0];
      UpdatesAppend(a[1..], b);
      Seqs.AppendAssoc(head, Updates(a[1..]), Updates(b));
    }
  }

  /** The snapshots of the `system_info` envelopes among `msgs` whose payload parses. */
  function ParsedSnapshots(codec: PayloadCodec, msgs: seq<Message>): seq<SystemInfoPayload>
  {
    if msgs == [] then []
    else
      (if msgs[0].msgType == SystemInfo && codec.decodeSystemInfo(msgs[0].payload).Some?
       then [codec.decodeSystemInfo(msgs[0].payload).value] else [])
      + ParsedSnapshots(codec, msgs[1..])
  }

  /**
   * onUpdate fires once per delivered `system_info` whose payload parses, with that payload,
   * in arrival order; a payload that fails to parse is skipped and the loop goes on.
   */
  lemma {:induction false} UpdatePerSystemInfo(codec: PayloadCodec, onUpdate: bool, onMetrics: bool, inbound: seq<Inbound>)
    ensures Updates(UpdatesLoop(codec, onUpdate, onMetrics, inbound))
         == (if onUpdate then ParsedSnapshots(codec, Delivered(inbound)) else [])
  {
    if inbound != [] && inbound[0].Received? {
      var m := inbound[0].msg;
      UpdatePerSystemInfo(codec, onUpdate, onMetrics, inbound[1..]);
      UpdatesAppend(Dispatch(codec, onUpdate, onMetrics, m), UpdatesLoop(codec, onUpdate, onMetrics, inbound[1..]));
      DispatchUpdates(codec, onUpdate, onMetrics, m);
      ParsedSnapshotsCons(codec, m, Delivered(inbound[1..]));
    }
  }

  /** The snapshot one envelope passes to onUpdate, if any. */
  lemma DispatchUpdates(codec: PayloadCodec, onUpdate: bool, onMetrics: bool, m: Message)
    ensures Updates(Dispatch(codec, onUpdate, onMetrics, m)) == (if onUpdate then ParsedSnapshots(codec, [m]) else [])
  {
    assert [m][1..] == [];
  }

  lemma ParsedSnapshotsCons(codec: PayloadCodec, m: Message, msgs: seq<Message>)
    ensures ParsedSnapshots(codec, [m] + msgs) == ParsedSnapshots(codec, [m]) + ParsedSnapshots(codec, msgs)
  {
    assert ([m] + msgs)[1..] == msgs;
    assert [m][1..] == [];
  }

  /** The usage triples passed to onMetricsUpdate, in order. */
  function MetricsUpdates(cbs: seq<Callback>): seq<MetricsPayload>
  {
    if cbs == [] then []
    else
      (if cbs[0].MetricsUpdate? then [MetricsPayload(cbs[0].cpuUsage, cbs[0].ramUsage, cbs[0].gpuUsage)] else [])
      + MetricsUpdates(cbs[1..])
  }

  lemma {:induction false} MetricsUpdatesAppend(a: seq<Callback>, b: seq<Callback>)
    ensures MetricsUpdates(a + b) == MetricsUpdates(a) + MetricsUpdates(b)
  {
    if a == [] {
      assert a + b == b;
    } else {
      var head := if a[0].MetricsUpdate? then [MetricsPayload(a[0].cpuUsage, a[0].ramUsage, a[0].gpuUsage)] else [];
      Seqs.TailOfConcat(a, b);
      assert (a + b)[0] == a[0];
      MetricsUpdatesAppend(a[1..], b);
      Seqs.AppendAssoc(head, MetricsUpdates(a[1..]), MetricsUpdates(b));
    }
  }

  /** The payloads of the `metrics` envelopes among `msgs` that parse. */
  function ParsedMetrics(codec: PayloadCodec, msgs: seq<Message>): seq<MetricsPayload>
  {
    if msgs == [] then []
    else
      (if msgs[0].msgType == Metrics && codec.decodeMetrics(msgs[0].payload).Some?
       then [codec.decodeMetrics(msgs[0].payload).value] else [])
      + ParsedMetrics(codec, msgs[1..])
  }

  /** onMetricsUpdate fires once per delivered `metrics` envelope that parses, with its three figures. */
  lemma {:induction false} MetricsUpdatePerMetrics(codec: PayloadCodec, onUpdate: bool, onMetrics: bool, inbound: seq<Inbound>)
    ensures MetricsUpdates(UpdatesLoop(codec, onUpdate, onMetrics, inbound))
         == (if onMetrics then ParsedMetrics(codec, Delivered(inbound)) else [])
  {
    if inbound != [] && inbound[0].Received? {
      var m := inbound[0].msg;
      MetricsUpdatePerMetrics(codec, onUpdate, onMetrics, inbound[1..]);
      MetricsUpdatesAppend(Dispatch(codec, onUpdate, onMetrics, m), UpdatesLoop(codec, onUpdate, onMetrics, inbound[1..]));
      DispatchMetrics(codec, onUpdate, onMetrics, m);
      ParsedMetricsCons(codec, m, Delivered(inbound[1..]));
    }
  }

  /** The figures one envelope passes to onMetricsUpdate, if any. */
  lemma DispatchMetrics(codec: PayloadCodec, onUpdate: bool, onMetrics: bool, m: Message)
    ensures MetricsUpdates(Dispatch(codec, onUpdate, onMetrics, m)) == (if onMetrics then ParsedMetrics(codec, [m]) else [])
  {
    assert [m][1..] == [];
  }

  lemma ParsedMetricsCons(codec: PayloadCodec, m: Message, msgs: seq<Message>)
    ensures ParsedMetrics(codec, [m] + msgs) == ParsedMetrics(codec, [m]) + ParsedMetrics(codec, msgs)
  {
    assert ([m] + msgs)[1..] == msgs;
    assert [m][1..] == [];
  }

  /** Envelopes that fire no callback: pong, unknown tags, and anything but system_info or metrics. */
  predicate Silent(m: Message)
  {
    m.msgType != SystemInfo && m.msgType != Metrics
  }

  /** Silent envelopes leave no trace, and unlike on the worker even `disconnect` does not end the loop. */
  lemma {:induction false} SilentIgnored(codec: PayloadCodec, onUpdate: bool, onMetrics: bool, silent: seq<Message>, rest: seq<Inbound>)
    requires forall k :: 0 <= k < |silent| ==> Silent(silent[k])
    ensures var received := seq(|silent|, k requires 0 <= k < |silent| => Received(silent[k]));
      UpdatesLoop(codec, onUpdate, onMetrics, received + rest) == UpdatesLoop(codec, onUpdate, onMetrics, rest)
  {
    var received := seq(|silent|, k requires 0 <= k < |silent| => Received(silent[k]));
    if silent != [] {
      var tailReceived := seq(|silent| - 1, k requires 0 <= k < |silent| - 1 => Received(silent[1..][k]));
      assert (received + rest)[1..] == tailReceived + rest;
      SilentIgnored(codec, onUpdate, onMetrics, silent[1..], rest);
    } else {
      assert received + rest == rest;
    }
  }

  /**
   * End to end: with a codec whose decoding undoes encoding, the first envelope of a worker
   * session makes the admin call onUpdate with the worker's snapshot, every field intact.
   */
  lemma SnapshotReachesAdmin(codec: PayloadCodec, info: SysInfo.SystemInfo, ifaces: Option<seq<LocalIP.Interface>>,
                             onConnect: bool, onDisconnect: bool, inbound: seq<Inbound>,
                             onMetrics: bool, rest: seq<Inbound>)
    requires codec.Valid()
    ensures var t := Worker.SessionTrace(codec, info, ifaces, onConnect, onDisconnect, inbound);
      && t[0].Sent?
      && UpdatesLoop(codec, true, onMetrics, [Received(t[0].msg)] + rest)
         == [Update(Worker.SnapshotPayload(info, ifaces))] + UpdatesLoop(codec, true, onMetrics, rest)
  {
    Worker.SystemInfoFirst(codec, info, ifaces, onConnect, onDisconnect, inbound);
    var p := Worker.SnapshotPayload(info, ifaces);
    assert codec.decodeSystemInfo(codec.encodeSystemInfo(p)) == Some(p);
    assert ([Received(SystemInfoMessage(codec, p))] + rest)[1..] == rest;
  }

  /** End to end: a metrics envelope the worker encodes reaches onMetricsUpdate with the same three figures. */
  lemma MetricsReachAdmin(codec: PayloadCodec, p: MetricsPayload, onUpdate: bool, rest: seq<Inbound>)
    requires codec.Valid()
    ensures UpdatesLoop(codec, onUpdate, true, [Received(MetricsMessage(codec, p))] + rest)
         == [MetricsUpdate(p.cpuUsage, p.ramUsage, p.gpuUsage)] + UpdatesLoop(codec, onUpdate, true, rest)
  {
    assert codec.decodeMetrics(codec.encodeMetrics(p)) == Some(p);
    assert ([Received(MetricsMessage(codec, p))] + rest)[1..] == rest;
  }
}
