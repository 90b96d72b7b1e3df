/**
 * The worker side of the envelope protocol: a listener whose every accepted connection
 * runs one session. A session sends the system snapshot, starts the metrics stream and
 * then answers the admin's envelopes until the admin disconnects or the stream breaks;
 * a deferred cleanup closes the connection and reports the disconnect.
 */
module Worker {
  import opened Wrappers
  import opened Protocol
  import opened SysInfo
  import LocalIP
  import Seqs

  const DefaultWorkerPort := 9876

  /** What a session makes observable: envelopes written, callbacks fired, resources released. */
  datatype Event =
    | Sent(msg: Message)
    | MetricsStarted
    | MetricsStopped
    | AdminConnected(hostname: string)
    | ConnClosed
    | AdminDisconnected

  /**
   * The `system_info` payload: the collector's snapshot with the outbound address chosen
   * from the interface listing `ifaces` (None when listing the interfaces failed).
   */
  function SnapshotPayload(info: SystemInfo, ifaces: Option<seq<LocalIP.Interface>>): (p: SystemInfoPayload)
    ensures p.hostname == info.hostname && p.os == info.os && p.architecture == info.arch
    ensures p.ipAddress == LocalIP.SelectedIP(ifaces) && p.uptime == info.uptime
    ensures p.ramTotal == info.ramTotal && p.ramUsed == info.ramUsed
    ensures p.cpuUsage == info.cpuUsage && p.ramUsage == info.ramUsage && p.gpuUsage == info.gpuUsage
    ensures p.gpuName == info.gpuName && p.internetSpeed == info.internetSpeed
  {
    SystemInfoPayload(
      info.hostname, info.os, info.arch, LocalIP.SelectedIP(ifaces), info.cpuUsage, info.ramUsage,
      info.ramTotal, info.ramUsed, info.gpuName, info.gpuUsage, info.internetSpeed, info.uptime)
  }

  /** An inbound item that ends the receive loop: a decode error or a `disconnect` envelope. */
  predicate Ends(x: Inbound)
  {
    x.DecodeError? || x.msg.msgType == Disconnect
  }

  /** The reaction to one envelope that does not end the loop. */
  function Reply(codec: PayloadCodec, onConnect: bool, m: Message): seq<Event>
  {
    match m.msgType
    case Ping => [Sent(ControlMessage(Pong))]
    case AdminInfo =>
      (match codec.decodeAdminInfo(m.payload)
       case Some(p) => if onConnect then [AdminConnected(p.hostname)] else []
       case None => [])
    case _ => []
  }

  /** The receive loop over the envelopes still to come; running out of input is end of stream. */
  function ReceiveLoop(codec: PayloadCodec, onConnect: bool, inbound: seq<Inbound>): seq<Event>
  {
    if inbound == [] || Ends(inbound[0]) then []
    else Reply(codec, onConnect, inbound[0].msg) + ReceiveLoop(codec, onConnect, inbound[1..])
  }

  /** The envelopes the loop handles: those before the first one that ends it. */
  function Handled(inbound: seq<Inbound>): seq<Message>
  {
    if inbound == [] || Ends(inbound[0]) then []
    else [inbound[0].msg] + Handled(inbound[1..])
  }

  /** Everything one connection shows, from the snapshot to the deferred cleanup. */
  function SessionTrace(codec: PayloadCodec, info: SystemInfo, ifaces: Option<seq<LocalIP.Interface>>,
                        onConnect: bool, onDisconnect: bool, inbound: seq<Inbound>): seq<Event>
  {
    [Sent(SystemInfoMessage(codec, SnapshotPayload(info, ifaces))), MetricsStarted]
    + ReceiveLoop(codec, onConnect, inbound)
    + [MetricsStopped, ConnClosed]
    + (if onDisconnect then [AdminDisconnected] else [])
  }

  /**
   * The receive loop of handleConnection: decodes envelopes until a decode error, the end of
   * the stream or a `disconnect`, and answers each one in arrival order.
   */
  method Receive(codec: PayloadCodec, onConnect: bool, inbound: seq<Inbound>) returns (events: seq<Event>)
    ensures events == ReceiveLoop(codec, onConnect, inbound)
  {
    events := [];
    var i := 0;
    while true
      invariant 0 <= i <= |inbound|
      invariant ReceiveLoop(codec, onConnect, inbound) == events + ReceiveLoop(codec, onConnect, inbound[i..])
      decreases |inbound| - i
    {
      if i == |inbound| || inbound[i].DecodeError? {
        // the decoder failed or the peer closed the stream
        break;
      }
      var msg := inbound[i].msg;
      if msg.msgType == Disconnect {
        break;
      }
      ReceiveLoopStep(codec, onConnect, inbound, i);
      var reply: seq<Event> := [];
      if msg.msgType == Ping {
        reply := [Sent(ControlMessage(Pong))];
      } else if msg.msgType == AdminInfo {
        var parsed := codec.decodeAdminInfo(msg.payload);
        if parsed.Some? && onConnect {
          reply := [AdminConnected(parsed.value.hostname)];
        }
      } else if msg.msgType == Command {
        // reserved: commands are not acted upon
      }
      assert reply == Reply(codec, onConnect, msg);
      Seqs.AppendAssoc(events, reply, ReceiveLoop(codec, onConnect, inbound[i + 1..]));
      events := events + reply;
      i := i + 1;
    }
  }

  class WorkerServer {
    var port: int
    var quitClosed: bool
    var listening: bool
    var listenerClosed: bool
    var activeConn: Option<nat>
    var sysInfo: Option<SystemInfo>
    var onAdminConnectSet: bool
    var onAdminDisconnectSet: bool

    /** NewWorkerServer: port 0 selects the default port. */
    constructor(port: int)
      ensures this.port == (if port == 0 then DefaultWorkerPort else port)
      ensures !quitClosed && !listening && !listenerClosed && activeConn.None? && sysInfo.None?
      ensures !onAdminConnectSet && !onAdminDisconnectSet
    {
      this.port := if port == 0 then DefaultWorkerPort else port;
      quitClosed := false;
      listening := false;
      listenerClosed := false;
      activeConn := None;
      sysInfo := None;
      onAdminConnectSet := false;
      onAdminDisconnectSet := false;
    }

    /** SetCallbacks: which of the two callbacks are non-nil. */
    method SetCallbacks(onConnect: bool, onDisconnect: bool)
      modifies this
      ensures onAdminConnectSet == onConnect && onAdminDisconnectSet == onDisconnect
      ensures port == old(port) && quitClosed == old(quitClosed) && listening == old(listening)
      ensures listenerClosed == old(listenerClosed) && activeConn == old(activeConn) && sysInfo == old(sysInfo)
    {
      onAdminConnectSet := onConnect;
      onAdminDisconnectSet := onDisconnect;
    }

    /** Start: binds the listener (`listenErr` is the outcome of net.Listen); nothing changes on failure. */
    method Start(listenErr: Option<string>) returns (err: Option<string>)
      modifies this
      ensures listenErr.Some? ==> err == Some("failed to start worker server: " + listenErr.value) && listening == old(listening)
      ensures listenErr.None? ==> err.None? && listening
      ensures port == old(port) && quitClosed == old(quitClosed) && listenerClosed == old(listenerClosed)
      ensures activeConn == old(activeConn) && sysInfo == old(sysInfo)
      ensures onAdminConnectSet == old(onAdminConnectSet) && onAdminDisconnectSet == old(onAdminDisconnectSet)
    {
      if listenErr.Some? {
        return Some("failed to start worker server: " + listenErr.value);
      }
      listening := true;
      return None;
    }

    /**
     * Stop: closes the quit channel unconditionally, then the listener if one was bound
     * (`closeErr` is what closing it reports). Closing a closed channel panics in Go, so a
     * server is stopped at most once.
     */
    method Stop(closeErr: Option<string>) returns (err: Option<string>)
      requires !quitClosed
      modifies this
      ensures quitClosed
      ensures listenerClosed == (old(listenerClosed) || old(listening))
      ensures err == (if old(listening) then closeErr else None)
      ensures port == old(port) && listening == old(listening) && activeConn == old(activeConn) && sysInfo == old(sysInfo)
      ensures onAdminConnectSet == old(onAdminConnectSet) && onAdminDisconnectSet == old(onAdminDisconnectSet)
    {
      quitClosed := true;
      if listening {
        listenerClosed := true;
        return closeErr;
      }
      return None;
    }

    /**
     * handleConnection for connection `conn`: `info` is the collector's snapshot, `ifaces`
     * the interface listing the address is chosen from and `inbound` what the decoder
     * yields, in order.
     */
    method HandleConnection(codec: PayloadCodec, conn: nat, info: SystemInfo,
                            ifaces: Option<seq<LocalIP.Interface>>, inbound: seq<Inbound>)
      returns (events: seq<Event>)
      modifies this
      ensures events == SessionTrace(codec, info, ifaces, onAdminConnectSet, onAdminDisconnectSet, inbound)
      ensures activeConn.None? && sysInfo == Some(info)
      ensures port == old(port) && quitClosed == old(quitClosed) && listening == old(listening)
      ensures listenerClosed == old(listenerClosed)
      ensures onAdminConnectSet == old(onAdminConnectSet) && onAdminDisconnectSet == old(onAdminDisconnectSet)
    {
      activeConn := Some(conn);
      // sendSystemInfo stores the snapshot before sending it
      sysInfo := Some(info);
      var localIP := LocalIP.GetLocalIP(ifaces);
      var payload := SystemInfoPayload(
        info.hostname, info.os, info.arch, localIP, info.cpuUsage, info.ramUsage,
        info.ramTotal, info.ramUsed, info.gpuName, info.gpuUsage, info.internetSpeed, info.uptime);
      events := [Sent(SystemInfoMessage(codec, payload)), MetricsStarted];
      var replies := Receive(codec, onAdminConnectSet, inbound);
      events := events + replies;
      // the deferred cleanup, preceded on both exit paths by stopping the metrics task
      events := events + [MetricsStopped];
      events := events + [ConnClosed];
      activeConn := None;
      if onAdminDisconnectSet {
        events := events + [AdminDisconnected];
      }
    }
  }

  /** One turn of the receive loop, read off at position `i` of the input. */
  lemma ReceiveLoopStep(codec: PayloadCodec, onConnect: bool, inbound: seq<Inbound>, i: nat)
    requires i < |inbound| && !Ends(inbound[i])
    ensures ReceiveLoop(codec, onConnect, inbound[i..])
         == Reply(codec, onConnect, inbound[i].msg) + ReceiveLoop(codec, onConnect, inbound[i + 1..])
  {
    assert inbound[i..][1..] == inbound[i + 1..];
  }

  /** Every event of the receive loop is a pong or an onAdminConnect call. */
  lemma {:induction false} ReceiveLoopEvents(codec: PayloadCodec, onConnect: bool, inbound: seq<Inbound>)
    ensures forall e :: e in ReceiveLoop(codec, onConnect, inbound) ==> e == Sent(ControlMessage(Pong)) || e.AdminConnected?
  {
    if inbound != [] && !Ends(inbound[0]) {
      ReceiveLoopEvents(codec, onConnect, inbound[1..]);
    }
  }

  function Count(t: seq<Event>, e: Event): nat
  {
    if t == [] then 0 else (if t[0] == e then 1 else 0) + Count(t[1..], e)
  }

  lemma {:induction false} CountAppend(a: seq<Event>, b: seq<Event>, e: Event)
    ensures Count(a + b, e) == Count(a, e) + Count(b, e)
  {
    if a == [] {
      assert a + b == b;
    } else {
      Seqs.TailOfConcat(a, b);
      assert (a + b)[0] == a[0];
      CountAppend(a[1..], b, e);
    }
  }

  lemma {:induction false} CountAbsent(t: seq<Event>, e: Event)
    requires e !in t
    ensures Count(t, e) == 0
  {
    if t != [] {
      CountAbsent(t[1..], e);
    }
  }

  /**
   * The snapshot opens every session and the metrics task starts right after it; no other
   * `system_info` envelope is ever sent on the connection.
   */
  lemma SystemInfoFirst(codec: PayloadCodec, info: SystemInfo, ifaces: Option<seq<LocalIP.Interface>>,
                        onConnect: bool, onDisconnect: bool, inbound: seq<Inbound>)
    ensures var t := SessionTrace(codec, info, ifaces, onConnect, onDisconnect, inbound);
      && |t| >= 4
      && t[0] == Sent(SystemInfoMessage(codec, SnapshotPayload(info, ifaces)))
      && t[1] == MetricsStarted
      && forall k :: 1 <= k < |t| ==> !(t[k].Sent? && t[k].msg.msgType == MessageType.SystemInfo)
  {
    var t := SessionTrace(codec, info, ifaces, onConnect, onDisconnect, inbound);
    ReceiveLoopEvents(codec, onConnect, inbound);
    var r := ReceiveLoop(codec, onConnect, inbound);
    var last: seq<Event> := if onDisconnect then [AdminDisconnected] else [];
    assert t == [t[0], MetricsStarted] + r + [MetricsStopped, ConnClosed] + last;
    forall k | 1 <= k < |t|
      ensures !(t[k].Sent? && t[k].msg.msgType == MessageType.SystemInfo)
    {
      if 2 <= k < 2 + |r| {
        assert t[k] == r[k - 2] && r[k - 2] in r;
      }
    }
  }

  /**
   * On every exit path the metrics task is stopped and the connection closed exactly once,
   * and onAdminDisconnect, when set, fires exactly once, as the very last event.
   */
  lemma CleanupExactlyOnce(codec: PayloadCodec, info: SystemInfo, ifaces: Option<seq<LocalIP.Interface>>,
                           onConnect: bool, onDisconnect: bool, inbound: seq<Inbound>)
    ensures var t := SessionTrace(codec, info, ifaces, onConnect, onDisconnect, inbound);
      && Count(t, MetricsStopped) == 1
      && Count(t, ConnClosed) == 1
      && Count(t, AdminDisconnected) == (if onDisconnect then 1 else 0)
      && t[|t| - 1] == (if onDisconnect then AdminDisconnected else ConnClosed)
  {
    var head := [Sent(SystemInfoMessage(codec, SnapshotPayload(info, ifaces))), MetricsStarted];
    var r := ReceiveLoop(codec, onConnect, inbound);
    ReceiveLoopEvents(codec, onConnect, inbound);
    CleanupCounts(head, r, onDisconnect);
  }

  /**
   * The cleanup tail of a trace: when neither the events before it nor the loop's events
   * release anything, each release happens exactly once, the disconnect report last.
   */
  lemma CleanupCounts(head: seq<Event>, r: seq<Event>, onDisconnect: bool)
    requires MetricsStopped !in head && ConnClosed !in head && AdminDisconnected !in head
    requires MetricsStopped !in r && ConnClosed !in r && AdminDisconnected !in r
    ensures var t := head + r + [MetricsStopped, ConnClosed] + (if onDisconnect then [AdminDisconnected] else []);
      && Count(t, MetricsStopped) == 1
      && Count(t, ConnClosed) == 1
      && Count(t, AdminDisconnected) == (if onDisconnect then 1 else 0)
      && t[|t| - 1] == (if onDisconnect then AdminDisconnected else ConnClosed)
  {
    var last: seq<Event> := if onDisconnect then [AdminDisconnected] else [];
    forall e | e == MetricsStopped || e == ConnClosed || e == AdminDisconnected
      ensures Count(head + r + [MetricsStopped] + [ConnClosed] + last, e)
           == (if e == AdminDisconnected then Count(last, e) else 1)
    {
      CountAppend(head, r, e);
      CountAppend(head + r, [MetricsStopped], e);
      CountAppend(head + r + [MetricsStopped], [ConnClosed], e);
      CountAppend(head + r + [MetricsStopped] + [ConnClosed], last, e);
      CountAbsent(head, e);
      CountAbsent(r, e);
      CountSingle(MetricsStopped, e);
      CountSingle(ConnClosed, e);
      if onDisconnect {
        CountSingle(AdminDisconnected, e);
      } else {
        CountAbsent(last, e);
      }
    }
    CountSingle(AdminDisconnected, AdminDisconnected);
    assert head + r + [MetricsStopped] + [ConnClosed] + last
        == head + r + [MetricsStopped, ConnClosed] + last;
  }

  lemma CountSingle(x: Event, e: Event)
    ensures Count([x], e) == if x == e then 1 else 0
  {
    assert [x][1..] == [];
  }

  /** The number of `ping` envelopes among `msgs`. */
  function PingCount(msgs: seq<Message>): nat
  {
    if msgs == [] then 0 else (if msgs[0].msgType == Ping then 1 else 0) + PingCount(msgs[1..])
  }

  /** Each `ping` handled before the loop ends is answered by exactly one `pong`. */
  lemma {:induction false} PongPerPing(codec: PayloadCodec, onConnect: bool, inbound: seq<Inbound>)
    ensures Count(ReceiveLoop(codec, onConnect, inbound), Sent(ControlMessage(Pong))) == PingCount(Handled(inbound))
  {
    if inbound != [] && !Ends(inbound[0]) {
      var m := inbound[0].msg;
      PongPerPing(codec, onConnect, inbound[1..]);
      CountAppend(Reply(codec, onConnect, m), ReceiveLoop(codec, onConnect, inbound[1..]), Sent(ControlMessage(Pong)));
      assert ([m] + Handled(inbound[1..]))[1..] == Handled(inbound[1..]);
    }
  }

  /** The hostnames reported to onAdminConnect, in order. */
  function ConnectedHosts(t: seq<Event>): seq<string>
  {
    if t == [] then []
    else (if t[0].AdminConnected? then [t[0].hostname] else []) + ConnectedHosts(t[1..])
  }

  lemma {:induction false} ConnectedHostsAppend(a: seq<Event>, b: seq<Event>)
    ensures ConnectedHosts(a + b) == ConnectedHosts(a) + ConnectedHosts(b)
  {
    if a == [] {
      assert a + b == b;
    } else {
      Seqs.TailOfConcat(a, b);
      assert (a + b)[0] == a[0];
      ConnectedHostsAppend(a[1..], b);
      Seqs.AppendAssoc((if a[0].AdminConnected? then [a[0].hostname] else []), ConnectedHosts(a[1..]), ConnectedHosts(b));
    }
  }

  /** The hostnames carried by the `admin_info` envelopes among `msgs` whose payload parses. */
  function ParsedAdminHosts(codec: PayloadCodec, msgs: seq<Message>): seq<string>
  {
    if msgs == [] then []
    else
      (if msgs[0].msgType == AdminInfo && codec.decodeAdminInfo(msgs[0].payload).Some?
       then [codec.decodeAdminInfo(msgs[0].payload).value.hostname] else [])
      + ParsedAdminHosts(codec, msgs[1..])
  }

  /**
   * onAdminConnect fires once per handled `admin_info` whose payload parses, with its hostname
   * and in arrival order; unparsable ones are skipped. Without the callback nothing fires.
   */
  lemma {:induction false} AdminConnectPerAdminInfo(codec: PayloadCodec, onConnect: bool, inbound: seq<Inbound>)
    ensures ConnectedHosts(ReceiveLoop(codec, onConnect, inbound))
         == (if onConnect then ParsedAdminHosts(codec, Handled(inbound)) else [])
  {
    if inbound != [] && !Ends(inbound[0]) {
      var m := inbound[0].msg;
      var rest := inbound[1..];
      AdminConnectPerAdminInfo(codec, onConnect, rest);
      ConnectedHostsAppend(Reply(codec, onConnect, m), ReceiveLoop(codec, onConnect, rest));
      ReplyHosts(codec, onConnect, m);
      ParsedAdminHostsCons(codec, m, Handled(rest));
    }
  }

  /** The hostname one envelope reports to onAdminConnect, if any. */
  lemma ReplyHosts(codec: PayloadCodec, onConnect: bool, m: Message)
    ensures ConnectedHosts(Reply(codec, onConnect, m))
         == (if onConnect then ParsedAdminHosts(codec, [m]) else [])
  {
    assert [m][1..] == [];
  }

  lemma ParsedAdminHostsCons(codec: PayloadCodec, m: Message, msgs: seq<Message>)
    ensures ParsedAdminHosts(codec, [m] + msgs) == ParsedAdminHosts(codec, [m]) + ParsedAdminHosts(codec, msgs)
  {
    assert ([m] + msgs)[1..] == msgs;
    assert [m][1..] == [];
  }

  /**
   * The loop stops at the first decode error or `disconnect`: nothing after it is handled,
   * and everything before it is.
   */
  lemma {:induction false} StopsAtFirstEnd(codec: PayloadCodec, onConnect: bool, prefix: seq<Inbound>, x: Inbound, rest: seq<Inbound>)
    requires forall k :: 0 <= k < |prefix| ==> !Ends(prefix[k])
    requires Ends(x)
    ensures ReceiveLoop(codec, onConnect, prefix + [x] + rest) == ReceiveLoop(codec, onConnect, prefix)
    ensures Handled(prefix + [x] + rest) == Handled(prefix)
    ensures |Handled(prefix)| == |prefix|
  {
    if prefix == [] {
      assert (prefix + [x] + rest)[0] == x;
    } else {
      assert (prefix + [x] + rest)[1..] == prefix[1..] + [x] + rest;
      StopsAtFirstEnd(codec, onConnect, prefix[1..], x, rest);
    }
  }

  /** Envelopes the loop neither answers nor stops on: command, pong, metrics, system_info and unknown tags. */
  predicate Inert(m: Message)
  {
    m.msgType != Ping && m.msgType != AdminInfo && m.msgType != Disconnect
  }

  /** Inert envelopes leave no trace: the loop behaves as if they had never arrived. */
  lemma {:induction false} InertIgnored(codec: PayloadCodec, onConnect: bool, inert: seq<Message>, rest: seq<Inbound>)
    requires forall k :: 0 <= k < |inert| ==> Inert(inert[k])
    ensures var received := seq(|inert|, k requires 0 <= k < |inert| => Received(inert[k]));
      ReceiveLoop(codec, onConnect, received + rest) == ReceiveLoop(codec, onConnect, rest)
  {
    var received := seq(|inert|, k requires 0 <= k < |inert| => Received(inert[k]));
    if inert != [] {
      var tailReceived := seq(|inert| - 1, k requires 0 <= k < |inert| - 1 => Received(inert[1..][k]));
      assert (received + rest)[1..] == tailReceived + rest;
      InertIgnored(codec, onConnect, inert[1..], rest);
    } else {
      assert received + rest == rest;
    }
  }

  /**
   * The admin's identification reaches the worker: with a JSON codec whose decoding undoes
   * encoding, the `admin_info` the admin sends makes the worker call onAdminConnect with the
   * admin's hostname, and the loop goes on.
   */
  lemma AdminInfoReachesWorker(codec: PayloadCodec, hostname: string, rest: seq<Inbound>)
    requires codec.Valid()
    ensures ReceiveLoop(codec, true, [Received(AdminInfoMessage(codec, hostname))] + rest)
         == [AdminConnected(hostname)] + ReceiveLoop(codec, true, rest)
  {
    var inbound := [Received(AdminInfoMessage(codec, hostname))] + rest;
    assert inbound[1..] == rest;
    assert codec.decodeAdminInfo(codec.encodeAdminInfo(AdminInfoPayload(hostname))) == Some(AdminInfoPayload(hostname));
  }
}
