# admin-admin, modelled in Dafny

admin-admin is a desktop tool for administering machines on a local network. A
machine is either an **admin** or a **worker**. A worker listens on TCP port
9876 and streams newline-delimited JSON envelopes to one admin at a time:

- a one-time `system_info` snapshot;
- periodic `metrics`;
- a `pong` for every `ping`.

A worker also runs an SSH server on port 2222 with fixed credentials. That lets
the admin open terminal tabs and run remote commands. Before it runs a command,
the SSH server rewrites package-manager commands so they cannot stop to ask a
question.

This project models the core of that system and proves properties of it. The
modules follow the source packages:

| module | file | models |
|---|---|---|
| `Protocol` | protocol.dfy | the message-type tags, the `{type, payload}` envelope, the payload records (`internal/network/protocol.go`) |
| `Worker` | worker.dfy | `WorkerServer`: its lifecycle and one admin session as a trace of events (`internal/network/worker.go`) |
| `LocalIP` | local_ip.dfy | the local-IP selection, which appears in both `worker.go` and `internal/system/info.go` |
| `Admin` | admin.dfy | `AdminClient`: connect, dial-error classification, ping, disconnect, the receive loop's callbacks (`internal/network/admin.go`) |
| `Ssh` | ssh.dfy | `SSHServer`: credentials, start/stop, authentication, channels, the exec payload, command rewriting; `SSHClient` (`internal/network/ssh.go`) |
| `State` | state.dfy | `AppState`, `DeviceInfo`, `AdminInfo` (`internal/state/state.go`) |
| `SysInfo` | info.dfy | OS name, `FormatBytes`, `FormatUptime`, GPU-name parsing (`internal/system/info.go`) |
| `Terminal` | terminal.dfy | `SSHTerminal`'s bounded output buffer and built-in commands; `SSHTerminalWindow`'s tab registry (`internal/ui/ssh_terminal.go`) |
| `Application` | app.dfy | `App`: role selection, the admin-client registry, teardown (`internal/application/app.go`) |
| `Strs`, `Seqs`, `Wrappers` | strs.dfy, seqs.dfy, wrappers.dfy | Go's `strings`/`fmt` helpers the core uses, sequence lemmas, `Option`/`Result` |

Objects whose fields the Go code updates in place are Dafny classes with
`modifies` clauses:

- `AppState`, `DeviceInfo`, `WorkerServer`, `AdminClient`, `SSHServer`, `SSHClient`, `SSHTerminal`, `SSHTerminalWindow`, `App`.

Loops become methods with invariants. Each is proved against a
specification stated apart from the loop:

- the worker's and the admin's receive loops equal the recursive functions
  `Worker.ReceiveLoop` and `Admin.UpdatesLoop`;
- the interface walk of `getLocalIP` equals `LocalIP.SelectedIP`, built from
  the recursive `Candidates`; its address scan keeps `Tracked` as its invariant;
- the channel-request loop equals the recursive `Ssh.Serve`;
- the GPU line scan equals the recursive `SysInfo.FirstGpuLine`;
- the `FormatBytes` loop ends with a closed-form exponent: its divisor is the
  largest power of 1024 not above the count, and the unit letter matches;
- the tab count in `AddTab` equals `Terminal.SessionNumber`, the cardinality
  of the set of tab IDs with the worker's prefix, plus one;
- the teardown loop over admin clients leaves every client's view equal to
  `Application.Disconnected` of its view before.

Further properties are proved about those functions as lemmas.

Network I/O is replaced by parameters. A dial or listen result is a `Result`
or an `Option<string>` error, and the messages a connection delivers are a
`seq<Inbound>`. A decode error or EOF is the end of that sequence. What a
session does is a `seq<Event>` (the worker) or a `seq<Callback>` (the admin),
in order. JSON encoding is a `PayloadCodec` of encode and decode functions.
Its `Valid()` says that decoding an encoded payload gives it back.

Three behaviours of the code that the model keeps as written:

- `protocol.go` declares only five message-type constants and a six-field
  `SystemInfoPayload`. `worker.go` and `admin.go` also send and handle
  `metrics` and `admin_info`, and fill a twelve-field payload. The model has
  all seven tags and the twelve fields the senders and receivers use.
- The SSH password callback compares against the username and password
  captured when `Start` ran (ssh.go:99-111). The comment on `GetCredentials`
  calls them "the current SSH credentials" (ssh.go:72), but a later
  `SetCredentials` does not change what a running server accepts. `SSHServer.authConfig` keeps the
  captured pair, apart from `credentials`.
- The exec payload's command is the `cmdLen` bytes after the four length
  bytes. Bytes after them are ignored, so a payload of `[0,0,0,5]` followed
  by `echo a` runs `echo ` (ssh.go:223-227).

## Model

| member | source | states |
|---|---|---|
| Protocol.ParseTag | internal/network/protocol.go:8-16 | a tag string parses to `Unknown` exactly when it is not one of the seven known tags; `Unknown` cannot hold a known tag, so each string has one representation, as with Go's string comparison |
| Protocol.TagStringParse | internal/network/protocol.go:8-16 | every tag string survives parse-then-print unchanged, so an unknown type keeps its text |
| Protocol.ParseTagString | internal/network/protocol.go:10-16 | printing any message type and parsing it back gives the same type |
| Protocol.TagsDistinct | internal/network/protocol.go:10-16 | two message types with the same wire string are equal |
| Protocol.ControlMessage | internal/network/worker.go:246-250 | a ping, pong or disconnect envelope carries its type and an empty payload |
| State.DeviceInfo.constructor | internal/state/state.go:13-27 | a new device record holds the given fields and an empty ID |
| State.AdminInfo.constructor | internal/state/state.go:29-32 | an admin record holds the given hostname |
| State.AppState.constructor | internal/state/state.go:41-47 | a new state has no role, no device and no admin, so neither connection query holds |
| State.AppState.SetRole | internal/state/state.go:49-59 | `GetRole` returns the role just set; both connections are unchanged |
| State.AppState.SetConnectedDevice | internal/state/state.go:61-71 | `GetConnectedDevice` returns exactly the reference stored; a non-null device makes `IsConnected` hold; role and admin are unchanged |
| State.AppState.SetConnectedAdmin | internal/state/state.go:83-93 | `GetConnectedAdmin` returns the reference stored; `IsWorkerConnected` holds iff that admin is non-null |
| State.AppState.UpdateDeviceMetrics | internal/state/state.go:73-81 | with a device connected, its CPU, RAM and GPU usage are replaced and every identity field is kept; with none, nothing changes |
| State.AppState.ClearConnection | internal/state/state.go:95-112 | both connections become null, so both connection queries fail; the role is kept |
| Worker.SnapshotPayload | internal/network/worker.go:206-227 | the snapshot carries every sampled field, and its IP address is `LocalIP.SelectedIP` of the interface listing |
| Worker.WorkerServer.constructor | internal/network/worker.go:31-39 | port 0 means 9876, any other port is kept; the server starts idle, with no connection and no callbacks |
| Worker.WorkerServer.SetCallbacks | internal/network/worker.go:42-45 | installs exactly the two callbacks and changes nothing else |
| Worker.WorkerServer.Start | internal/network/worker.go:48-77 | a listen error is returned wrapped as "failed to start worker server: ..."; otherwise the server is listening |
| Worker.WorkerServer.Stop | internal/network/worker.go:80-86 | closes the quit channel; closes the listener when one exists and returns that close error, otherwise returns nil |
| Worker.Receive | internal/network/worker.go:145-172 | the receive loop emits exactly `ReceiveLoop` of the inbound messages |
| Worker.WorkerServer.HandleConnection | internal/network/worker.go:119-173 | one session emits exactly `SessionTrace`, its snapshot address computed by `LocalIP.GetLocalIP`; afterwards there is no active connection and the last snapshot is kept |
| Worker.ReceiveLoopStep | internal/network/worker.go:145-172 | proof helper: a message that decodes contributes its reply, then the loop goes on with the rest |
| Worker.ReceiveLoopEvents | internal/network/worker.go:153-170 | the loop itself only sends pongs and raises admin-connected events |
| Worker.SystemInfoFirst | internal/network/worker.go:135-141 | a session's first event sends the system-info snapshot, the second starts the metrics loop, and no later event sends a snapshot |
| Worker.CleanupExactlyOnce | internal/network/worker.go:124-132 | every session ends with exactly one metrics stop and one connection close; the disconnect callback fires once if installed, and fires last |
| Worker.PongPerPing | internal/network/worker.go:154-155 | the number of pongs sent equals the number of pings handled |
| Worker.AdminConnectPerAdminInfo | internal/network/worker.go:156-163 | the admin-connected callback receives, in order, the hostname of every `admin_info` payload that decodes, and only when the callback is installed |
| Worker.StopsAtFirstEnd | internal/network/worker.go:146-151 | nothing after the first decode error or EOF is handled |
| Worker.InertIgnored | internal/network/worker.go:164-170 | disconnect, command and unknown messages produce no event |
| Worker.AdminInfoReachesWorker | internal/network/admin.go:99-112 | the `admin_info` envelope an admin sends raises the worker's admin-connected callback with the admin's hostname |
| Worker.CountAppend | internal/network/worker.go:119-173 | proof helper: counting events distributes over the concatenation of traces |
| Worker.ConnectedHostsAppend | internal/network/worker.go:156-163 | proof helper: the admin-connected hostnames of a concatenated trace are those of its parts, in order |
| LocalIP.GetLocalIP | internal/network/worker.go:252-327 | the imperative scan returns exactly `SelectedIP` of the interface list, including "unknown" when listing fails |
| LocalIP.ScanAddrs | internal/network/worker.go:283-315 | scanning one interface's addresses returns the first 192.168 address seen so far, or extends the private and fallback candidates in order |
| LocalIP.VisitAddr | internal/network/worker.go:284-314 | one address either is a usable 192.168 address, or is added to the other-private list or the fallback |
| LocalIP.SelectedUnknownIff | internal/system/info.go:127-202 | the result is "unknown" exactly when no usable IPv4 address exists |
| LocalIP.SelectedHomeFirst | internal/system/info.go:164-168 | when any candidate is in 192.168/16, the result is the first such candidate |
| LocalIP.SelectedPrivateFirst | internal/system/info.go:169-175 | with no 192.168 candidate, the first candidate in 10/8 or 172.16/12 wins |
| LocalIP.SelectedFallback | internal/system/info.go:176-201 | with no private candidate, the first usable address wins |
| LocalIP.CandidatesAreUsable | internal/system/info.go:138-172 | every candidate comes from an interface that is up, not loopback and not virtual, and is neither loopback nor link-local |
| LocalIP.UsableAddrsAreUsable | internal/system/info.go:158-172 | every address kept from an interface is a usable IPv4 address of it, neither loopback nor link-local |
| LocalIP.DockerNamedIsVirtual | internal/system/info.go:143-152 | an interface whose name contains "Docker" in any case is skipped |
| LocalIP.HomeNetsFirstMatch | internal/system/info.go:164-168 | proof helper: the 192.168 filter is empty iff no address is in 192.168/16, and otherwise starts with the first one |
| LocalIP.OtherPrivatesFirstMatch | internal/system/info.go:169-175 | proof helper: the same for 10/8 and 172.16/12 |
| LocalIP.CandidatesAppend | internal/system/info.go:136-202 | proof helper: the candidates of concatenated interface lists are the concatenation of their candidates |
| Admin.ContainsFoldIgnoresCase | internal/network/admin.go:23-25 | the case-insensitive `contains` gives the same answer whichever case either argument is in |
| Admin.ContainsFoldOfContains | internal/network/admin.go:23-25 | an exact substring is also a case-insensitive match |
| Admin.ClassifyDialErrorPrecedence | internal/network/admin.go:66-74 | "timeout" wins over "connection refused", which wins over "no route to host"; any other error is wrapped as "failed to connect to worker: ..." |
| Admin.NewDeviceInfo | internal/network/admin.go:180-193 | the device record copies all twelve snapshot fields and has an empty ID |
| Admin.AdminClient.constructor | internal/network/admin.go:28-33 | a new client is disconnected, with no connection, nothing sent, and the given callbacks |
| Admin.AdminClient.Connect | internal/network/admin.go:36-96 | a dial error is classified and returned, with no state change; success stores the connection, marks the client connected and sends exactly one `admin_info` with the hostname |
| Admin.AdminClient.Disconnect | internal/network/admin.go:115-127 | a connected client sends one `disconnect` and closes the connection, returning the close error; otherwise nothing happens and nil is returned |
| Admin.AdminClient.SendPing | internal/network/admin.go:135-143 | a disconnected client fails with "not connected" and sends nothing; a connected one sends one `ping` |
| Admin.AdminClient.ReceiveUpdates | internal/network/admin.go:145-222 | a connected client delivers exactly `UpdatesLoop` of the inbound messages; afterwards it is disconnected and its connection is closed |
| Admin.Receive | internal/network/admin.go:159-219 | the loop's callbacks are exactly `UpdatesLoop` of the inbound messages |
| Admin.ReceiveThenDisconnect | internal/network/admin.go:148-154 | once the receive loop has ended, `Disconnect` sends nothing and returns nil |
| Admin.UpdatePerSystemInfo | internal/network/admin.go:169-200 | the update callback receives, in order, every `system_info` payload that decodes, and only when it is installed |
| Admin.MetricsUpdatePerMetrics | internal/network/admin.go:202-211 | the metrics callback receives the CPU, RAM and GPU usage of every `metrics` payload that decodes, in order |
| Admin.SilentIgnored | internal/network/admin.go:213-217 | pong and unknown messages produce no callback |
| Admin.SnapshotReachesAdmin | internal/network/worker.go:206-244 | the snapshot a worker sends first reaches the admin's update callback unchanged |
| Admin.MetricsReachAdmin | internal/network/worker.go:175-204 | a metrics envelope reaches the admin's metrics callback with its three usage figures |
| Admin.UpdatesAppend | internal/network/admin.go:159-219 | proof helper: the update payloads of concatenated callback traces are those of the parts, in order |
| Admin.MetricsUpdatesAppend | internal/network/admin.go:159-219 | proof helper: the same for metrics payloads |
| Ssh.BytesToString | internal/network/ssh.go:226 | converting bytes to a string keeps the length and every byte |
| Ssh.ExecCommand | internal/network/ssh.go:221-230 | a command is extracted iff the payload is longer than 4 bytes and its big-endian length is positive and fits; it is exactly those bytes |
| Ssh.ExecRoundTrip | internal/network/ssh.go:221-230 | an exec payload holding the command as an SSH string (section 5 of RFC 4251), with anything after it, decodes to the command |
| Ssh.ExecEmptyIgnored | internal/network/ssh.go:225 | an empty command runs nothing |
| Ssh.ExecCommandEncoded | internal/network/ssh.go:221-230 | every accepted payload is the encoding of the command it yields, followed by trailing bytes |
| Ssh.BigEndianOfUint32 | internal/network/ssh.go:224 | reading back a 32-bit big-endian length gives the number written |
| Ssh.Uint32OfBigEndian | internal/network/ssh.go:224 | every 4-byte prefix is the encoding of the length read from it |
| Ssh.FirstStart | internal/network/ssh.go:215-236 | finds the first `shell` or `exec` request, if there is one |
| Ssh.ServeOutcome | internal/network/ssh.go:212-237 | each request up to and including the first `shell`/`exec` gets a reply, true exactly for shell, exec and pty-req; that request decides what runs; with none, every request is answered and nothing runs |
| Ssh.HandleChannel | internal/network/ssh.go:212-237 | the request loop produces exactly `Serve` of the requests |
| Ssh.ExecRequestRuns | internal/network/ssh.go:221-230 | after non-starting requests, an exec request with a non-empty command runs that command |
| Ssh.FateOf | internal/network/ssh.go:196-209 | a non-session channel is rejected as an unknown channel type; an accepted session channel is served |
| Ssh.ShellProgram | internal/network/ssh.go:239-250 | the shell is cmd.exe on Windows, otherwise `$SHELL` or /bin/sh when it is empty |
| Ssh.ExecProgram | internal/network/ssh.go:265-309 | Windows runs `cmd.exe /c` on the Windows rewrite; other systems run `/bin/sh -c` on the POSIX rewrite |
| Ssh.Launch | internal/network/ssh.go:215-230 | a program is launched exactly for a shell request or an exec request with a command |
| Ssh.RewriteWindows | internal/network/ssh.go:271-294 | the rewrite only appends flags, and leaves commands that are neither winget install/upgrade nor choco install unchanged |
| Ssh.RewriteWindowsFlags | internal/network/ssh.go:274-293 | after the rewrite, a winget install/upgrade has all three non-interactive flags and a choco install has `-y` |
| Ssh.RewriteWindowsIdempotent | internal/network/ssh.go:271-294 | rewriting an already rewritten Windows command changes nothing |
| Ssh.LowerRewrite | internal/network/ssh.go:273-293 | proof helper: the lower-cased rewrite is the lower-cased command followed by the flags chosen from it |
| Ssh.KeywordsStable | internal/network/ssh.go:274-290 | appending flags never adds or removes "winget", "choco", "install" or "upgrade" |
| Ssh.RewritePosix | internal/network/ssh.go:296-308 | a command that already contains "-y", or names none of the four installs, is unchanged; with only `apt-get install`, that becomes `apt-get install -y` at its first occurrence; `apt install` without yum or dnf becomes `apt install -y` at its first occurrence |
| Ssh.RewritePosixAddsYes | internal/network/ssh.go:296-308 | the rewrite either changes nothing or yields a command containing "-y" |
| Ssh.RewritePosixYumDnf | internal/network/ssh.go:305-306 | a `yum install` alone becomes `yum install -y`, and a `dnf install` alone becomes `dnf install -y`, at the first occurrence |
| Ssh.RewritePosixInserts | internal/network/ssh.go:296-308 | every command without "-y" that names one of the four installs comes out longer and containing "-y" |
| Ssh.RewritePosixIdempotent | internal/network/ssh.go:296-308 | rewriting an already rewritten POSIX command changes nothing |
| Ssh.CheckPassword | internal/network/ssh.go:101-110 | a login is accepted iff both username and password match; otherwise the error is "password rejected" |
| Ssh.SSHServer.constructor | internal/network/ssh.go:46-58 | port 0 means 2222; the credentials start as admin/admin; the server is not running |
| Ssh.SSHServer.SetCredentials | internal/network/ssh.go:61-70 | an empty username or password leaves that credential unchanged; the running server's authentication is not touched |
| Ssh.SSHServer.GetCredentials | internal/network/ssh.go:73-77 | returns the current credentials |
| Ssh.SSHServer.Start | internal/network/ssh.go:80-127 | a running server fails with "SSH server already running"; a non-empty password replaces the stored one; a host-key or listen error is wrapped and leaves the server stopped; success captures the credentials for authentication and runs |
| Ssh.SSHServer.Stop | internal/network/ssh.go:130-144 | a running server closes its quit channel and its listener, returning the close error; afterwards it is not running |
| Ssh.SSHServer.HandleConnection | internal/network/ssh.go:179-210 | a failed password check handles no channel; otherwise every channel gets its `FateOf` |
| Ssh.SSHClient.constructor | internal/network/ssh.go:400-403 | a new client has no connection |
| Ssh.SSHClient.Connect | internal/network/ssh.go:405-423 | a dial error is returned as "failed to connect: ..."; success stores the connection |
| Ssh.SSHClient.ExecuteCommand | internal/network/ssh.go:426-458 | "not connected" without a connection; a session error is wrapped; otherwise the combined output is returned, with "command failed: ..." on a run error |
| Ssh.SSHClient.ExecuteCommandWithInput | internal/network/ssh.go:461-538 | "not connected" without a connection; otherwise the setup error or the collected output |
| Ssh.SSHClient.Close | internal/network/ssh.go:541-546 | returns the close error when connected, otherwise nil |
| SysInfo.OSName | internal/system/info.go:113-124 | windows, darwin and linux get their display names; any other GOOS is returned as is |
| SysInfo.UptimePartsExact | internal/system/info.go:284-288 | days, hours and minutes account for every whole minute, with hours below 24 and minutes below 60 |
| SysInfo.FormatUptimeRoundTrip | internal/system/info.go:284-296 | reading back the days, hours and minutes of the formatted text gives the uptime in whole minutes |
| SysInfo.FormatUptimeShape | internal/system/info.go:284-296 | the text shows days iff the uptime is at least one day, and hours iff it is at least one hour; under a minute it is "0m" |
| SysInfo.FormatBytes | internal/system/info.go:270-281 | below 1024 the text is the exact count with " B"; otherwise the unit is the largest power of 1024 that fits, with the letter from "KMGTPE" |
| SysInfo.ExpBound | internal/system/info.go:275-279 | a 64-bit byte count never needs a unit past exabytes |
| SysInfo.FirstGpuLineSpec | internal/system/info.go:215-221 | the GPU name is the first trimmed non-empty line other than the "Name" header, or none when there is no such line |
| SysInfo.GpuName | internal/system/info.go:205-223 | on Windows with wmic output, the name is the first usable line, or "N/A"; otherwise "N/A" |
| Strs.JoinSplit | internal/ui/ssh_terminal.go:129 | splitting on newlines and joining back gives the original text |
| Strs.DecimalRoundTrip | internal/system/info.go:273 | reading the decimal text of a number back gives the number |
| Strs.ReplaceFirst | internal/network/ssh.go:298-306 | text without the pattern is unchanged; otherwise the replacement is spliced in at the first occurrence, and the length changes by the difference in length |
| Strs.IndexOf | internal/network/ssh.go:297-306 | finds the first occurrence, and finds one exactly when the text contains the pattern |
| Strs.TrimSpaceSlice | internal/system/info.go:217 | trimming removes only leading and trailing white space |
| Terminal.BoundedAppendAll | internal/ui/ssh_terminal.go:72-80 | trimming after every line gives the same buffer as trimming once at the end |
| Terminal.AppendKeepsLast | internal/ui/ssh_terminal.go:72-80 | after an append the buffer holds at most `maxLines` lines and ends with the new line |
| Terminal.Reply | internal/ui/ssh_terminal.go:108-135 | help shows six lines; a remote command's output ends with a blank line |
| Terminal.RemoteOutputShown | internal/ui/ssh_terminal.go:125-135 | the lines shown for a non-empty remote result, joined by newlines, are that result |
| Terminal.SSHTerminal.constructor | internal/ui/ssh_terminal.go:50-70 | empty history at index -1, 500 lines at most, in "~", connected, with the four welcome lines |
| Terminal.SSHTerminal.AppendOutput | internal/ui/ssh_terminal.go:72-80 | the buffer becomes the old buffer plus the line, keeping only the last `maxLines` |
| Terminal.SSHTerminal.ExecuteCommand | internal/ui/ssh_terminal.go:88-136 | an empty command changes nothing; otherwise it is recorded in history with the index past its end; clear/cls empties the buffer; exit/quit disconnects; every other command appends the prompt and its reply |
| Terminal.SSHTerminal.RunBuiltin | internal/ui/ssh_terminal.go:104-135 | dispatches on the built-in: clear empties, exit disconnects, help and remote append their reply |
| Terminal.SSHTerminal.ShowResult | internal/ui/ssh_terminal.go:124-135 | appends the result's lines when there is a handler and a result, then a blank line |
| Terminal.SSHTerminal.AppendLines | internal/ui/ssh_terminal.go:129-132 | appending lines one by one equals one bounded append of all of them |
| Terminal.PadRight | internal/ui/ssh_terminal.go:577-582 | the result has exactly the requested length: the text padded with spaces, or cut |
| Terminal.SessionNumber | internal/ui/ssh_terminal.go:208-222 | a worker's session number is at least 1, and is 1 iff it has no open tab |
| Terminal.TabID | internal/ui/ssh_terminal.go:208 | a tab ID starts with the worker ID and a dash |
| Terminal.SessionNumberGrows | internal/ui/ssh_terminal.go:208-239 | opening a tab for a worker raises its next session number by one |
| Terminal.SessionNumberOtherWorker | internal/ui/ssh_terminal.go:212-216 | a tab of another worker does not change this worker's session number |
| Terminal.SSHTerminalWindow.constructor | internal/ui/ssh_terminal.go:174-200 | a new window is open and has no tabs |
| Terminal.SSHTerminalWindow.CountSessions | internal/ui/ssh_terminal.go:210-222 | the counting loop returns exactly `SessionNumber` |
| Terminal.SSHTerminalWindow.AddTab | internal/ui/ssh_terminal.go:203-243 | stores exactly one new tab under the new ID, named with the session number; the other tabs are kept |
| Terminal.SSHTerminalWindow.RemoveTab | internal/ui/ssh_terminal.go:246-272 | an unknown ID changes nothing; otherwise the tab is removed, and the window closes when no tab is left |
| Application.WorkerSSHCredentials | internal/application/app.go:32 | the worker's SSH login is the default username with the application password |
| Application.WorkerSSHLogin | internal/application/app.go:99-104 | a worker's SSH server accepts admin/admin123 and nothing else; the library default admin/admin is rejected |
| Application.Disconnected | internal/network/admin.go:115-127 | the view of a client after `Disconnect`: disconnected, and one `disconnect` sent iff it was connected |
| Application.App.constructor | internal/application/app.go:27-34 | a new app has no clients and no servers, a fresh state with no role, and the SSH password admin123 |
| Application.App.SelectAdminRole | internal/application/app.go:63-67 | the role becomes admin; connections are unchanged |
| Application.App.SelectWorkerRole | internal/application/app.go:69-107 | the role becomes worker; a new worker server on 9876 with both callbacks and a new SSH server on 2222 with admin/admin123 are started; each start error is returned as in their `Start` |
| Application.App.OnAdminConnected | internal/application/app.go:79-83 | the state records a new admin with the given hostname |
| Application.App.OnAdminDisconnected | internal/application/app.go:84-88 | the state clears both connections and keeps the role |
| Application.App.OnDeviceInfo | internal/application/app.go:229-237 | the device's ID becomes the worker's IP; every other field is kept |
| Application.App.ConnectToWorker | internal/application/app.go:212-262 | an already registered IP is refused; a dial error is reported; success registers exactly one new connected client under the IP, with both callbacks |
| Application.CloseAll | internal/application/app.go:164-176 | every registered client ends in the `Disconnected` view of its old view |
| Application.App.DisconnectAll | internal/application/app.go:164-176 | every client is disconnected, the registry is emptied and the state's connections are cleared |
| Application.App.StopServers | internal/application/app.go:190-204 | the worker server's quit channel is closed, and its listener too if it was listening; the SSH server stops running; both are dropped |
| Application.App.BackToRoleSelection | internal/application/app.go:178-210 | all clients are disconnected, both servers are stopped and dropped, and the state returns to no role with no connections |

## Left out

- Sockets, listeners and accept loops (worker.go:98-117, ssh.go:158-177): each connection is a parameter, and its messages are a sequence.
- The quit-channel shutdown of the accept loops: `Stop` records that the channel is closed.
- The metrics ticker goroutine (worker.go:175-204): the session trace records its start and stop; one metrics envelope is followed to the admin (`Admin.MetricsReachAdmin`).
- JSON encoding and decoding: `Protocol.PayloadCodec` is abstract, and `Valid()` states its round trip.
- The SSH handshake, the host-key generation and the PEM key file: `Start` takes the host-key result as a parameter, and a connection is the username and password offered.
- Process spawning, the null-device stdin, `CombinedOutput` and the read loops of `ExecuteCommandWithInput`: the model returns the program and arguments that would run, and takes the output or setup error as parameters.
- Sampling through gopsutil, wmic, nvidia-smi and PowerShell, and `fmt.Sscanf` of utilisation figures: the samples are parameters. `GetLocalSystemInfo`, `GetRealTimeMetrics` and the GPU utilisation reading are not modelled.
- SysInfo.FormatBytes: the `%.1f` floating-point mantissa is not modelled; the result keeps the exact byte count, the divisor and the unit letter.
- `stripANSI`, `getOutput`, the terminal widget rendering and `createTerminalUI`, with its separate history: these are display code.
- The Fyne windows, dialogs and device list, `selectWorker`, the admin and worker screens, and `main.go`: these are UI only.
- Mutexes: the model is sequential, so the goroutines and locks of every component are not modelled.
- Strs.ToLower and Strs.TrimSpace: only ASCII letters and ASCII white space are handled. Go's Unicode case folding and Unicode spaces are not modelled.
- Admin.AdminClient.ReceiveUpdates: the loop checks `connected` once, at entry. A `Disconnect` from another goroutine during the loop is not modelled.
- `app.go` calls `AddConnectedDevice`, `UpdateDeviceMetricsByID`, `GetSelectedWorkerID` and `SetSelectedWorker` (app.go:160, 234, 240, 242). None of these exist in `state.go`, so those updates are not modelled. `OnDeviceInfo` models the ID assignment only.
- Application.App.DisconnectAll: the Go loop deletes each entry as it goes; the model disconnects every client and then empties the registry.
- Application.CloseAll: close errors from `Disconnect` are ignored, as in `disconnectAll`.
- Worker.WorkerServer.Stop: requires that the quit channel is still open. A second `Stop` closes a closed channel, which panics in Go; the application never stops a server twice.
- Ssh.SSHServer.Stop: requires an open quit channel when running. `Start` after `Stop` does not recreate the channel, so a restarted server cannot be stopped again; the application creates a new server each time.
- `GetPort` is a read of the `port` member: a field of `WorkerServer`, a constant of `SSHServer`. `IsRunning`, `IsConnected` and `HasTab` are plain field reads, modelled as predicates without a contract of their own.
- Terminal.RemoveTab: the removal of the tab-bar button, matched by its label, is not modelled.
- Ssh.RewritePosix: for a command naming several of `apt-get install`, `apt install`, `yum install` and `dnf install`, the contract states only that the command grows and gains "-y" (`Ssh.RewritePosixInserts`), not where each " -y" lands. When both apt forms occur, only `apt install` gets " -y", because the apt step starts again from the original command.
- Terminal.Bounded has no contract of its own; its properties are the lemmas `BoundedAppendAll` and `AppendKeepsLast`.
