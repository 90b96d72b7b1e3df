/**
 * The SSH service embedded in a worker (internal/network/ssh.go): the parsing of an
 * `exec` request's command, the dispatch of channel requests, the choice of the program
 * a session runs, the package-manager command rewriter, and the state of the server
 * (running flag, credentials) and of the admin-side client.
 *
 * The handshake, the host key, process spawning and the socket I/O are not modelled:
 * their outcomes are parameters.
 */
module Ssh {
  import opened Wrappers
  import opened Strs
  import opened Protocol

  const DefaultSSHPort := 2222

  /** The reason code SSH_OPEN_UNKNOWN_CHANNEL_TYPE of section 5.1 of RFC 4254. */
  const UnknownChannelType := 3

  // ---------------------------------------------------------------------------
  // The command of an `exec` request (section 6.5 of RFC 4254): a `string` in the sense of
  // section 5 of RFC 4251, a big-endian uint32 length followed by that many bytes.

  /** The big-endian uint32 in the first four bytes. */
  function BigEndian32(b: seq<byte>): nat
    requires |b| >= 4
  {
    ((b[0] as int * 256 + b[1]) * 256 + b[2]) * 256 + b[3]
  }

  /** Go's `string(bytes)`: one character per byte. */
  function BytesToString(b: seq<byte>): (s: string)
    ensures |s| == |b| && forall k :: 0 <= k < |b| ==> s[k] as int == b[k]
  {
    seq(|b|, k requires 0 <= k < |b| => b[k] as char)
  }

  /**
   * The command carried by an `exec` request: present only when the payload is longer
   * than four bytes and the declared length is positive and fits in the rest of it;
   * bytes after the command are ignored.
   */
  function ExecCommand(payload: seq<byte>): (r: Option<string>)
    ensures r.Some? ==> |payload| > 4 && 0 < |r.value| == BigEndian32(payload) <= |payload| - 4
    ensures r.Some? ==> r.value == BytesToString(payload[4..4 + |r.value|])
    ensures r.None? <==> |payload| <= 4 || BigEndian32(payload) == 0 || BigEndian32(payload) > |payload| - 4
  {
    if |payload| > 4 then
      var n := BigEndian32(payload);
      if 0 < n <= |payload| - 4 then Some(BytesToString(payload[4..4 + n])) else None
    else
      None
  }

  /** The four big-endian bytes of a uint32. */
  function Uint32Bytes(n: nat): (r: seq<byte>)
    requires n < 0x1_0000_0000
    ensures |r| == 4
  {
    [n / 256 / 256 / 256, n / 256 / 256 % 256, n / 256 % 256, n % 256]
  }

  /** The RFC 4251 `string` encoding of `s`, as an SSH client sends an exec command. */
  function EncodeString(s: seq<byte>): (r: seq<byte>)
    requires |s| < 0x1_0000_0000
    ensures |r| == |s| + 4 && r[4..] == s
  {
    Uint32Bytes(|s|) + s
  }

  lemma BigEndianOfUint32(n: nat)
    requires n < 0x1_0000_0000
    ensures BigEndian32(Uint32Bytes(n)) == n
  {
    var m1 := n / 256;
    var m2 := m1 / 256;
    var m3 := m2 / 256;
    assert n == m1 * 256 + n % 256;
    assert m1 == m2 * 256 + m1 % 256;
    assert m2 == m3 * 256 + m2 % 256;
  }

  lemma Uint32OfBigEndian(b: seq<byte>)
    requires |b| >= 4
    ensures BigEndian32(b) < 0x1_0000_0000 && Uint32Bytes(BigEndian32(b)) == b[..4]
  {
    var n := BigEndian32(b);
    var m2 := b[0] as int * 256 + b[1];
    var m1 := m2 * 256 + b[2];
    assert n == m1 * 256 + b[3];
    assert n / 256 == m1 && n % 256 == b[3];
    assert m1 / 256 == m2 && m1 % 256 == b[2];
    assert m2 / 256 == b[0] && m2 % 256 == b[1];
  }

  /** A non-empty command sent in the RFC 4251 encoding is recovered, whatever follows it. */
  lemma ExecRoundTrip(cmd: seq<byte>, trailing: seq<byte>)
    requires 0 < |cmd| < 0x1_0000_0000
    ensures ExecCommand(EncodeString(cmd) + trailing) == Some(BytesToString(cmd))
  {
    var p := EncodeString(cmd) + trailing;
    BigEndianOfUint32(|cmd|);
    assert p[..4] == Uint32Bytes(|cmd|);
    assert BigEndian32(p) == BigEndian32(p[..4]);
    assert p[4..4 + |cmd|] == cmd;
  }

  /** An empty command runs nothing, even when bytes follow its length. */
  lemma ExecEmptyIgnored(trailing: seq<byte>)
    ensures ExecCommand(EncodeString([]) + trailing) == None
  {
    var p := EncodeString([]) + trailing;
    BigEndianOfUint32(0);
    assert p[..4] == Uint32Bytes(0);
    assert BigEndian32(p) == BigEndian32(p[..4]);
  }

  /** Every accepted payload is an encoded command followed by ignored bytes. */
  lemma ExecCommandEncoded(payload: seq<byte>)
    requires ExecCommand(payload).Some?
    ensures var cmd := payload[4..4 + |ExecCommand(payload).value|];
      payload == EncodeString(cmd) + payload[4 + |cmd|..]
      && ExecCommand(payload).value == BytesToString(cmd)
  {
    var n := |ExecCommand(payload).value|;
    Uint32OfBigEndian(payload);
    assert Uint32Bytes(n) == payload[..4];
    assert payload == payload[..4] + payload[4..4 + n] + payload[4 + n..];
  }

  // ---------------------------------------------------------------------------
  // Requests on a session channel (section 6 of RFC 4254)

  datatype Request = Request(reqType: string, payload: seq<byte>)

  /** What a session goes on to run once its request loop ends. */
  datatype Action = NoAction | StartShell | RunExec(command: Option<string>)

  /** The replies sent to the requests processed, and what runs afterwards. */
  datatype ChannelOutcome = ChannelOutcome(replies: seq<bool>, action: Action)

  /** A `shell` or `exec` request ends request processing. */
  predicate StartsSession(req: Request)
  {
    req.reqType == "shell" || req.reqType == "exec"
  }

  /** `shell`, `exec` and `pty-req` are acknowledged; every other request is refused. */
  predicate Acknowledged(req: Request)
  {
    req.reqType == "shell" || req.reqType == "exec" || req.reqType == "pty-req"
  }

  function StartAction(req: Request): Action
    requires StartsSession(req)
  {
    if req.reqType == "shell" then StartShell else RunExec(ExecCommand(req.payload))
  }

  /** The request loop of `handleChannel` over the requests that arrive before the channel closes. */
  function Serve(reqs: seq<Request>): ChannelOutcome
  {
    if reqs == [] then ChannelOutcome([], NoAction)
    else if StartsSession(reqs[0]) then ChannelOutcome([true], StartAction(reqs[0]))
    else
      var rest := Serve(reqs[1..]);
      ChannelOutcome([Acknowledged(reqs[0])] + rest.replies, rest.action)
  }

  /** The index of the first `shell` or `exec` request, if any. */
  function FirstStart(reqs: seq<Request>): (r: Option<nat>)
    ensures r.Some? ==> r.value < |reqs| && StartsSession(reqs[r.value])
    ensures r.Some? ==> forall j :: 0 <= j < r.value ==> !StartsSession(reqs[j])
    ensures r.None? ==> forall j :: 0 <= j < |reqs| ==> !StartsSession(reqs[j])
  {
    if reqs == [] then None
    else if StartsSession(reqs[0]) then Some(0)
    else match FirstStart(reqs[1..])
      case None => None
      case Some(k) => Some(k + 1)
  }

  /**
   * Every request up to and including the first `shell` or `exec` gets a reply (true exactly
   * for the acknowledged types), no later request is answered, and the first such request
   * decides what runs; without one, every request is answered and nothing runs.
   */
  lemma {:induction false} ServeOutcome(reqs: seq<Request>)
    ensures var o := Serve(reqs);
      |o.replies| <= |reqs|
      && (forall j :: 0 <= j < |o.replies| ==> o.replies[j] == Acknowledged(reqs[j]))
      && (FirstStart(reqs).None? ==> |o.replies| == |reqs| && o.action == NoAction)
      && (FirstStart(reqs).Some? ==>
            |o.replies| == FirstStart(reqs).value + 1 && o.action == StartAction(reqs[FirstStart(reqs).value]))
  {
    if reqs != [] && !StartsSession(reqs[0]) {
      ServeOutcome(reqs[1..]);
      var o := Serve(reqs);
      forall j | 1 <= j < |o.replies| ensures o.replies[j] == Acknowledged(reqs[j]) {
        assert reqs[1..][j - 1] == reqs[j];
      }
    }
  }

  /** The loop of `handleChannel`: reply to each request until a `shell` or `exec` one. */
  method HandleChannel(requests: seq<Request>) returns (replies: seq<bool>, action: Action)
    ensures ChannelOutcome(replies, action) == Serve(requests)
  {
    replies := [];
    var i := 0;
    while i < |requests|
      invariant i <= |requests|
      invariant Serve(requests) == ChannelOutcome(replies + Serve(requests[i..]).replies, Serve(requests[i..]).action)
    {
      var req := requests[i];
      assert requests[i..][1..] == requests[i + 1..];
      if req.reqType == "shell" {
        replies := replies + [true];
        return replies, StartShell;
      } else if req.reqType == "exec" {
        replies := replies + [true];
        var command := None;
        if |req.payload| > 4 {
          var cmdLen := BigEndian32(req.payload);
          if cmdLen > 0 && cmdLen <= |req.payload| - 4 {
            command := Some(BytesToString(req.payload[4..4 + cmdLen]));
          }
        }
        return replies, RunExec(command);
      } else if req.reqType == "pty-req" {
        replies := replies + [true];
      } else {
        replies := replies + [false];
      }
      i := i + 1;
    }
    assert requests[i..] == [];
    action := NoAction;
  }

  /** An `exec` carrying an encoded command, after any number of non-starting requests, runs that command. */
  lemma ExecRequestRuns(before: seq<Request>, cmd: seq<byte>, trailing: seq<byte>, after: seq<Request>)
    requires forall j :: 0 <= j < |before| ==> !StartsSession(before[j])
    requires 0 < |cmd| < 0x1_0000_0000
    ensures Serve(before + [Request("exec", EncodeString(cmd) + trailing)] + after).action
         == RunExec(Some(BytesToString(cmd)))
  {
    var reqs := before + [Request("exec", EncodeString(cmd) + trailing)] + after;
    ServeOutcome(reqs);
    assert reqs[|before|] == Request("exec", EncodeString(cmd) + trailing);
    var k := FirstStart(reqs).value;
    assert k == |before|;
    ExecRoundTrip(cmd, trailing);
  }

  // ---------------------------------------------------------------------------
  // Channels of a connection (section 5.1 of RFC 4254)

  /** A channel the client opens: its type, whether `Accept` succeeds, and the requests sent on it. */
  datatype ChannelOpen = ChannelOpen(channelType: string, acceptOk: bool, requests: seq<Request>)

  datatype ChannelFate =
    | Rejected(reason: nat, message: string)
    | AcceptFailed
    | Served(outcome: ChannelOutcome)

  /** Non-session channels are rejected as unknown; a session that is accepted is served. */
  function FateOf(ch: ChannelOpen): (f: ChannelFate)
    ensures f.Rejected? <==> ch.channelType != "session"
    ensures f.Rejected? ==> f == Rejected(UnknownChannelType, "unknown channel type")
    ensures f.Served? <==> ch.channelType == "session" && ch.acceptOk
    ensures f.Served? ==> f.outcome == Serve(ch.requests)
  {
    if ch.channelType != "session" then Rejected(UnknownChannelType, "unknown channel type")
    else if !ch.acceptOk then AcceptFailed
    else Served(Serve(ch.requests))
  }

  // ---------------------------------------------------------------------------
  // The program a session runs

  datatype Program = Program(path: string, args: seq<string>)

  /** `startShell`: cmd.exe on Windows, else `$SHELL`, or /bin/sh when that is empty. */
  function ShellProgram(goos: string, shellEnv: string): (p: Program)
    ensures p.args == [] && p.path != ""
    ensures goos == "windows" ==> p.path == "cmd.exe"
    ensures goos != "windows" ==> p.path == (if shellEnv == "" then "/bin/sh" else shellEnv)
  {
    if goos == "windows" then Program("cmd.exe", [])
    else if shellEnv == "" then Program("/bin/sh", [])
    else Program(shellEnv, [])
  }

  /** `executeCommand`: the rewritten command under `cmd.exe /c` on Windows, else under `/bin/sh -c`. */
  function ExecProgram(goos: string, cmd: string): (p: Program)
    ensures goos == "windows" ==> p == Program("cmd.exe", ["/c", RewriteWindows(cmd)])
    ensures goos != "windows" ==> p == Program("/bin/sh", ["-c", RewritePosix(cmd)])
  {
    if goos == "windows" then Program("cmd.exe", ["/c", RewriteWindows(cmd)])
    else Program("/bin/sh", ["-c", RewritePosix(cmd)])
  }

  /** The program launched once a session's requests are processed, if any. */
  function Launch(goos: string, shellEnv: string, action: Action): (p: Option<Program>)
    ensures p.Some? <==> action.StartShell? || (action.RunExec? && action.command.Some?)
  {
    match action
    case NoAction => None
    case StartShell => Some(ShellProgram(goos, shellEnv))
    case RunExec(None) => None
    case RunExec(Some(cmd)) => Some(ExecProgram(goos, cmd))
  }

  // ---------------------------------------------------------------------------
  // The Windows rewrite: flags appended to winget and choco installs, checked against the
  // lower-cased command, each only when the lower-cased command lacks it.

  const SourceFlag := "--accept-source-agreements"
  const PackageFlag := "--accept-package-agreements"
  const InteractivityFlag := "--disable-interactivity"
  const YesFlag := "-y"

  predicate WingetInstall(lower: string)
  {
    Contains(lower, "winget") && (Contains(lower, "install") || Contains(lower, "upgrade"))
  }

  predicate ChocoInstall(lower: string)
  {
    Contains(lower, "choco") && Contains(lower, "install")
  }

  /** `" " + flag`, unless the lower-cased command already contains the flag. */
  function FlagIfAbsent(lower: string, flag: string): string
  {
    if Contains(lower, flag) then "" else " " + flag
  }

  function WingetSuffix(lower: string): string
  {
    if WingetInstall(lower) then
      FlagIfAbsent(lower, SourceFlag) + FlagIfAbsent(lower, PackageFlag) + FlagIfAbsent(lower, InteractivityFlag)
    else ""
  }

  function ChocoSuffix(lower: string): string
  {
    if ChocoInstall(lower) then FlagIfAbsent(lower, YesFlag) else ""
  }

  /** The command `executeCommand` hands to cmd.exe: the original followed by the missing flags. */
  function RewriteWindows(cmd: string): (r: string)
    ensures HasPrefix(r, cmd)
    ensures !WingetInstall(ToLower(cmd)) && !ChocoInstall(ToLower(cmd)) ==> r == cmd
  {
    cmd + WingetSuffix(ToLower(cmd)) + ChocoSuffix(ToLower(cmd))
  }

  // ---------------------------------------------------------------------------
  // The POSIX rewrite: case-sensitive, and only for a command with no "-y" anywhere.

  /**
   * The command `executeCommand` hands to /bin/sh. The apt branch starts again from `cmd`,
   * so when both "apt-get install" and "apt install" occur only the latter gets " -y".
   */
  function RewritePosix(cmd: string): (r: string)
    ensures Contains(cmd, "-y") ==> r == cmd
    ensures !Contains(cmd, "apt-get install") && !Contains(cmd, "apt install")
         && !Contains(cmd, "yum install") && !Contains(cmd, "dnf install")
        ==> r == cmd
    ensures !Contains(cmd, "-y") && Contains(cmd, "apt-get install") && !Contains(cmd, "apt install")
         && !Contains(cmd, "yum install") && !Contains(cmd, "dnf install")
        ==> r == ReplaceFirst(cmd, "apt-get install", "apt-get install -y")
    ensures !Contains(cmd, "-y") && Contains(cmd, "apt install")
         && !Contains(cmd, "yum install") && !Contains(cmd, "dnf install")
        ==> r == ReplaceFirst(cmd, "apt install", "apt install -y")
  {
    var noYes := !Contains(cmd, "-y");
    var afterAptGet :=
      if Contains(cmd, "apt-get install") && noYes
      then ReplaceFirst(cmd, "apt-get install", "apt-get install -y") else cmd;
    var afterApt :=
      if Contains(cmd, "apt install") && noYes
      then ReplaceFirst(cmd, "apt install", "apt install -y") else afterAptGet;
    if (Contains(cmd, "yum install") || Contains(cmd, "dnf install")) && noYes
    then ReplaceFirst(ReplaceFirst(afterApt, "yum install", "yum install -y"), "dnf install", "dnf install -y")
    else afterApt
  }

  // ---------------------------------------------------------------------------
  // Properties of the rewrites

  predicate IsFlag(f: string)
  {
    f == SourceFlag || f == PackageFlag || f == InteractivityFlag || f == YesFlag
  }

  predicate IsKeyword(kw: string)
  {
    kw == "winget" || kw == "install" || kw == "upgrade" || kw == "choco"
  }

  /** No flag the Windows rewrite appends contains a keyword the rewrite tests for. */
  lemma FlagFree(flag: string, kw: string)
    requires IsFlag(flag) && IsKeyword(kw)
    ensures !Contains(flag, kw)
  {
    if flag == YesFlag {
    } else if flag == SourceFlag {
      SourceFlagFree(kw);
    } else if flag == PackageFlag {
      PackageFlagFree(kw);
    } else {
      InteractivityFlagFree(kw);
    }
  }

  lemma SourceFlagFree(kw: string)
    requires IsKeyword(kw)
    ensures !Contains(SourceFlag, kw)
  {
    if kw == "winget" {
      MissingChar(SourceFlag, "winget", 0);
    } else if kw == "install" {
      MissingChar(SourceFlag, "install", 0);
    } else if kw == "upgrade" {
      MissingChar(SourceFlag, "upgrade", 5);
    } else {
      MissingChar(SourceFlag, "choco", 1);
    }
  }

  lemma PackageFlagFree(kw: string)
    requires IsKeyword(kw)
    ensures !Contains(PackageFlag, kw)
  {
    if kw == "winget" {
      MissingChar(PackageFlag, "winget", 0);
    } else if kw == "install" {
      MissingChar(PackageFlag, "install", 0);
    } else if kw == "upgrade" {
      MissingChar(PackageFlag, "upgrade", 0);
    } else {
      MissingChar(PackageFlag, "choco", 1);
    }
  }

  /** "install" has no '-', and neither half of "--disable-interactivity" holds it. */
  lemma InstallAcrossDash(a: string, b: string)
    requires a == "--disable" && b == "interactivity"
    ensures !Contains(a + ['-'] + b, "install")
  {
    MissingChar(a, "install", 1);
    MissingChar(b, "install", 5);
    AbsentAcross(a, '-', b, "install");
  }

  lemma InteractivityFlagFree(kw: string)
    requires IsKeyword(kw)
    ensures !Contains(InteractivityFlag, kw)
  {
    if kw == "winget" {
      MissingChar(InteractivityFlag, "winget", 0);
    } else if kw == "install" {
      assert InteractivityFlag == "--disable" + ['-'] + "interactivity";
      InstallAcrossDash("--disable", "interactivity");
    } else if kw == "upgrade" {
      MissingChar(InteractivityFlag, "upgrade", 0);
    } else {
      MissingChar(InteractivityFlag, "choco", 1);
    }
  }

  /** Appending a flag neither creates nor removes a keyword. */
  lemma AppendFlagKeeps(a: string, lower: string, flag: string, kw: string)
    requires IsFlag(flag) && IsKeyword(kw)
    ensures Contains(a + FlagIfAbsent(lower, flag), kw) <==> Contains(a, kw)
  {
    if !Contains(lower, flag) {
      assert a + FlagIfAbsent(lower, flag) == a + [' '] + flag;
      if Contains(a + [' '] + flag, kw) {
        FlagFree(flag, kw);
        ContainsAcross(a, ' ', flag, kw);
      }
      if Contains(a, kw) {
        ContainsPrefix(a, [' '] + flag, kw);
      }
    } else {
      assert a + FlagIfAbsent(lower, flag) == a;
    }
  }

  /** The lower-cased rewrite contains exactly the keywords of the lower-cased command. */
  lemma KeywordsStable(lower: string, kw: string)
    requires IsKeyword(kw)
    ensures Contains(lower + WingetSuffix(lower) + ChocoSuffix(lower), kw) <==> Contains(lower, kw)
  {
    var f1 := FlagIfAbsent(lower, SourceFlag);
    var f2 := FlagIfAbsent(lower, PackageFlag);
    var f3 := FlagIfAbsent(lower, InteractivityFlag);
    var w := if WingetInstall(lower) then lower + f1 + f2 + f3 else lower;
    if WingetInstall(lower) {
      AppendFlagKeeps(lower, lower, SourceFlag, kw);
      AppendFlagKeeps(lower + f1, lower, PackageFlag, kw);
      AppendFlagKeeps(lower + f1 + f2, lower, InteractivityFlag, kw);
    }
    assert lower + WingetSuffix(lower) == w;
    if ChocoInstall(lower) {
      AppendFlagKeeps(w, lower, YesFlag, kw);
    } else {
      assert w + ChocoSuffix(lower) == w;
    }
  }

  /** After the rewrite, the lower-cased command contains every flag its suffix may add. */
  lemma FlagPresent(lower: string, pre: string, flag: string, post: string)
    ensures Contains(lower + pre + FlagIfAbsent(lower, flag) + post, flag)
  {
    if Contains(lower, flag) {
      ContainsPrefix(lower, pre + FlagIfAbsent(lower, flag) + post, flag);
      assert lower + (pre + FlagIfAbsent(lower, flag) + post) == lower + pre + FlagIfAbsent(lower, flag) + post;
    } else {
      assert OccursAt(flag, flag, 0);
      ContainsSuffix([' '], flag, flag);
      ContainsInMiddle(lower + pre, [' '] + flag, post, flag);
    }
  }

  predicate NoUpper(s: string)
  {
    forall k :: 0 <= k < |s| ==> !IsUpper(s[k])
  }

  lemma SuffixesLower(lower: string)
    ensures NoUpper(WingetSuffix(lower)) && NoUpper(ChocoSuffix(lower))
  {
    assert NoUpper(" " + SourceFlag) && NoUpper(" " + PackageFlag);
    assert NoUpper(" " + InteractivityFlag) && NoUpper(" " + YesFlag);
  }

  /** Lower-casing the rewrite lower-cases only the original part: the flags are lower case. */
  lemma LowerRewrite(cmd: string)
    ensures ToLower(RewriteWindows(cmd))
         == ToLower(cmd) + WingetSuffix(ToLower(cmd)) + ChocoSuffix(ToLower(cmd))
  {
    var lower := ToLower(cmd);
    var w := WingetSuffix(lower);
    var c := ChocoSuffix(lower);
    SuffixesLower(lower);
    ToLowerConcat(cmd + w, c);
    ToLowerConcat(cmd, w);
    ToLowerOfLower(w);
    ToLowerOfLower(c);
  }

  /** The suffixes bring in every flag that the winget and choco tests call for. */
  lemma FlagsPresent(lower: string)
    ensures var lower2 := lower + WingetSuffix(lower) + ChocoSuffix(lower);
      (WingetInstall(lower) ==>
        Contains(lower2, SourceFlag) && Contains(lower2, PackageFlag) && Contains(lower2, InteractivityFlag))
      && (ChocoInstall(lower) ==> Contains(lower2, YesFlag))
  {
    if WingetInstall(lower) {
      WingetFlagsPresent(lower);
    }
    if ChocoInstall(lower) {
      FlagPresent(lower, WingetSuffix(lower), YesFlag, []);
      assert lower + WingetSuffix(lower) + FlagIfAbsent(lower, YesFlag) + []
          == lower + WingetSuffix(lower) + ChocoSuffix(lower);
    }
  }

  lemma WingetFlagsPresent(lower: string)
    requires WingetInstall(lower)
    ensures var lower2 := lower + WingetSuffix(lower) + ChocoSuffix(lower);
      Contains(lower2, SourceFlag) && Contains(lower2, PackageFlag) && Contains(lower2, InteractivityFlag)
  {
    var f1 := FlagIfAbsent(lower, SourceFlag);
    var f2 := FlagIfAbsent(lower, PackageFlag);
    var f3 := FlagIfAbsent(lower, InteractivityFlag);
    var c := ChocoSuffix(lower);
    assert WingetSuffix(lower) == f1 + f2 + f3;
    Regroup(lower, f1, f2, f3, c);
    FlagPresent(lower, [], SourceFlag, f2 + f3 + c);
    FlagPresent(lower, f1, PackageFlag, f3 + c);
    FlagPresent(lower, f1 + f2, InteractivityFlag, c);
  }

  /** The groupings of `a + (b + c + d) + e` that single out each of `b`, `c` and `d`. */
  lemma Regroup(a: string, b: string, c: string, d: string, e: string)
    ensures a + (b + c + d) + e == a + [] + b + (c + d + e)
    ensures a + (b + c + d) + e == a + b + c + (d + e)
    ensures a + (b + c + d) + e == a + (b + c) + d + e
  {
  }

  /** Applied to its own output, the Windows rewrite finds nothing more to add. */
  lemma SuffixesSettled(lower: string)
    ensures var lower2 := lower + WingetSuffix(lower) + ChocoSuffix(lower);
      WingetSuffix(lower2) == "" && ChocoSuffix(lower2) == ""
  {
    var lower2 := lower + WingetSuffix(lower) + ChocoSuffix(lower);
    KeywordsStable(lower, "winget");
    KeywordsStable(lower, "install");
    KeywordsStable(lower, "upgrade");
    KeywordsStable(lower, "choco");
    assert WingetInstall(lower2) == WingetInstall(lower);
    assert ChocoInstall(lower2) == ChocoInstall(lower);
    FlagsPresent(lower);
  }

  /**
   * Once the Windows flags are on a winget or choco install, none is added again: every
   * append is guarded by an absence test, and the flags carry no keyword the tests look for.
   */
  lemma RewriteWindowsIdempotent(cmd: string)
    ensures RewriteWindows(RewriteWindows(cmd)) == RewriteWindows(cmd)
  {
    LowerRewrite(cmd);
    SuffixesSettled(ToLower(cmd));
  }

  /** A winget or choco install ends up carrying, in any letter case, every flag it needs. */
  lemma RewriteWindowsFlags(cmd: string)
    ensures WingetInstall(ToLower(cmd)) ==>
      Contains(ToLower(RewriteWindows(cmd)), SourceFlag)
      && Contains(ToLower(RewriteWindows(cmd)), PackageFlag)
      && Contains(ToLower(RewriteWindows(cmd)), InteractivityFlag)
    ensures ChocoInstall(ToLower(cmd)) ==> Contains(ToLower(RewriteWindows(cmd)), YesFlag)
  {
    LowerRewrite(cmd);
    FlagsPresent(ToLower(cmd));
  }

  /** A POSIX rewrite that changes the command leaves a "-y" in it. */
  lemma RewritePosixAddsYes(cmd: string)
    ensures RewritePosix(cmd) == cmd || Contains(RewritePosix(cmd), "-y")
  {
    if !Contains(cmd, "-y") {
      assert OccursAt("apt-get install -y", "-y", 16);
      assert OccursAt("apt install -y", "-y", 12);
      assert OccursAt("yum install -y", "-y", 12);
      assert OccursAt("dnf install -y", "-y", 12);
      if Contains(cmd, "apt-get install") {
        ReplaceFirstContainsPart(cmd, "apt-get install", "apt-get install -y", "-y");
      }
      if Contains(cmd, "apt install") {
        ReplaceFirstContainsPart(cmd, "apt install", "apt install -y", "-y");
      }
      var afterAptGet :=
        if Contains(cmd, "apt-get install") then ReplaceFirst(cmd, "apt-get install", "apt-get install -y") else cmd;
      var afterApt :=
        if Contains(cmd, "apt install") then ReplaceFirst(cmd, "apt install", "apt install -y") else afterAptGet;
      assert afterApt == cmd || Contains(afterApt, "-y");
      if Contains(cmd, "yum install") || Contains(cmd, "dnf install") {
        var x := ReplaceFirst(afterApt, "yum install", "yum install -y");
        if Contains(afterApt, "yum install") {
          ReplaceFirstContainsPart(afterApt, "yum install", "yum install -y", "-y");
        }
        if Contains(x, "dnf install") {
          ReplaceFirstContainsPart(x, "dnf install", "dnf install -y", "-y");
        }
        assert RewritePosix(cmd) == ReplaceFirst(x, "dnf install", "dnf install -y");
      } else {
        assert RewritePosix(cmd) == afterApt;
      }
    }
  }

  /** A yum or dnf install on its own gets " -y" after its first occurrence. */
  lemma RewritePosixYumDnf(cmd: string)
    ensures !Contains(cmd, "-y") && Contains(cmd, "yum install") && !Contains(cmd, "dnf install")
         && !Contains(cmd, "apt-get install") && !Contains(cmd, "apt install")
        ==> RewritePosix(cmd) == ReplaceFirst(cmd, "yum install", "yum install -y")
    ensures !Contains(cmd, "-y") && Contains(cmd, "dnf install") && !Contains(cmd, "yum install")
         && !Contains(cmd, "apt-get install") && !Contains(cmd, "apt install")
        ==> RewritePosix(cmd) == ReplaceFirst(cmd, "dnf install", "dnf install -y")
  {
    if !Contains(cmd, "-y") && Contains(cmd, "yum install") && !Contains(cmd, "dnf install") {
      YumKeepsDnfAbsent(cmd);
    }
  }

  /** Inserting " -y" after "yum install" never creates a "dnf install". */
  lemma YumKeepsDnfAbsent(cmd: string)
    requires Contains(cmd, "yum install") && !Contains(cmd, "dnf install")
    ensures !Contains(ReplaceFirst(cmd, "yum install", "yum install -y"), "dnf install")
  {
    var sub := "dnf install";
    var i := IndexOf(cmd, "yum install").value;
    var p, y := cmd[..i] + "yum install", cmd[i + 11..];
    assert cmd == p + y;
    if Contains(p, sub) {
      ContainsPrefix(p, y, sub);
    }
    if Contains(y, sub) {
      ContainsSuffix(p, y, sub);
    }
    AbsentAppendChar(p, ' ', sub);
    AbsentPrependChar('y', y, sub);
    DnfInstallDashFree();
    AbsentAcross(p + [' '], '-', ['y'] + y, sub);
    assert ReplaceFirst(cmd, "yum install", "yum install -y") == cmd[..i] + "yum install -y" + y;
    YumShape(cmd[..i], y);
  }

  lemma YumShape(x: string, y: string)
    ensures x + "yum install -y" + y == (x + "yum install" + [' ']) + ['-'] + (['y'] + y)
  {
    assert "yum install -y" == "yum install" + [' '] + ['-'] + ['y'];
  }

  lemma DnfInstallDashFree()
    ensures forall k :: 0 <= k < |"dnf install"| ==> "dnf install"[k] != '-'
  {
  }

  /** A character that cannot end `sub` does not complete an occurrence of it. */
  lemma AbsentAppendChar(p: string, c: char, sub: string)
    requires !Contains(p, sub) && |sub| > 0 && sub[|sub| - 1] != c
    ensures !Contains(p + [c], sub)
  {
    if Contains(p + [c], sub) {
      var k :| 0 <= k <= |p| + 1 - |sub| && OccursAt(p + [c], sub, k);
      if k + |sub| < |p| + 1 {
        assert (p + [c])[k..k + |sub|] == p[k..k + |sub|];
        assert OccursAt(p, sub, k);
      }
    }
  }

  /** A character that cannot start `sub` does not begin an occurrence of it. */
  lemma AbsentPrependChar(c: char, y: string, sub: string)
    requires !Contains(y, sub) && |sub| > 0 && sub[0] != c
    ensures !Contains([c] + y, sub)
  {
    if Contains([c] + y, sub) {
      var k :| 0 <= k <= |y| + 1 - |sub| && OccursAt([c] + y, sub, k);
      if k > 0 {
        assert ([c] + y)[k..k + |sub|] == y[k - 1..k - 1 + |sub|];
        assert OccursAt(y, sub, k - 1);
      }
    }
  }

  /**
   * Every command the POSIX rewrite applies to (no "-y", some install keyword) comes out
   * longer and carrying "-y", whatever mix of package managers it names.
   */
  lemma RewritePosixInserts(cmd: string)
    ensures !Contains(cmd, "-y")
         && (Contains(cmd, "apt-get install") || Contains(cmd, "apt install")
             || Contains(cmd, "yum install") || Contains(cmd, "dnf install"))
        ==> |RewritePosix(cmd)| > |cmd| && Contains(RewritePosix(cmd), "-y")
  {
    RewritePosixAddsYes(cmd);
  }

  /** Rewriting an already rewritten POSIX command changes nothing. */
  lemma RewritePosixIdempotent(cmd: string)
    ensures RewritePosix(RewritePosix(cmd)) == RewritePosix(cmd)
  {
    RewritePosixAddsYes(cmd);
  }

  // ---------------------------------------------------------------------------
  // The server

  datatype Credentials = Credentials(username: string, password: string)

  const DefaultCredentials := Credentials("admin", "admin")

  /** The password callback: the pair it compares against is fixed when `Start` builds it. */
  function CheckPassword(expected: Credentials, user: string, pass: string): (r: Result<(), string>)
    ensures r.Ok? <==> user == expected.username && pass == expected.password
    ensures r.Err? ==> r.error == "password rejected"
  {
    if user == expected.username && pass == expected.password then Ok(()) else Err("password rejected")
  }

  class SSHServer {
    const port: int
    var running: bool
    /** Whether the `quit` channel has been closed; closing it twice panics. */
    var quitClosed: bool
    var hasListener: bool
    var credentials: Credentials
    /** The credentials captured by the password callback of the last `Start` that built one. */
    var authConfig: Option<Credentials>

    /** `NewSSHServer`: port 0 means 2222; the credentials start as admin/admin. */
    constructor(port: int)
      ensures this.port == (if port == 0 then DefaultSSHPort else port)
      ensures !running && !quitClosed && !hasListener
      ensures credentials == DefaultCredentials && authConfig == None
    {
      this.port := if port == 0 then DefaultSSHPort else port;
      running := false;
      quitClosed := false;
      hasListener := false;
      credentials := DefaultCredentials;
      authConfig := None;
    }

    predicate IsRunning()
      reads this
    {
      running
    }

    /** Only the non-empty arguments overwrite the stored credentials; a running server keeps authenticating as before. */
    method SetCredentials(username: string, password: string)
      modifies this
      ensures credentials.username == if username != "" then username else old(credentials.username)
      ensures credentials.password == if password != "" then password else old(credentials.password)
      ensures running == old(running) && quitClosed == old(quitClosed) && hasListener == old(hasListener)
      ensures authConfig == old(authConfig)
    {
      if username != "" {
        credentials := credentials.(username := username);
      }
      if password != "" {
        credentials := credentials.(password := password);
      }
    }

    method GetCredentials() returns (c: Credentials)
      ensures c == credentials
    {
      c := credentials;
    }

    /**
     * `Start(password)`. `hostKeyErr` and `listenErr` stand for the failures of loading the
     * host key and of listening. A non-empty password is stored before either can fail, and
     * `running` is set only when both succeed.
     */
    method Start(password: string, hostKeyErr: Option<string>, listenErr: Option<string>) returns (err: Option<string>)
      modifies this
      ensures old(running) ==>
        (err == Some("SSH server already running")
         && running && credentials == old(credentials) && authConfig == old(authConfig)
         && hasListener == old(hasListener))
      ensures !old(running) ==>
        credentials == (if password != "" then old(credentials).(password := password) else old(credentials))
      ensures !old(running) && hostKeyErr.Some? ==>
        (err == Some("failed to get host key: " + hostKeyErr.value) && !running
         && authConfig == old(authConfig) && hasListener == old(hasListener))
      ensures !old(running) && hostKeyErr.None? ==> authConfig == Some(credentials)
      ensures !old(running) && hostKeyErr.None? && listenErr.Some? ==>
        (err == Some("failed to start SSH server: " + listenErr.value) && !running
         && hasListener == old(hasListener))
      ensures !old(running) && hostKeyErr.None? && listenErr.None? ==> err == None && running && hasListener
      ensures quitClosed == old(quitClosed)
    {
      if running {
        return Some("SSH server already running");
      }
      if password != "" {
        credentials := credentials.(password := password);
      }
      if hostKeyErr.Some? {
        return Some("failed to get host key: " + hostKeyErr.value);
      }
      authConfig := Some(credentials);
      if listenErr.Some? {
        return Some("failed to start SSH server: " + listenErr.value);
      }
      hasListener := true;
      running := true;
      err := None;
    }

    /**
     * `Stop`: nothing to do when not running; otherwise clears `running`, closes `quit` and
     * returns the result of closing the listener. The caller must not stop a server whose
     * `quit` is already closed (a restarted server), as Go panics on the second close.
     */
    method Stop(closeErr: Option<string>) returns (err: Option<string>)
      requires running ==> !quitClosed
      modifies this
      ensures !old(running) ==> err == None && quitClosed == old(quitClosed)
      ensures old(running) ==> quitClosed && err == (if hasListener then closeErr else None)
      ensures !running
      ensures credentials == old(credentials) && authConfig == old(authConfig) && hasListener == old(hasListener)
    {
      if !running {
        return None;
      }
      running := false;
      quitClosed := true;
      if hasListener {
        return closeErr;
      }
      err := None;
    }

    /**
     * `handleConnection` for a client logging in as `user`/`pass` and opening `channels`:
     * a rejected password ends the handshake before any channel; otherwise every channel
     * meets its fate in order.
     */
    method HandleConnection(user: string, pass: string, channels: seq<ChannelOpen>) returns (fates: seq<ChannelFate>)
      requires authConfig.Some?
      ensures CheckPassword(authConfig.value, user, pass).Err? ==> fates == []
      ensures CheckPassword(authConfig.value, user, pass).Ok? ==>
        |fates| == |channels| && forall k :: 0 <= k < |channels| ==> fates[k] == FateOf(channels[k])
    {
      fates := [];
      if CheckPassword(authConfig.value, user, pass).Err? {
        return;
      }
      for i := 0 to |channels|
        invariant |fates| == i
        invariant forall k :: 0 <= k < i ==> fates[k] == FateOf(channels[k])
      {
        var ch := channels[i];
        if ch.channelType != "session" {
          fates := fates + [Rejected(UnknownChannelType, "unknown channel type")];
        } else if !ch.acceptOk {
          fates := fates + [AcceptFailed];
        } else {
          var replies, action := HandleChannel(ch.requests);
          fates := fates + [Served(ChannelOutcome(replies, action))];
        }
      }
    }
  }

  // ---------------------------------------------------------------------------
  // The admin-side client

  class SSHClient {
    /** The `*ssh.Client`, nil until a dial succeeds. */
    var client: Option<nat>

    constructor()
      ensures client == None
    {
      client := None;
    }

    predicate IsConnected()
      reads this
    {
      client.Some?
    }

    /** `Connect`: `dial` is the outcome of `ssh.Dial`; only a success replaces the client. */
    method Connect(host: string, port: int, user: string, password: string, dial: Result<nat, string>)
      returns (err: Option<string>)
      modifies this
      ensures dial.Err? ==> err == Some("failed to connect: " + dial.error) && client == old(client)
      ensures dial.Ok? ==> err == None && client == Some(dial.value)
    {
      if dial.Err? {
        return Some("failed to connect: " + dial.error);
      }
      client := Some(dial.value);
      err := None;
    }

    /**
     * `ExecuteCommand`: `sessionErr` is the failure of opening a session, `output` and `runErr`
     * the combined output and failure of running the command.
     */
    method ExecuteCommand(cmd: string, sessionErr: Option<string>, output: string, runErr: Option<string>)
      returns (out: string, err: Option<string>)
      ensures client.None? ==> out == "" && err == Some("not connected")
      ensures client.Some? && sessionErr.Some? ==>
        out == "" && err == Some("failed to create session: " + sessionErr.value)
      ensures client.Some? && sessionErr.None? ==>
        out == output && err == (if runErr.Some? then Some("command failed: " + runErr.value) else None)
    {
      if client.None? {
        return "", Some("not connected");
      }
      if sessionErr.Some? {
        return "", Some("failed to create session: " + sessionErr.value);
      }
      if runErr.Some? {
        return output, Some("command failed: " + runErr.value);
      }
      return output, None;
    }

    /**
     * `ExecuteCommandWithInput`: `setup` is either the already formatted failure of one of the
     * session, pipe or start steps, or the collected output of the command.
     */
    method ExecuteCommandWithInput(cmd: string, input: string, setup: Result<string, string>)
      returns (out: string, err: Option<string>)
      ensures client.None? ==> out == "" && err == Some("not connected")
      ensures client.Some? && setup.Err? ==> out == "" && err == Some(setup.error)
      ensures client.Some? && setup.Ok? ==> out == setup.value && err == None
    {
      if client.None? {
        return "", Some("not connected");
      }
      match setup
      case Err(e) => return "", Some(e);
      case Ok(o) => return o, None;
    }

    /** `Close` closes a present client but keeps the reference, so `IsConnected` stays true. */
    method Close(closeErr: Option<string>) returns (err: Option<string>)
      ensures err == (if client.Some? then closeErr else None)
    {
      if client.Some? {
        return closeErr;
      }
      return None;
    }
  }
}
