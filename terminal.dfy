/**
 * The data kept by the SSH terminal of the admin UI (internal/ui/ssh_terminal.go): the
 * bounded output buffer, the command history and the built-in commands of one terminal,
 * the session numbering of its tabs, and the right-padding helper. Rendering is not modelled.
 */
module Terminal {
  import opened Strs
  import Seqs

  // ---------------------------------------------------------------------------
  // The bounded output buffer

  /** The buffer after an append that overflowed: only the last `max` lines are kept. */
  function Bounded(lines: seq<string>, max: nat): seq<string>
  {
    if |lines| > max then lines[|lines| - max..] else lines
  }

  /** Cutting before or after another append gives the same buffer. */
  lemma BoundedAppend(lines: seq<string>, line: string, max: nat)
    requires max > 0
    ensures Bounded(Bounded(lines, max) + [line], max) == Bounded(lines + [line], max)
  {
    var b := Bounded(lines, max);
    var all := lines + [line];
    assert b + [line] == all[|all| - |b| - 1..];
    assert Bounded(b + [line], max) == all[|all| - |Bounded(b + [line], max)|..];
  }

  /** Appending several lines one by one is one append of all of them. */
  lemma {:induction false} BoundedAppendAll(lines: seq<string>, more: seq<string>, max: nat)
    requires max > 0
    ensures Bounded(Bounded(lines, max) + more, max) == Bounded(lines + more, max)
    decreases |more|
  {
    if more != [] {
      var init := more[..|more| - 1];
      var last := more[|more| - 1];
      BoundedAppendAll(lines, init, max);
      assert Bounded(lines, max) + more == Bounded(lines, max) + init + [last];
      assert lines + more == lines + init + [last];
      BoundedAppend(Bounded(lines, max) + init, last, max);
      BoundedAppend(lines + init, last, max);
    } else {
      assert Bounded(lines, max) + more == Bounded(lines, max);
      assert lines + more == lines;
    }
  }

  lemma TakeOneMore(start: seq<string>, lines: seq<string>, i: nat)
    requires i < |lines|
    ensures start + lines[..i] + [lines[i]] == start + lines[..i + 1]
  {
    assert lines[..i + 1] == lines[..i] + [lines[i]];
  }

  /** After an append the buffer ends with the new line and holds at most `max` lines. */
  lemma AppendKeepsLast(lines: seq<string>, line: string, max: nat)
    requires max > 0
    ensures var r := Bounded(lines + [line], max);
      0 < |r| <= max && r[|r| - 1] == line
  {
  }

  // ---------------------------------------------------------------------------
  // Built-in commands

  datatype Builtin = Clear | Exit | Help | Remote

  /** Built-ins are recognised on the trimmed, lower-cased command. */
  function BuiltinOf(cmd: string): Builtin
  {
    var key := ToLower(TrimSpace(cmd));
    if key == "clear" || key == "cls" then Clear
    else if key == "exit" || key == "quit" then Exit
    else if key == "help" then Help
    else Remote
  }

  function HelpLines(): seq<string>
  {
    [ "Available commands:",
      "  clear/cls  - Clear terminal",
      "  exit/quit  - Close session",
      "  help       - Show this help",
      "  Any other command will be executed on the remote system",
      "" ]
  }

  function Prompt(hostname: string, cmd: string): string
  {
    "[" + hostname + "] $ " + cmd
  }

  /** The remote output shown for a command: its lines, none when the output is empty. */
  function ResultLines(hasCommand: bool, result: string): seq<string>
  {
    if hasCommand && result != "" then Split(result, '\n') else []
  }

  /** The lines a command other than clear/cls appends, after its prompt. */
  function Reply(kind: Builtin, hasCommand: bool, result: string): (r: seq<string>)
    requires kind != Clear
    ensures kind == Help ==> |r| == 6
    ensures kind == Remote ==> |r| >= 1 && r[|r| - 1] == ""
  {
    match kind
    case Exit => ["Session closed."]
    case Help => HelpLines()
    case Remote => ResultLines(hasCommand, result) + [""]
  }

  /** The remote output appears in full, between the prompt and the closing empty line. */
  lemma RemoteOutputShown(result: string)
    requires result != ""
    ensures var r := Reply(Remote, true, result);
      Join(r[..|r| - 1], '\n') == result
  {
    var r := Reply(Remote, true, result);
    assert r[..|r| - 1] == Split(result, '\n');
    JoinSplit(result, '\n');
  }

  // ---------------------------------------------------------------------------
  // One terminal

  class SSHTerminal {
    var history: seq<string>
    var historyIndex: int
    var outputLines: seq<string>
    const maxLines: nat
    var currentDir: string
    const hostname: string
    var connected: bool
    /** Whether an `onCommand` callback was supplied. */
    const hasCommand: bool

    /** The welcome lines; `startedAt` stands for the formatted start time. */
    static function Welcome(hostname: string, startedAt: string): seq<string>
    {
      [ "Connected to " + hostname,
        "SSH session started at " + startedAt,
        "Type 'help' for available commands, 'exit' to close",
        "" ]
    }

    /** `NewSSHTerminal`: empty history at index -1, a 500-line buffer holding the four welcome lines. */
    constructor(hostname: string, startedAt: string, hasCommand: bool)
      ensures history == [] && historyIndex == -1
      ensures maxLines == 500 && currentDir == "~" && connected
      ensures this.hostname == hostname && this.hasCommand == hasCommand
      ensures outputLines == Welcome(hostname, startedAt) && |outputLines| == 4
    {
      history := [];
      historyIndex := -1;
      outputLines := [];
      maxLines := 500;
      currentDir := "~";
      this.hostname := hostname;
      connected := true;
      this.hasCommand := hasCommand;
      new;
      AppendOutput("Connected to " + hostname);
      AppendOutput("SSH session started at " + startedAt);
      AppendOutput("Type 'help' for available commands, 'exit' to close");
      AppendOutput("");
    }

    /** `appendOutput`: add the line, then keep only the last `maxLines` lines. */
    method AppendOutput(line: string)
      modifies this`outputLines
      ensures outputLines == Bounded(old(outputLines) + [line], maxLines)
    {
      outputLines := outputLines + [line];
      if |outputLines| > maxLines {
        outputLines := outputLines[|outputLines| - maxLines..];
      }
    }

    /**
     * `executeCommand`: `result` stands for what the `onCommand` callback returns. An empty
     * command changes nothing. Any other command is recorded in the history and echoed;
     * clear/cls then empties the buffer, exit/quit closes the session, help lists the
     * built-ins, and anything else shows the remote output followed by an empty line.
     */
    method ExecuteCommand(cmd: string, result: string)
      requires maxLines > 0
      modifies this
      ensures cmd == "" ==>
        history == old(history) && historyIndex == old(historyIndex)
        && outputLines == old(outputLines) && connected == old(connected)
      ensures cmd != "" ==> history == old(history) + [cmd] && historyIndex == |history|
      ensures cmd != "" && BuiltinOf(cmd) == Clear ==> outputLines == [] && connected == old(connected)
      ensures cmd != "" && BuiltinOf(cmd) != Clear ==>
        outputLines == Bounded(old(outputLines) + [Prompt(hostname, cmd)] + Reply(BuiltinOf(cmd), hasCommand, result), maxLines)
      ensures cmd != "" && BuiltinOf(cmd) == Exit ==> !connected
      ensures BuiltinOf(cmd) != Exit ==> connected == old(connected)
      ensures currentDir == old(currentDir)
    {
      if cmd == "" {
        return;
      }
      history := history + [cmd];
      historyIndex := |history|;
      AppendOutput(Prompt(hostname, cmd));
      var kind := BuiltinOf(cmd);
      RunBuiltin(kind, result);
      if kind != Clear {
        BoundedAppendAll(old(outputLines) + [Prompt(hostname, cmd)], Reply(kind, hasCommand, result), maxLines);
      }
    }

    /** The `switch` on the built-in commands, after the prompt has been echoed. */
    method RunBuiltin(kind: Builtin, result: string)
      requires 0 < maxLines && |outputLines| <= maxLines
      modifies this`outputLines, this`connected
      ensures kind == Clear ==> outputLines == [] && connected == old(connected)
      ensures kind != Clear ==> outputLines == Bounded(old(outputLines) + Reply(kind, hasCommand, result), maxLines)
      ensures kind == Exit ==> !connected
      ensures kind != Exit ==> connected == old(connected)
    {
      match kind
      case Clear =>
        outputLines := [];
      case Exit =>
        assert Reply(kind, hasCommand, result) == ["Session closed."];
        AppendOutput("Session closed.");
        connected := false;
      case Help =>
        assert Reply(kind, hasCommand, result) == HelpLines();
        AppendLines(HelpLines());
      case Remote =>
        assert Reply(kind, hasCommand, result) == ResultLines(hasCommand, result) + [""];
        ShowResult(result);
    }

    /** The remote output of a command that is not a built-in, then an empty line. */
    method ShowResult(result: string)
      requires 0 < maxLines && |outputLines| <= maxLines
      modifies this`outputLines
      ensures outputLines == Bounded(old(outputLines) + (ResultLines(hasCommand, result) + [""]), maxLines)
    {
      ghost var start := outputLines;
      if hasCommand && result != "" {
        AppendLines(Split(result, '\n'));
      } else {
        assert start + ResultLines(hasCommand, result) == start;
      }
      AppendOutput("");
      BoundedAppendAll(start + ResultLines(hasCommand, result), [""], maxLines);
      Seqs.AppendAssoc(start, ResultLines(hasCommand, result), [""]);
    }

    /** The loop over the lines of the remote output, each appended in turn. */
    method AppendLines(lines: seq<string>)
      requires 0 < maxLines && |outputLines| <= maxLines
      modifies this`outputLines
      ensures outputLines == Bounded(old(outputLines) + lines, maxLines)
    {
      ghost var start := outputLines;
      assert outputLines == Bounded(start + lines[..0], maxLines) by {
        assert start + lines[..0] == start;
      }
      for i := 0 to |lines|
        invariant outputLines == Bounded(start + lines[..i], maxLines)
      {
        AppendOutput(lines[i]);
        BoundedAppend(start + lines[..i], lines[i], maxLines);
        TakeOneMore(start, lines, i);
      }
      assert lines[..|lines|] == lines;
    }
  }

  /** `padRight` on byte strings: cut to `length`, or filled with spaces up to it. */
  function PadRight(s: string, length: nat): (r: string)
    ensures |r| == length
    ensures |s| >= length ==> r == s[..length]
    ensures |s| < length ==> r[..|s|] == s && forall k :: |s| <= k < length ==> r[k] == ' '
  {
    if |s| >= length then s[..length] else s + Repeat(' ', length - |s|)
  }

  // ---------------------------------------------------------------------------
  // The tabbed window

  datatype SSHTab = SSHTab(id: string, hostname: string, ip: string)

  /** The tabs already open for the worker `id`: those whose key starts with `id + "-"`. */
  function SessionsOf(tabs: map<string, SSHTab>, id: string): set<string>
  {
    set k | k in tabs.Keys && HasPrefix(k, id + "-")
  }

  /** The number of a new session for `id`. */
  function SessionNumber(tabs: map<string, SSHTab>, id: string): (n: nat)
    ensures n >= 1
    ensures n == 1 <==> forall k :: k in tabs.Keys ==> !HasPrefix(k, id + "-")
  {
    var sessions := SessionsOf(tabs, id);
    assert forall k :: k in tabs.Keys && HasPrefix(k, id + "-") ==> k in sessions;
    1 + |sessions|
  }

  /** The tab title: the host name, with the session number when there is more than one. */
  function DisplayName(hostname: string, sessionNum: nat): string
  {
    if sessionNum > 1 then hostname + " (" + NatToString(sessionNum) + ")" else hostname
  }

  /** The key of a new tab for `id`; `nanos` stands for the clock reading. */
  function TabID(id: string, nanos: int): (r: string)
    ensures HasPrefix(r, id + "-")
  {
    id + "-" + IntToString(nanos)
  }

  /** A second tab for the same worker, under a new key, is numbered one higher. */
  lemma SessionNumberGrows(tabs: map<string, SSHTab>, id: string, nanos: int, tab: SSHTab)
    requires TabID(id, nanos) !in tabs
    ensures SessionNumber(tabs[TabID(id, nanos) := tab], id) == SessionNumber(tabs, id) + 1
  {
    var key := TabID(id, nanos);
    assert SessionsOf(tabs[key := tab], id) == SessionsOf(tabs, id) + {key};
  }

  /** Tabs of another worker whose key does not start with `id + "-"` leave the numbering alone. */
  lemma SessionNumberOtherWorker(tabs: map<string, SSHTab>, id: string, key: string, tab: SSHTab)
    requires !HasPrefix(key, id + "-")
    ensures SessionNumber(tabs[key := tab], id) == SessionNumber(tabs, id)
  {
    assert SessionsOf(tabs[key := tab], id) == SessionsOf(tabs, id);
  }

  /** Moving `x` from the unvisited to the visited keys counts it once when it is a session. */
  lemma CountStep(sessions: set<string>, remaining: set<string>, x: string)
    requires x in remaining
    ensures x in sessions ==> |sessions - (remaining - {x})| == |sessions - remaining| + 1
    ensures x !in sessions ==> sessions - (remaining - {x}) == sessions - remaining
  {
    if x in sessions {
      assert sessions - (remaining - {x}) == (sessions - remaining) + {x};
    }
  }

  class SSHTerminalWindow {
    var tabs: map<string, SSHTab>
    var windowOpen: bool

    constructor()
      ensures tabs == map[] && windowOpen
    {
      tabs := map[];
      windowOpen := true;
    }

    predicate HasTab(id: string)
      reads this
    {
      id in tabs
    }

    /** The loop of `AddTab` that numbers a new session: one more than the open sessions of `id`. */
    method CountSessions(id: string) returns (sessionNum: nat)
      ensures sessionNum == SessionNumber(tabs, id)
    {
      sessionNum := 1;
      var remaining := tabs.Keys;
      while remaining != {}
        invariant remaining <= tabs.Keys
        invariant sessionNum == 1 + |SessionsOf(tabs, id) - remaining|
        decreases |remaining|
      {
        var existingID :| existingID in remaining;
        CountStep(SessionsOf(tabs, id), remaining, existingID);
        if HasPrefix(existingID, id + "-") {
          sessionNum := sessionNum + 1;
        }
        remaining := remaining - {existingID};
      }
      assert SessionsOf(tabs, id) - remaining == SessionsOf(tabs, id);
    }

    /** `AddTab`: number the session, then store the new tab under a fresh key. */
    method AddTab(id: string, hostname: string, ip: string, nanos: int)
      modifies this`tabs
      ensures var key := TabID(id, nanos);
        tabs == old(tabs)[key := SSHTab(key, DisplayName(hostname, SessionNumber(old(tabs), id)), ip)]
    {
      var tabID := id + "-" + IntToString(nanos);
      var sessionNum := CountSessions(id);
      var displayName := hostname;
      if sessionNum > 1 {
        displayName := hostname + " (" + NatToString(sessionNum) + ")";
      }
      tabs := tabs[tabID := SSHTab(tabID, displayName, ip)];
    }

    /** `RemoveTab`: an unknown id changes nothing; removing the last tab closes the window. */
    method RemoveTab(id: string)
      modifies this
      ensures id !in old(tabs) ==> tabs == old(tabs) && windowOpen == old(windowOpen)
      ensures id in old(tabs) ==> tabs == old(tabs) - {id}
      ensures id in old(tabs) ==> (windowOpen <==> old(windowOpen) && |tabs| > 0)
    {
      if id !in tabs {
        return;
      }
      tabs := tabs - {id};
      if |tabs| == 0 {
        windowOpen := false;
      }
    }
  }
}
