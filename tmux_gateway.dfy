/**
 * The gateway object: every operation issues its commands to the host in turn,
 * appends them to the trace, and is proved to produce exactly the result and
 * the trace its run function in `TmuxProtocol` describes.
 */
module TmuxGateway {
  import opened Wrappers
  import opened JsText
  import opened Types
  import opened TmuxProtocol

  class TmuxManager {
    const config: OrchestratorConfig
    /** The multiplexer the commands go to. */
    const host: Host
    /** Every command issued and every timer awaited, in order. */
    var trace: seq<Event>

    constructor(overrides: ConfigOverrides, host: Host)
      ensures config == MergeConfig(overrides) && this.host == host && trace == []
    {
      config := MergeConfig(overrides);
      this.host := host;
      trace := [];
    }

    /** Issues one command and waits for its reply. */
    method Run(c: Cmd) returns (reply: Reply)
      modifies this
      ensures reply == host(old(trace), c) && trace == old(trace) + [Exec(c)]
    {
      reply := host(trace, c);
      trace := trace + [Exec(c)];
    }

    /** Awaits a timer of `ms` milliseconds. */
    method Wait(ms: int)
      modifies this
      ensures trace == old(trace) + [Sleep(ms)]
    {
      trace := trace + [Sleep(ms)];
    }

    method GetSessions() returns (sessions: seq<TmuxSession>)
      modifies this
      ensures (sessions, trace) == SessionsRun(host, old(trace))
    {
      var reply := Run(ListSessions);
      sessions := [];
      if reply.Fail? {
        return;
      }
      var lines := OutputLines(reply.stdout);
      ghost var t1 := trace;
      var i := 0;
      while i < |lines|
        invariant 0 <= i <= |lines|
        invariant (sessions, trace) == SessionsFrom(host, t1, lines[..i])
      {
        var line := lines[i];
        SessionsFromStep(host, t1, lines, i);
        if line != "" {
          var session := ReadSession(line);
          sessions := sessions + [session];
        }
        i := i + 1;
      }
      assert lines[..|lines|] == lines;
    }

    /** The body of the loop of `getSessions` for one non-empty line: the session it names, with its windows. */
    method ReadSession(line: string) returns (session: TmuxSession)
      modifies this
      ensures var (windows, t) := WindowsRun(host, old(trace), SessionName(line));
        session == TmuxSession(SessionName(line), windows, SessionAttached(line)) && trace == t
    {
      var name := SessionName(line);
      var windows := GetSessionWindows(name);
      session := TmuxSession(name, windows, SessionAttached(line));
    }

    method GetSessionWindows(session: string) returns (windows: seq<TmuxWindow>)
      modifies this
      ensures (windows, trace) == WindowsRun(host, old(trace), session)
    {
      var reply := Run(ListWindows(session));
      windows := [];
      if reply.Fail? {
        return;
      }
      windows := ParseWindowLines(session, OutputLines(reply.stdout));
    }

    /** `captureWindowContent`; `numLines` is 50 unless the caller says otherwise. */
    method CaptureWindowContent(session: string, index: Number, numLines: int := DefaultCaptureLines) returns (content: string)
      modifies this
      ensures (content, trace) == CaptureRun(host, old(trace), session, index, numLines, config.max_lines_capture)
    {
      var lines := CaptureLineCount(numLines, config.max_lines_capture);
      var reply := Run(CapturePane(Target(session, index), lines));
      match reply
      case Ok(out) => content := out;
      case Fail(e) => content := CaptureErrorPrefix + e;
    }

    method GetWindowInfo(session: string, index: Number) returns (info: TmuxWindowInfo)
      modifies this
      ensures (info, trace) == WindowInfoRun(host, old(trace), session, index, config.max_lines_capture)
    {
      var reply := Run(DisplayMessage(Target(session, index)));
      match reply
      case Fail(e) =>
        info := EmptyInfo(InfoErrorPrefix + e);
      case Ok(out) =>
        if Trim(out) != "" {
          var f := Split(Trim(out), ':');
          var content := CaptureWindowContent(session, index);
          info := TmuxWindowInfo(f[0], Flag(Field(f, 1)), ParseInt(Field(f, 2)), Field(f, 3), Some(content), None);
        } else {
          info := EmptyInfo(NoInfoError);
        }
    }

    method SendMessage(options: MessageOptions) returns (ok: bool)
      modifies this
      ensures (ok, trace) == SendMessageRun(host, old(trace), options.target, options.message, options.delay.GetOr(DefaultMessageDelay))
    {
      var delay := options.delay.GetOr(DefaultMessageDelay);
      var reply := Run(Cmd.SendKeys(options.target, options.message));
      if reply.Fail? {
        return false;
      }
      Wait(delay);
      reply := Run(Cmd.SendKeys(options.target, EnterKey));
      ok := reply.Ok?;
    }

    method SendKeys(target: string, keys: string) returns (ok: bool)
      modifies this
      ensures (ok, trace) == CommandRun(host, old(trace), Cmd.SendKeys(target, keys))
    {
      var reply := Run(Cmd.SendKeys(target, keys));
      ok := reply.Ok?;
    }

    method CreateSession(session: string, startDirectory: Option<string>) returns (ok: bool)
      modifies this
      ensures (ok, trace) == CommandRun(host, old(trace), NewSession(session, DirOption(startDirectory)))
    {
      var reply := Run(NewSession(session, DirOption(startDirectory)));
      ok := reply.Ok?;
    }

    method CreateWindow(session: string, name: string, startDirectory: Option<string>) returns (index: Option<Number>)
      modifies this
      ensures (index, trace) == CreateWindowRun(host, old(trace), session, name, startDirectory)
    {
      var reply := Run(NewWindow(session, name, DirOption(startDirectory)));
      match reply
      case Ok(out) => index := Some(ParseInt(Some(Trim(out))));
      case Fail(_) => index := None;
    }

    method RenameWindow(session: string, index: Number, newName: string) returns (ok: bool)
      modifies this
      ensures (ok, trace) == CommandRun(host, old(trace), Cmd.RenameWindow(Target(session, index), newName))
    {
      var reply := Run(Cmd.RenameWindow(Target(session, index), newName));
      ok := reply.Ok?;
    }

    method KillSession(session: string) returns (ok: bool)
      modifies this
      ensures (ok, trace) == CommandRun(host, old(trace), Cmd.KillSession(session))
    {
      var reply := Run(Cmd.KillSession(session));
      ok := reply.Ok?;
    }

    method KillWindow(session: string, index: Number) returns (ok: bool)
      modifies this
      ensures (ok, trace) == CommandRun(host, old(trace), Cmd.KillWindow(Target(session, index)))
    {
      var reply := Run(Cmd.KillWindow(Target(session, index)));
      ok := reply.Ok?;
    }

    /** `getAllStatus`; `timestamp` is the clock reading taken after the sessions are listed. */
    method GetAllStatus(timestamp: string) returns (status: TmuxStatus)
      modifies this
      ensures (status, trace) == AllStatusRun(host, old(trace), timestamp, config.max_lines_capture)
    {
      var sessions := GetSessions();
      ghost var t1 := trace;
      var done := [];
      var i := 0;
      while i < |sessions|
        invariant 0 <= i <= |sessions|
        invariant (done, trace) == SessionStatuses(host, t1, sessions[..i], config.max_lines_capture)
      {
        SessionStatusesStep(host, t1, sessions, i, config.max_lines_capture);
        var entry := GetSessionStatus(sessions[i]);
        done := done + [entry];
        i := i + 1;
      }
      assert sessions[..|sessions|] == sessions;
      status := TmuxStatus(timestamp, done);
    }

    /** The inner loop of `getAllStatus`: the info of every window of one session. */
    method GetSessionStatus(s: TmuxSession) returns (status: SessionStatus)
      modifies this
      ensures (status, trace) == SessionStatusOf(host, old(trace), s, config.max_lines_capture)
    {
      ghost var t0 := trace;
      var windows := [];
      var j := 0;
      while j < |s.windows|
        invariant 0 <= j <= |s.windows|
        invariant (windows, trace) == WindowStatuses(host, t0, s.name, s.windows[..j], config.max_lines_capture)
      {
        WindowStatusesStep(host, t0, s.name, s.windows, j, config.max_lines_capture);
        var entry := GetWindowStatus(s.name, s.windows[j]);
        windows := windows + [entry];
        j := j + 1;
      }
      assert s.windows[..|s.windows|] == s.windows;
      status := SessionStatus(s.name, s.attached, windows);
    }

    /** The body of the inner loop of `getAllStatus`: one window's entry. */
    method GetWindowStatus(session: string, w: TmuxWindow) returns (status: WindowStatus)
      modifies this
      ensures (status, trace) == WindowStatusOf(host, old(trace), session, w, config.max_lines_capture)
    {
      var info := GetWindowInfo(session, w.window_index);
      status := WindowStatus(w.window_index, w.window_name, w.active, info);
    }

    /**
     * `findWindowsByName`; `None` stands for the rejected promise when a
     * window's name is `undefined`.
     */
    method FindWindowsByName(query: string) returns (matches: Option<seq<WindowRef>>)
      modifies this
      ensures matches == SessionMatches(SessionsRun(host, old(trace)).0, query)
      ensures trace == SessionsRun(host, old(trace)).1
    {
      var sessions := GetSessions();
      matches := MatchSessions(sessions, query);
    }

    /** `createMonitoringSnapshot`; `timestamp` is the clock reading of its `getAllStatus`. */
    method CreateMonitoringSnapshot(timestamp: string) returns (snapshot: string)
      modifies this
      ensures snapshot == SnapshotText(AllStatusRun(host, old(trace), timestamp, config.max_lines_capture).0)
      ensures trace == AllStatusRun(host, old(trace), timestamp, config.max_lines_capture).1
    {
      var status := GetAllStatus(timestamp);
      snapshot := RenderSnapshot(status);
    }
  }

  /** The loop of `getSessionWindows` over the output lines: one window per non-empty line. */
  method ParseWindowLines(session: string, lines: seq<string>) returns (windows: seq<TmuxWindow>)
    ensures windows == ParseWindows(session, lines)
  {
    windows := [];
    var i := 0;
    while i < |lines|
      invariant 0 <= i <= |lines|
      invariant windows == ParseWindows(session, lines[..i])
    {
      var line := lines[i];
      assert lines[..i + 1][..i] == lines[..i];
      if line != "" {
        windows := windows + [WindowEntry(session, line)];
      }
      i := i + 1;
    }
    assert lines[..|lines|] == lines;
  }

  /** The loops of `createMonitoringSnapshot` that render a status snapshot as text. */
  method RenderSnapshot(status: TmuxStatus) returns (snapshot: string)
    ensures snapshot == SnapshotText(status)
  {
    var blocks := "";
    var sessions := status.sessions;
    var i := 0;
    while i < |sessions|
      invariant 0 <= i <= |sessions|
      invariant blocks == SessionBlocks(sessions[..i])
    {
      SessionBlocksStep(sessions, i);
      var next := RenderSessionBlock(sessions[i]);
      blocks := blocks + next;
      i := i + 1;
    }
    assert sessions[..|sessions|] == sessions;
    snapshot := SnapshotHeading(status.timestamp) + blocks;
  }

  /** The outer loop of `findWindowsByName`, over the discovered sessions. */
  method MatchSessions(sessions: seq<TmuxSession>, query: string) returns (matches: Option<seq<WindowRef>>)
    ensures matches == SessionMatches(sessions, query)
  {
    var found := [];
    var i := 0;
    while i < |sessions|
      invariant 0 <= i <= |sessions|
      invariant SessionMatches(sessions[..i], query) == Some(found)
    {
      assert sessions[..i + 1][..i] == sessions[..i];
      var more := MatchWindows(sessions[i].name, sessions[i].windows, query);
      if more.None? {
        RejectionPersists(sessions, i + 1, query);
        return None;
      }
      found := found + more.value;
      i := i + 1;
    }
    assert sessions[..|sessions|] == sessions;
    matches := Some(found);
  }

  /** The inner loop of `findWindowsByName`, over one session's windows. */
  method MatchWindows(session: string, windows: seq<TmuxWindow>, query: string) returns (matches: Option<seq<WindowRef>>)
    ensures matches == WindowMatches(session, windows, query)
  {
    var found := [];
    var j := 0;
    while j < |windows|
      invariant 0 <= j <= |windows|
      invariant WindowMatches(session, windows[..j], query) == Some(found)
    {
      var w := windows[j];
      assert windows[..j + 1][..j] == windows[..j];
      if w.window_name.None? {
        WindowRejectionPersists(session, windows, j + 1, query);
        return None;
      }
      if NameMatches(w.window_name.value, query) {
        found := found + [WindowRef(session, w.window_index)];
      }
      j := j + 1;
    }
    assert windows[..|windows|] == windows;
    matches := Some(found);
  }

  /** The body of the session loop of `createMonitoringSnapshot`: one session's block. */
  method RenderSessionBlock(s: SessionStatus) returns (block: string)
    ensures block == SessionBlock(s)
  {
    var windows := "";
    var j := 0;
    while j < |s.windows|
      invariant 0 <= j <= |s.windows|
      invariant windows == WindowBlocks(s.windows[..j])
    {
      WindowBlocksStep(s.windows, j);
      var next := RenderWindowBlock(s.windows[j]);
      windows := windows + next;
      j := j + 1;
    }
    assert s.windows[..|s.windows|] == s.windows;
    block := SessionHeading(s) + windows;
  }

  /** The body of the window loop of `createMonitoringSnapshot`: one window's block. */
  method RenderWindowBlock(w: WindowStatus) returns (block: string)
    ensures block == WindowBlock(w)
  {
    var heading := "  Window " + NumberText(w.index) + ": " + NameText(w.name);
    if w.active {
      heading := heading + " (ACTIVE)";
    }
    heading := heading + "\n";
    assert heading == WindowHeading(w);
    var section := "";
    if Truthy(w.info.content) {
      var recent := LastLines(Split(w.info.content.value, '\n'), 10);
      var rows := RecentRows(recent);
      section := "    Recent output:\n" + rows;
    }
    assert section == RecentSection(w.info.content);
    block := heading + section + "\n";
  }

  /** The loop over the recent lines of one window: a row for each line whose `trim` is non-empty. */
  method RecentRows(recent: seq<string>) returns (rows: string)
    ensures rows == Rows(PrintedLines(recent))
  {
    rows := "";
    var k := 0;
    while k < |recent|
      invariant 0 <= k <= |recent|
      invariant rows == Rows(PrintedLines(recent[..k]))
    {
      RowsStep(recent, k);
      if Trim(recent[k]) != "" {
        rows := rows + RecentPrefix + recent[k] + "\n";
      }
      k := k + 1;
    }
    assert recent[..|recent|] == recent;
  }
}
