/**
 * The multiplexer control surface as values: the commands the gateway issues,
 * the host that answers them, the parsing of the host's colon-delimited,
 * line-oriented output into records, and, for every gateway operation, a
 * function giving its result and the events it adds to the trace.
 *
 * The host is an oracle: its reply to a command may depend on everything
 * issued before it (`Host = (seq<Event>, Cmd) -> Reply`), which covers both a
 * real multiplexer whose state the earlier commands changed and a test double.
 */
module TmuxProtocol {
  import opened Wrappers
  import opened JsText
  import opened Types

  /** One multiplexer command, at the level of its argument list. */
  datatype Cmd =
    | ListSessions                                  // list-sessions, fields: name:attached
    | ListWindows(session: string)                  // list-windows, fields: index:name:active:panes:layout
    | CapturePane(target: string, lines: int)       // capture-pane, starting `lines` lines back
    | DisplayMessage(target: string)                // display-message, fields: name:active:panes:layout
    | SendKeys(target: string, keys: string)
    | NewSession(name: string, startDirectory: Option<string>)
    | NewWindow(session: string, name: string, startDirectory: Option<string>)
    | RenameWindow(target: string, newName: string)
    | KillSession(name: string)
    | KillWindow(target: string)

  /** What the host answers: the command's standard output, or the text of the error it raised. */
  datatype Reply = Ok(stdout: string) | Fail(error: string)

  /** What the trace records: a command issued, or a timer awaited (in milliseconds). */
  datatype Event = Exec(cmd: Cmd) | Sleep(ms: int)

  type Host = (seq<Event>, Cmd) -> Reply

  /** The key name that submits what was typed. */
  const EnterKey := "Enter"

  const DefaultMaxLinesCapture := 1000
  const DefaultCaptureLines := 50
  const DefaultMessageDelay := 500

  // ---------------------------------------------------------------------------
  // Configuration
  // ---------------------------------------------------------------------------

  /** The constructor's configuration: the defaults, overridden by every member the caller passed. */
  function MergeConfig(o: ConfigOverrides): (c: OrchestratorConfig)
    ensures c.safety_mode == (o.safety_mode.None? || o.safety_mode.value)
    ensures c.max_lines_capture == if o.max_lines_capture.Some? then o.max_lines_capture.value else DefaultMaxLinesCapture
    ensures c.default_schedule_minutes == if o.default_schedule_minutes.Some? then o.default_schedule_minutes.value else 15
    ensures c.orchestrator_window == if o.orchestrator_window.Some? then o.orchestrator_window.value else "tmux-orc:0"
  {
    OrchestratorConfig(
      o.safety_mode.GetOr(true),
      o.max_lines_capture.GetOr(DefaultMaxLinesCapture),
      o.default_schedule_minutes.GetOr(15),
      o.orchestrator_window.GetOr("tmux-orc:0"))
  }

  // ---------------------------------------------------------------------------
  // Parsing the host's output
  // ---------------------------------------------------------------------------

  /** `stdout.trim().split('\n')`. */
  function OutputLines(stdout: string): seq<string> {
    Split(Trim(stdout), '\n')
  }

  /** Member `k` of a destructuring assignment: `undefined` past the end. */
  function Field(parts: seq<string>, k: nat): Option<string> {
    if k < |parts| then Some(parts[k]) else None
  }

  /** A `0/1` flag field compared with `=== '1'`. */
  predicate Flag(f: Option<string>) {
    f == Some("1")
  }

  /** The session name of a `list-sessions` line (its first field, always present). */
  function SessionName(line: string): string {
    Split(line, ':')[0]
  }

  function SessionAttached(line: string): bool {
    Flag(Field(Split(line, ':'), 1))
  }

  /** The record a `list-windows` line yields for the queried session. */
  function WindowEntry(session: string, line: string): TmuxWindow {
    var f := Split(line, ':');
    TmuxWindow(session, ParseInt(Some(f[0])), Field(f, 1), Flag(Field(f, 2)), ParseInt(Field(f, 3)), Field(f, 4))
  }

  /** The lines the parsing loops do not skip, in order. */
  function NonEmptyLines(lines: seq<string>): (r: seq<string>)
    ensures forall k :: 0 <= k < |r| ==> r[k] != ""
    decreases |lines|
  {
    if lines == [] then []
    else if lines[|lines| - 1] == "" then NonEmptyLines(lines[..|lines| - 1])
    else NonEmptyLines(lines[..|lines| - 1]) + [lines[|lines| - 1]]
  }

  /** The loop of `getSessionWindows` over the output lines. */
  function ParseWindows(session: string, lines: seq<string>): seq<TmuxWindow>
    decreases |lines|
  {
    if lines == [] then []
    else
      var line := lines[|lines| - 1];
      if line == "" then ParseWindows(session, lines[..|lines| - 1])
      else ParseWindows(session, lines[..|lines| - 1]) + [WindowEntry(session, line)]
  }

  /**
   * `getSessionWindows` yields one window per non-empty output line, in output
   * order, each tagged with the queried session.
   */
  lemma ParseWindowsLineByLine(session: string, lines: seq<string>)
    ensures |ParseWindows(session, lines)| == |NonEmptyLines(lines)|
    ensures forall k :: 0 <= k < |NonEmptyLines(lines)| ==>
      ParseWindows(session, lines)[k] == WindowEntry(session, NonEmptyLines(lines)[k])
    ensures forall w :: w in ParseWindows(session, lines) ==> w.session_name == session
  {
    ParseWindowsOnePerLine(session, lines);
    ParseWindowsTagsSession(session, lines);
  }

  /** The windows and the non-empty lines correspond one to one, in order. */
  lemma {:induction false} ParseWindowsOnePerLine(session: string, lines: seq<string>)
    ensures |ParseWindows(session, lines)| == |NonEmptyLines(lines)|
    ensures forall k :: 0 <= k < |NonEmptyLines(lines)| ==>
      ParseWindows(session, lines)[k] == WindowEntry(session, NonEmptyLines(lines)[k])
    decreases |lines|
  {
    if lines != [] {
      ParseWindowsOnePerLine(session, lines[..|lines| - 1]);
    }
  }

  /** Every parsed window is tagged with the queried session. */
  lemma {:induction false} ParseWindowsTagsSession(session: string, lines: seq<string>)
    ensures forall w :: w in ParseWindows(session, lines) ==> w.session_name == session
    decreases |lines|
  {
    if lines != [] {
      ParseWindowsTagsSession(session, lines[..|lines| - 1]);
    }
  }

  /** How tmux prints one window with the format `index:name:active:panes:layout`. */
  function WindowLine(index: nat, name: string, active: bool, panes: nat, layout: string): string {
    Join([NatToString(index), name, if active then "1" else "0", NatToString(panes), layout], ':')
  }

  /** Parsing a line tmux printed for a window whose name and layout have no colon gives back that window. */
  lemma WindowEntryOfWindowLine(session: string, index: nat, name: string, active: bool, panes: nat, layout: string)
    requires ':' !in name && ':' !in layout
    ensures WindowEntry(session, WindowLine(index, name, active, panes, layout))
         == TmuxWindow(session, Num(index), Some(name), active, Num(panes), Some(layout))
  {
    var parts := [NatToString(index), name, if active then "1" else "0", NatToString(panes), layout];
    IntToStringHasNo(index, ':');
    IntToStringHasNo(panes, ':');
    SplitOfJoin(parts, ':');
    ParseIntOfIntToString(index);
    ParseIntOfIntToString(panes);
  }

  /** How tmux prints one session with the format `name:attached`. */
  function SessionLine(name: string, attached: bool): string {
    Join([name, if attached then "1" else "0"], ':')
  }

  /** Parsing a line tmux printed for a session whose name has no colon gives back its name and flag. */
  lemma SessionEntryOfSessionLine(name: string, attached: bool)
    requires ':' !in name
    ensures SessionName(SessionLine(name, attached)) == name
    ensures SessionAttached(SessionLine(name, attached)) == attached
  {
    SplitOfJoin([name, if attached then "1" else "0"], ':');
  }

  /**
   * A window name `a:b` with one colon shifts every later field: the name is
   * cut at the colon, the active flag is read from `b`, the pane count from
   * the active flag and the layout from the pane count.
   */
  lemma ColonInWindowNameShiftsFields(session: string, index: nat, a: string, b: string, active: bool, panes: nat,
                                      layout: string)
    requires ':' !in a && ':' !in b && ':' !in layout
    ensures WindowEntry(session, WindowLine(index, a + ":" + b, active, panes, layout))
         == TmuxWindow(session, Num(index), Some(a), b == "1", Num(if active then 1 else 0), Some(NatToString(panes)))
  {
    var line := WindowLine(index, a + ":" + b, active, panes, layout);
    var fields := [NatToString(index), a, b, if active then "1" else "0", NatToString(panes), layout];
    ColonLineSplits(index, a, b, active, panes, layout);
    WindowEntryOfFields(session, line, fields);
    ParseIntOfIntToString(index);
    FlagAsNumber(active);
  }

  /** A window line reads its five fields from the first five pieces of its split at colons. */
  lemma WindowEntryOfFields(session: string, line: string, fields: seq<string>)
    requires |fields| >= 5 && Split(line, ':') == fields
    ensures WindowEntry(session, line)
         == TmuxWindow(session, ParseInt(Some(fields[0])), Some(fields[1]), fields[2] == "1", ParseInt(Some(fields[3])),
                       Some(fields[4]))
  {
  }

  /** An active flag read as a pane count is 1 or 0. */
  lemma FlagAsNumber(active: bool)
    ensures ParseInt(Some(if active then "1" else "0")) == Num(if active then 1 else 0)
  {
    ParseIntOfIntToString(if active then 1 else 0);
  }

  /** The line printed for a window named `a:b` splits into six fields instead of five. */
  lemma ColonLineSplits(index: nat, a: string, b: string, active: bool, panes: nat, layout: string)
    requires ':' !in a && ':' !in b && ':' !in layout
    ensures Split(WindowLine(index, a + ":" + b, active, panes, layout), ':')
         == [NatToString(index), a, b, if active then "1" else "0", NatToString(panes), layout]
  {
    var flag := if active then "1" else "0";
    var rest := [flag, NatToString(panes), layout];
    var parts := [NatToString(index), a, b] + rest;
    JoinOfPieceWithSeparator(NatToString(index), a, b, rest, ':');
    assert [NatToString(index), a + ":" + b] + rest == [NatToString(index), a + ":" + b, flag, NatToString(panes), layout];
    IntToStringHasNo(index, ':');
    IntToStringHasNo(panes, ':');
    assert ':' !in flag;
    assert parts == [NatToString(index), a, b, flag, NatToString(panes), layout];
    SplitOfJoin(parts, ':');
  }

  // ---------------------------------------------------------------------------
  // Runs: the result of each query and the events it adds
  // ---------------------------------------------------------------------------

  /** `getSessionWindows`' result for one reply: the parsed lines, or nothing on a failure. */
  function WindowsFromReply(session: string, reply: Reply): seq<TmuxWindow> {
    match reply
    case Ok(out) => ParseWindows(session, OutputLines(out))
    case Fail(_) => []
  }

  /** `getSessionWindows(session)` with the trace `t` so far. */
  function WindowsRun(host: Host, t: seq<Event>, session: string): (r: (seq<TmuxWindow>, seq<Event>))
    ensures r.1 == t + [Exec(ListWindows(session))]
    ensures host(t, ListWindows(session)).Fail? ==> r.0 == []
  {
    var c := ListWindows(session);
    (WindowsFromReply(session, host(t, c)), t + [Exec(c)])
  }

  /** One `list-windows` event per session, in order. */
  function ListWindowsEvents(sessions: seq<TmuxSession>): (r: seq<Event>)
    ensures |r| == |sessions|
    ensures forall k :: 0 <= k < |sessions| ==> r[k] == Exec(ListWindows(sessions[k].name))
  {
    seq(|sessions|, k requires 0 <= k < |sessions| => Exec(ListWindows(sessions[k].name)))
  }

  /** One more session adds its `list-windows` event at the end. */
  lemma ListWindowsEventsAppend(sessions: seq<TmuxSession>, s: TmuxSession)
    ensures ListWindowsEvents(sessions + [s]) == ListWindowsEvents(sessions) + [Exec(ListWindows(s.name))]
  {
    var all := sessions + [s];
    assert forall k :: 0 <= k < |sessions| ==> all[k] == sessions[k];
  }

  /** The loop of `getSessions` over the output lines, starting from trace `t`. */
  function SessionsFrom(host: Host, t: seq<Event>, lines: seq<string>): (seq<TmuxSession>, seq<Event>)
    decreases |lines|
  {
    if lines == [] then ([], t)
    else
      var (sessions, t1) := SessionsFrom(host, t, lines[..|lines| - 1]);
      var line := lines[|lines| - 1];
      if line == "" then (sessions, t1)
      else
        var name := SessionName(line);
        var (windows, t2) := WindowsRun(host, t1, name);
        (sessions + [TmuxSession(name, windows, SessionAttached(line))], t2)
  }

  /** One more line of the loop of `getSessions`: a blank line adds nothing, any other adds its session. */
  lemma SessionsFromStep(host: Host, t: seq<Event>, lines: seq<string>, i: int)
    requires 0 <= i < |lines|
    ensures var (sessions, t1) := SessionsFrom(host, t, lines[..i]);
      SessionsFrom(host, t, lines[..i + 1]) ==
        if lines[i] == "" then (sessions, t1)
        else
          var (windows, t2) := WindowsRun(host, t1, SessionName(lines[i]));
          (sessions + [TmuxSession(SessionName(lines[i]), windows, SessionAttached(lines[i]))], t2)
  {
    assert lines[..i + 1][..i] == lines[..i];
  }

  /** `getSessions()` with the trace `t` so far. */
  function SessionsRun(host: Host, t: seq<Event>): (r: (seq<TmuxSession>, seq<Event>))
    ensures host(t, ListSessions).Fail? ==> r == ([], t + [Exec(ListSessions)])
  {
    var t1 := t + [Exec(ListSessions)];
    match host(t, ListSessions)
    case Ok(out) => SessionsFrom(host, t1, OutputLines(out))
    case Fail(_) => ([], t1)
  }

  /**
   * Session `k` comes from output line `line`: its name is the line's first
   * field, `attached` comes from its second, and its windows are the reply to
   * the `list-windows` issued after those of the sessions before it.
   */
  predicate SessionOfLine(host: Host, t: seq<Event>, line: string, sessions: seq<TmuxSession>, k: int)
    requires 0 <= k < |sessions|
  {
    && sessions[k].name == SessionName(line)
    && sessions[k].attached == SessionAttached(line)
    && sessions[k].windows == WindowsFromReply(sessions[k].name,
         host(t + ListWindowsEvents(sessions[..k]), ListWindows(sessions[k].name)))
  }

  /** One session per line of `heads`, in the same order. */
  predicate SessionsOfLines(host: Host, t: seq<Event>, heads: seq<string>, sessions: seq<TmuxSession>) {
    && |sessions| == |heads|
    && forall k :: 0 <= k < |sessions| ==> SessionOfLine(host, t, heads[k], sessions, k)
  }

  /** The correspondence extends by one line and the session built from it. */
  lemma SessionsOfLinesAppend(host: Host, t: seq<Event>, heads: seq<string>, sessions: seq<TmuxSession>, line: string, s: TmuxSession)
    requires SessionsOfLines(host, t, heads, sessions)
    requires s.name == SessionName(line) && s.attached == SessionAttached(line)
    requires s.windows == WindowsFromReply(s.name, host(t + ListWindowsEvents(sessions), ListWindows(s.name)))
    ensures SessionsOfLines(host, t, heads + [line], sessions + [s])
  {
    var all := sessions + [s];
    assert all[..|sessions|] == sessions;
    forall k | 0 <= k < |sessions|
      ensures SessionOfLine(host, t, (heads + [line])[k], all, k)
    {
      assert all[..k] == sessions[..k];
      assert SessionOfLine(host, t, heads[k], sessions, k);
    }
  }

  /**
   * `getSessions` yields one session per non-empty line, in output order, with
   * the name of the line's first field, `attached` from its second, and the
   * windows of one `list-windows` query per session, issued in the same order.
   */
  lemma {:induction false} SessionsFromLineByLine(host: Host, t: seq<Event>, lines: seq<string>)
    ensures SessionsOfLines(host, t, NonEmptyLines(lines), SessionsFrom(host, t, lines).0)
    ensures SessionsFrom(host, t, lines).1 == t + ListWindowsEvents(SessionsFrom(host, t, lines).0)
    decreases |lines|, 1
  {
    if lines != [] {
      SessionsFromLastLine(host, t, lines);
    }
  }

  /** `SessionsFromLineByLine` for non-empty `lines`: the correspondence for all lines but the last, extended by the last. */
  lemma {:induction false} SessionsFromLastLine(host: Host, t: seq<Event>, lines: seq<string>)
    requires lines != []
    ensures SessionsOfLines(host, t, NonEmptyLines(lines), SessionsFrom(host, t, lines).0)
    ensures SessionsFrom(host, t, lines).1 == t + ListWindowsEvents(SessionsFrom(host, t, lines).0)
    decreases |lines|, 0
  {
    var init := lines[..|lines| - 1];
    SessionsFromLineByLine(host, t, init);
    var line := lines[|lines| - 1];
    var r := SessionsFrom(host, t, init);
    var sessions := r.0;
    if line != "" {
      var name := SessionName(line);
      var w := WindowsRun(host, r.1, name);
      var s := TmuxSession(name, w.0, SessionAttached(line));
      assert SessionsFrom(host, t, lines) == (sessions + [s], w.1);
      assert NonEmptyLines(lines) == NonEmptyLines(init) + [line];
      SessionsOfLinesAppend(host, t, NonEmptyLines(init), sessions, line, s);
      ListWindowsEventsAppend(sessions, s);
    } else {
      assert SessionsFrom(host, t, lines) == r;
      assert NonEmptyLines(lines) == NonEmptyLines(init);
    }
  }

  /** Every session `getSessions` returns holds only windows tagged with that session's name. */
  lemma SessionsOwnTheirWindows(host: Host, t: seq<Event>)
    ensures forall s, w :: s in SessionsRun(host, t).0 && w in s.windows ==> w.session_name == s.name
  {
    var reply := host(t, ListSessions);
    if reply.Ok? {
      SessionsFromOwnWindows(host, t + [Exec(ListSessions)], OutputLines(reply.stdout));
    }
  }

  lemma {:induction false} SessionsFromOwnWindows(host: Host, t: seq<Event>, lines: seq<string>)
    ensures forall s, w :: s in SessionsFrom(host, t, lines).0 && w in s.windows ==> w.session_name == s.name
    decreases |lines|
  {
    if lines != [] {
      var init := lines[..|lines| - 1];
      SessionsFromOwnWindows(host, t, init);
      var t1 := SessionsFrom(host, t, init).1;
      var line := lines[|lines| - 1];
      if line != "" {
        var name := SessionName(line);
        WindowsRunTagsSession(host, t1, name);
      }
    }
  }

  /** Every window one `list-windows` query yields is tagged with the queried session's name. */
  lemma WindowsRunTagsSession(host: Host, t: seq<Event>, session: string)
    ensures forall w :: w in WindowsRun(host, t, session).0 ==> w.session_name == session
  {
    var reply := host(t, ListWindows(session));
    if reply.Ok? {
      ParseWindowsLineByLine(session, OutputLines(reply.stdout));
    }
  }

  /** `Math.min(numLines, max_lines_capture)`: the number of lines a capture asks for. */
  function CaptureLineCount(numLines: int, maxLines: int): (n: int)
    ensures n <= numLines && n <= maxLines
    ensures n == numLines || n == maxLines
  {
    if numLines < maxLines then numLines else maxLines
  }

  const CaptureErrorPrefix := "Error capturing window content: "

  /** `captureWindowContent(session, index, numLines)`: the captured text, or an error text in its place. */
  function CaptureRun(host: Host, t: seq<Event>, session: string, index: Number, numLines: int, maxLines: int)
    : (r: (string, seq<Event>))
    ensures r.1 == t + [Exec(CapturePane(Target(session, index), CaptureLineCount(numLines, maxLines)))]
    ensures host(t, r.1[|t|].cmd).Fail? ==> r.0 == CaptureErrorPrefix + host(t, r.1[|t|].cmd).error
    ensures host(t, r.1[|t|].cmd).Ok? ==> r.0 == host(t, r.1[|t|].cmd).stdout
  {
    var c := CapturePane(Target(session, index), CaptureLineCount(numLines, maxLines));
    var text := match host(t, c) case Ok(out) => out case Fail(e) => CaptureErrorPrefix + e;
    (text, t + [Exec(c)])
  }

  const NoInfoError := "No window info available"
  const InfoErrorPrefix := "Could not get window info: "

  /** The zero-valued info record `getWindowInfo` returns instead of raising. */
  function EmptyInfo(error: string): TmuxWindowInfo {
    TmuxWindowInfo("", false, Num(0), Some(""), None, Some(error))
  }

  /** `getWindowInfo(session, index)`: metadata from one line, then a 50-line capture. */
  function WindowInfoRun(host: Host, t: seq<Event>, session: string, index: Number, maxLines: int)
    : (TmuxWindowInfo, seq<Event>)
  {
    var c := DisplayMessage(Target(session, index));
    var t1 := t + [Exec(c)];
    match host(t, c)
    case Fail(e) => (EmptyInfo(InfoErrorPrefix + e), t1)
    case Ok(out) =>
      if Trim(out) == "" then (EmptyInfo(NoInfoError), t1)
      else
        var f := Split(Trim(out), ':');
        var (content, t2) := CaptureRun(host, t1, session, index, DefaultCaptureLines, maxLines);
        (TmuxWindowInfo(f[0], Flag(Field(f, 1)), ParseInt(Field(f, 2)), Field(f, 3), Some(content), None), t2)
  }

  /**
   * `getWindowInfo` never raises: a failed query or blank output yields the
   * zeroed record with an error and no content, and only otherwise is the
   * window's content captured.
   */
  lemma WindowInfoDegrades(host: Host, t: seq<Event>, session: string, index: Number, maxLines: int)
    ensures var (info, t') := WindowInfoRun(host, t, session, index, maxLines);
      var reply := host(t, DisplayMessage(Target(session, index)));
      && (reply.Fail? ==> info == EmptyInfo(InfoErrorPrefix + reply.error) && |t'| == |t| + 1)
      && (reply.Ok? && IsBlank(reply.stdout) ==> info == EmptyInfo(NoInfoError) && |t'| == |t| + 1)
      && (reply.Ok? && !IsBlank(reply.stdout) ==>
            info.error.None? && info.content.Some? && |t'| == |t| + 2
            && t'[|t| + 1] == Exec(CapturePane(Target(session, index), CaptureLineCount(DefaultCaptureLines, maxLines)))
            && info.content == Some(CaptureRun(host, t + [Exec(DisplayMessage(Target(session, index)))], session, index,
                                               DefaultCaptureLines, maxLines).0))
  {
    var reply := host(t, DisplayMessage(Target(session, index)));
    if reply.Ok? {
      TrimSpec(reply.stdout);
    }
  }

  /** How tmux prints a window's metadata with the format `name:active:panes:layout`. */
  function InfoLine(name: string, active: bool, panes: nat, layout: string): string {
    Join([name, if active then "1" else "0", NatToString(panes), layout], ':')
  }

  /**
   * When tmux prints the metadata line of a window whose name and layout have
   * no colon, `getWindowInfo` returns that name, flag, pane count and layout,
   * with the 50-line capture as content and no error.
   */
  lemma WindowInfoOfInfoLine(host: Host, t: seq<Event>, session: string, index: Number, maxLines: int,
                             name: string, active: bool, panes: nat, layout: string, p: string, q: string)
    requires ':' !in name && ':' !in layout
    requires name == [] || !IsSpace(name[0])
    requires layout == [] || !IsSpace(layout[|layout| - 1])
    requires IsBlank(p) && IsBlank(q)
    requires host(t, DisplayMessage(Target(session, index))) == Ok(p + InfoLine(name, active, panes, layout) + q)
    ensures WindowInfoRun(host, t, session, index, maxLines).0
         == TmuxWindowInfo(name, active, Num(panes), Some(layout),
                           Some(CaptureRun(host, t + [Exec(DisplayMessage(Target(session, index)))], session, index,
                                           DefaultCaptureLines, maxLines).0),
                           None)
  {
    var out := p + InfoLine(name, active, panes, layout) + q;
    var fields := [name, if active then "1" else "0", NatToString(panes), layout];
    InfoLineFields(name, active, panes, layout, p, q);
    WindowInfoOfFields(host, t, session, index, maxLines, out, fields);
    ParseIntOfIntToString(panes);
  }

  /** A non-blank metadata line whose trimmed text splits into four fields fills the record from them. */
  lemma WindowInfoOfFields(host: Host, t: seq<Event>, session: string, index: Number, maxLines: int,
                           out: string, fields: seq<string>)
    requires host(t, DisplayMessage(Target(session, index))) == Ok(out)
    requires |fields| == 4 && Split(Trim(out), ':') == fields
    ensures WindowInfoRun(host, t, session, index, maxLines).0
         == TmuxWindowInfo(fields[0], fields[1] == "1", ParseInt(Some(fields[2])), Some(fields[3]),
                           Some(CaptureRun(host, t + [Exec(DisplayMessage(Target(session, index)))], session, index,
                                           DefaultCaptureLines, maxLines).0),
                           None)
  {
  }

  /** The trimmed metadata line splits at its colons into the four fields it was printed from. */
  lemma InfoLineFields(name: string, active: bool, panes: nat, layout: string, p: string, q: string)
    requires ':' !in name && ':' !in layout
    requires name == [] || !IsSpace(name[0])
    requires layout == [] || !IsSpace(layout[|layout| - 1])
    requires IsBlank(p) && IsBlank(q)
    ensures Split(Trim(p + InfoLine(name, active, panes, layout) + q), ':')
         == [name, if active then "1" else "0", NatToString(panes), layout]
  {
    InfoLineTrimmed(name, active, panes, layout, p, q);
    InfoLineSplits(name, active, panes, layout);
  }

  /** Blank padding around the metadata line is trimmed away and nothing else is. */
  lemma InfoLineTrimmed(name: string, active: bool, panes: nat, layout: string, p: string, q: string)
    requires name == [] || !IsSpace(name[0])
    requires layout == [] || !IsSpace(layout[|layout| - 1])
    requires IsBlank(p) && IsBlank(q)
    ensures Trim(p + InfoLine(name, active, panes, layout) + q) == InfoLine(name, active, panes, layout)
  {
    JoinEnds([name, if active then "1" else "0", NatToString(panes), layout], ':');
    TrimOfPadded(p, InfoLine(name, active, panes, layout), q);
  }

  lemma InfoLineSplits(name: string, active: bool, panes: nat, layout: string)
    requires ':' !in name && ':' !in layout
    ensures Split(InfoLine(name, active, panes, layout), ':') == [name, if active then "1" else "0", NatToString(panes), layout]
  {
    var flag := if active then "1" else "0";
    IntToStringHasNo(panes, ':');
    assert ':' !in flag;
    SplitOfJoin([name, flag, NatToString(panes), layout], ':');
  }

  /**
   * `sendMessage`: the text, then the settle delay, then `Enter`; `true` only
   * when both commands succeed; no `Enter` after a failed text phase.
   */
  function SendMessageRun(host: Host, t: seq<Event>, target: string, message: string, delay: int)
    : (r: (bool, seq<Event>))
    ensures |r.1| > |t| && r.1[..|t|] == t && r.1[|t|] == Exec(SendKeys(target, message))
    ensures host(t, SendKeys(target, message)).Fail? ==> !r.0 && |r.1| == |t| + 1
    ensures host(t, SendKeys(target, message)).Ok? ==>
      && |r.1| == |t| + 3
      && r.1[|t| + 1] == Sleep(delay)
      && r.1[|t| + 2] == Exec(SendKeys(target, EnterKey))
      && (r.0 <==> host(r.1[..|t| + 2], SendKeys(target, EnterKey)).Ok?)
  {
    var text := SendKeys(target, message);
    var t1 := t + [Exec(text)];
    if host(t, text).Fail? then (false, t1)
    else
      var t2 := t1 + [Sleep(delay)];
      var enter := SendKeys(target, EnterKey);
      assert (t2 + [Exec(enter)])[..|t| + 2] == t2;
      (host(t2, enter).Ok?, t2 + [Exec(enter)])
  }

  /** A wrapper that issues one command and reports whether it succeeded. */
  function CommandRun(host: Host, t: seq<Event>, c: Cmd): (bool, seq<Event>) {
    (host(t, c).Ok?, t + [Exec(c)])
  }

  /** The `-c` option: present only for a non-empty start directory. */
  function DirOption(startDirectory: Option<string>): (d: Option<string>)
    ensures d.Some? <==> Truthy(startDirectory)
    ensures d.Some? ==> d == startDirectory
  {
    if Truthy(startDirectory) then startDirectory else None
  }

  /** `createWindow`: the index tmux printed for the new window, or `null` on a failure. */
  function CreateWindowRun(host: Host, t: seq<Event>, session: string, name: string, startDirectory: Option<string>)
    : (r: (Option<Number>, seq<Event>))
    ensures r.1 == t + [Exec(NewWindow(session, name, DirOption(startDirectory)))]
    ensures r.0.None? <==> host(t, NewWindow(session, name, DirOption(startDirectory))).Fail?
  {
    var c := NewWindow(session, name, DirOption(startDirectory));
    match host(t, c)
    case Ok(out) => (Some(ParseInt(Some(Trim(out)))), t + [Exec(c)])
    case Fail(_) => (None, t + [Exec(c)])
  }

  /** When tmux prints the new window's index between blank padding, `createWindow` returns that index. */
  lemma CreateWindowReadsIndex(host: Host, t: seq<Event>, session: string, name: string, startDirectory: Option<string>,
                               index: nat, p: string, q: string)
    requires IsBlank(p) && IsBlank(q)
    requires host(t, NewWindow(session, name, DirOption(startDirectory))) == Ok(p + NatToString(index) + q)
    ensures CreateWindowRun(host, t, session, name, startDirectory).0 == Some(Num(index))
  {
    var s := NatToString(index);
    assert IsDigit(s[0]) && IsDigit(s[|s| - 1]);
    TrimOfPadded(p, s, q);
    ParseIntOfIntToString(index);
  }

  // ---------------------------------------------------------------------------
  // Full status
  // ---------------------------------------------------------------------------

  /** The inner loop of `getAllStatus`: the info of each window of one session. */
  function WindowStatuses(host: Host, t: seq<Event>, session: string, windows: seq<TmuxWindow>, maxLines: int)
    : (seq<WindowStatus>, seq<Event>)
    decreases |windows|
  {
    if windows == [] then ([], t)
    else
      var (done, t1) := WindowStatuses(host, t, session, windows[..|windows| - 1], maxLines);
      var (status, t2) := WindowStatusOf(host, t1, session, windows[|windows| - 1], maxLines);
      (done + [status], t2)
  }

  /** One more window of the inner loop of `getAllStatus` appends that window's entry. */
  lemma WindowStatusesStep(host: Host, t: seq<Event>, session: string, windows: seq<TmuxWindow>, j: int, maxLines: int)
    requires 0 <= j < |windows|
    ensures var (done, t1) := WindowStatuses(host, t, session, windows[..j], maxLines);
      var (status, t2) := WindowStatusOf(host, t1, session, windows[j], maxLines);
      WindowStatuses(host, t, session, windows[..j + 1], maxLines) == (done + [status], t2)
  {
    assert windows[..j + 1][..j] == windows[..j];
  }

  /** One window's entry: its listing fields and its info. */
  function WindowStatusOf(host: Host, t: seq<Event>, session: string, w: TmuxWindow, maxLines: int)
    : (r: (WindowStatus, seq<Event>))
    ensures r.0.index == w.window_index && r.0.name == w.window_name && r.0.active == w.active
  {
    var (info, t') := WindowInfoRun(host, t, session, w.window_index, maxLines);
    (WindowStatus(w.window_index, w.window_name, w.active, info), t')
  }

  /** The outer loop of `getAllStatus`, over the sessions. */
  function SessionStatuses(host: Host, t: seq<Event>, sessions: seq<TmuxSession>, maxLines: int)
    : (seq<SessionStatus>, seq<Event>)
    decreases |sessions|
  {
    if sessions == [] then ([], t)
    else
      var (done, t1) := SessionStatuses(host, t, sessions[..|sessions| - 1], maxLines);
      var (status, t2) := SessionStatusOf(host, t1, sessions[|sessions| - 1], maxLines);
      (done + [status], t2)
  }

  /** One more session of the outer loop of `getAllStatus` appends that session's entry. */
  lemma SessionStatusesStep(host: Host, t: seq<Event>, sessions: seq<TmuxSession>, i: int, maxLines: int)
    requires 0 <= i < |sessions|
    ensures var (done, t1) := SessionStatuses(host, t, sessions[..i], maxLines);
      var (status, t2) := SessionStatusOf(host, t1, sessions[i], maxLines);
      SessionStatuses(host, t, sessions[..i + 1], maxLines) == (done + [status], t2)
  {
    assert sessions[..i + 1][..i] == sessions[..i];
  }

  /** One session's entry: its name and flag, and the entries of its windows. */
  function SessionStatusOf(host: Host, t: seq<Event>, s: TmuxSession, maxLines: int)
    : (r: (SessionStatus, seq<Event>))
    ensures r.0.name == s.name && r.0.attached == s.attached
  {
    var (windows, t') := WindowStatuses(host, t, s.name, s.windows, maxLines);
    (SessionStatus(s.name, s.attached, windows), t')
  }

  /** `getAllStatus()`: the sessions, then every window's info. */
  function AllStatusRun(host: Host, t: seq<Event>, timestamp: string, maxLines: int): (TmuxStatus, seq<Event>) {
    var (sessions, t1) := SessionsRun(host, t);
    var (statuses, t2) := SessionStatuses(host, t1, sessions, maxLines);
    (TmuxStatus(timestamp, statuses), t2)
  }

  /** Each status entry carries the index, name and flag of the window at the same position. */
  predicate Mirrors(ws: seq<WindowStatus>, windows: seq<TmuxWindow>) {
    && |ws| == |windows|
    && forall j :: 0 <= j < |windows| ==>
         ws[j].index == windows[j].window_index && ws[j].name == windows[j].window_name && ws[j].active == windows[j].active
  }

  /** Mirroring extends by one entry for the last window. */
  lemma MirrorsAppend(ws: seq<WindowStatus>, windows: seq<TmuxWindow>, s: WindowStatus)
    requires windows != [] && Mirrors(ws, windows[..|windows| - 1])
    requires var w := windows[|windows| - 1]; s.index == w.window_index && s.name == w.window_name && s.active == w.active
    ensures Mirrors(ws + [s], windows)
  {
    assert forall j :: 0 <= j < |windows| - 1 ==> windows[..|windows| - 1][j] == windows[j];
  }

  /** One status entry per window, in discovery order, carrying the window's index, name and flag. */
  lemma {:induction false} WindowStatusesMirror(host: Host, t: seq<Event>, session: string, windows: seq<TmuxWindow>, maxLines: int)
    ensures Mirrors(WindowStatuses(host, t, session, windows, maxLines).0, windows)
    decreases |windows|
  {
    if windows != [] {
      var init := windows[..|windows| - 1];
      var w := windows[|windows| - 1];
      WindowStatusesMirror(host, t, session, init, maxLines);
      var r := WindowStatuses(host, t, session, init, maxLines);
      var last := WindowStatusOf(host, r.1, session, w, maxLines).0;
      assert WindowStatuses(host, t, session, windows, maxLines).0 == r.0 + [last];
      MirrorsAppend(r.0, windows, last);
    }
  }

  /** Each session entry carries the name and flag of the session at the same position and mirrors its windows. */
  predicate SessionsMirror(ss: seq<SessionStatus>, sessions: seq<TmuxSession>) {
    && |ss| == |sessions|
    && forall i :: 0 <= i < |sessions| ==>
         && ss[i].name == sessions[i].name && ss[i].attached == sessions[i].attached
         && Mirrors(ss[i].windows, sessions[i].windows)
  }

  /** Mirroring extends by one entry for the last session. */
  lemma SessionsMirrorAppend(ss: seq<SessionStatus>, sessions: seq<TmuxSession>, s: SessionStatus)
    requires sessions != [] && SessionsMirror(ss, sessions[..|sessions| - 1])
    requires var last := sessions[|sessions| - 1];
      s.name == last.name && s.attached == last.attached && Mirrors(s.windows, last.windows)
    ensures SessionsMirror(ss + [s], sessions)
  {
    assert forall i :: 0 <= i < |sessions| - 1 ==> sessions[..|sessions| - 1][i] == sessions[i];
  }

  /** One status entry per session, in discovery order, each with one entry per window. */
  lemma {:induction false} SessionStatusesMirror(host: Host, t: seq<Event>, sessions: seq<TmuxSession>, maxLines: int)
    ensures SessionsMirror(SessionStatuses(host, t, sessions, maxLines).0, sessions)
    decreases |sessions|
  {
    if sessions != [] {
      var init := sessions[..|sessions| - 1];
      var s := sessions[|sessions| - 1];
      SessionStatusesMirror(host, t, init, maxLines);
      var r := SessionStatuses(host, t, init, maxLines);
      var status := SessionStatusOf(host, r.1, s, maxLines).0;
      assert SessionStatuses(host, t, sessions, maxLines).0 == r.0 + [status];
      WindowStatusesMirror(host, r.1, s.name, s.windows, maxLines);
      assert status.windows == WindowStatuses(host, r.1, s.name, s.windows, maxLines).0;
      SessionsMirrorAppend(r.0, sessions, status);
    }
  }

  // ---------------------------------------------------------------------------
  // Search by window name
  // ---------------------------------------------------------------------------

  /** A `(session, index)` pair naming one window. */
  datatype WindowRef = WindowRef(session: string, index: Number)

  /** The case-insensitive substring test of `findWindowsByName`. */
  predicate NameMatches(name: string, query: string) {
    Includes(ToLower(name), ToLower(query))
  }

  /**
   * The inner loop of `findWindowsByName` over one session's windows; `None`
   * when a window's name is `undefined` (calling `toLowerCase` on it raises).
   */
  function WindowMatches(session: string, windows: seq<TmuxWindow>, query: string): Option<seq<WindowRef>>
    decreases |windows|
  {
    if windows == [] then Some([])
    else
      match WindowMatches(session, windows[..|windows| - 1], query)
      case None => None
      case Some(found) =>
        var w := windows[|windows| - 1];
        match w.window_name
        case None => None
        case Some(name) =>
          if NameMatches(name, query) then Some(found + [WindowRef(session, w.window_index)]) else Some(found)
  }

  /** The outer loop of `findWindowsByName` over the sessions. */
  function SessionMatches(sessions: seq<TmuxSession>, query: string): Option<seq<WindowRef>>
    decreases |sessions|
  {
    if sessions == [] then Some([])
    else
      match SessionMatches(sessions[..|sessions| - 1], query)
      case None => None
      case Some(found) =>
        var s := sessions[|sessions| - 1];
        match WindowMatches(s.name, s.windows, query)
        case None => None
        case Some(more) => Some(found + more)
  }

  /** Every window of every session has a defined name. */
  ghost predicate AllNamed(sessions: seq<TmuxSession>) {
    forall i, j :: 0 <= i < |sessions| && 0 <= j < |sessions[i].windows| ==> sessions[i].windows[j].window_name.Some?
  }

  /** Window `j` of session `i` matches the query. */
  ghost predicate MatchAt(sessions: seq<TmuxSession>, query: string, i: int, j: int, r: WindowRef)
    requires 0 <= i < |sessions| && 0 <= j < |sessions[i].windows|
  {
    var w := sessions[i].windows[j];
    && w.window_name.Some? && NameMatches(w.window_name.value, query)
    && r == WindowRef(sessions[i].name, w.window_index)
  }

  lemma {:induction false} WindowMatchesSpec(session: string, windows: seq<TmuxWindow>, query: string)
    ensures WindowMatches(session, windows, query).Some? <==> forall j :: 0 <= j < |windows| ==> windows[j].window_name.Some?
    ensures WindowMatches(session, windows, query).Some? ==> forall r ::
      r in WindowMatches(session, windows, query).value <==>
        exists j :: 0 <= j < |windows| && windows[j].window_name.Some? && NameMatches(windows[j].window_name.value, query)
                    && r == WindowRef(session, windows[j].window_index)
    decreases |windows|
  {
    if windows != [] {
      var init := windows[..|windows| - 1];
      WindowMatchesSpec(session, init, query);
      assert forall j :: 0 <= j < |init| ==> init[j] == windows[j];
    }
  }

  /** Some window of some session matches the query and gives the pair `r`. */
  ghost predicate MatchedIn(sessions: seq<TmuxSession>, query: string, r: WindowRef) {
    exists i, j :: 0 <= i < |sessions| && 0 <= j < |sessions[i].windows| && MatchAt(sessions, query, i, j, r)
  }

  /** A match in a list of sessions is a match in all but its last session or in its last one. */
  lemma MatchedInStep(sessions: seq<TmuxSession>, query: string, r: WindowRef)
    requires sessions != []
    ensures var s := sessions[|sessions| - 1];
      MatchedIn(sessions, query, r) <==>
        || MatchedIn(sessions[..|sessions| - 1], query, r)
        || exists j :: 0 <= j < |s.windows| && s.windows[j].window_name.Some? && NameMatches(s.windows[j].window_name.value, query)
                       && r == WindowRef(s.name, s.windows[j].window_index)
  {
    if MatchedIn(sessions, query, r) {
      MatchedInSplits(sessions, query, r);
    }
    MatchedInJoins(sessions, query, r);
  }

  /** The left-to-right half of `MatchedInStep`. */
  lemma MatchedInSplits(sessions: seq<TmuxSession>, query: string, r: WindowRef)
    requires sessions != []
    requires MatchedIn(sessions, query, r)
    ensures var s := sessions[|sessions| - 1];
      || MatchedIn(sessions[..|sessions| - 1], query, r)
      || exists j :: 0 <= j < |s.windows| && s.windows[j].window_name.Some? && NameMatches(s.windows[j].window_name.value, query)
                     && r == WindowRef(s.name, s.windows[j].window_index)
  {
    var init := sessions[..|sessions| - 1];
    var i, j :| 0 <= i < |sessions| && 0 <= j < |sessions[i].windows| && MatchAt(sessions, query, i, j, r);
    if i < |init| {
      assert init[i] == sessions[i];
      assert MatchAt(init, query, i, j, r);
    }
  }

  /** The right-to-left half of `MatchedInStep`. */
  lemma MatchedInJoins(sessions: seq<TmuxSession>, query: string, r: WindowRef)
    requires sessions != []
    ensures var s := sessions[|sessions| - 1];
      (|| MatchedIn(sessions[..|sessions| - 1], query, r)
       || exists j :: 0 <= j < |s.windows| && s.windows[j].window_name.Some? && NameMatches(s.windows[j].window_name.value, query)
                      && r == WindowRef(s.name, s.windows[j].window_index))
      ==> MatchedIn(sessions, query, r)
  {
    var init := sessions[..|sessions| - 1];
    var s := sessions[|sessions| - 1];
    if MatchedIn(init, query, r) {
      var i, j :| 0 <= i < |init| && 0 <= j < |init[i].windows| && MatchAt(init, query, i, j, r);
      assert init[i] == sessions[i];
      assert MatchAt(sessions, query, i, j, r);
    }
    if exists j :: 0 <= j < |s.windows| && s.windows[j].window_name.Some? && NameMatches(s.windows[j].window_name.value, query)
                   && r == WindowRef(s.name, s.windows[j].window_index) {
      var j :| 0 <= j < |s.windows| && s.windows[j].window_name.Some? && NameMatches(s.windows[j].window_name.value, query)
               && r == WindowRef(s.name, s.windows[j].window_index);
      assert MatchAt(sessions, query, |sessions| - 1, j, r);
    }
  }

  /** The search over sessions raises exactly when some window has no name. */
  lemma {:induction false} SessionMatchesDefined(sessions: seq<TmuxSession>, query: string)
    ensures SessionMatches(sessions, query).Some? <==> AllNamed(sessions)
    decreases |sessions|
  {
    if sessions != [] {
      var init := sessions[..|sessions| - 1];
      var s := sessions[|sessions| - 1];
      SessionMatchesDefined(init, query);
      WindowMatchesSpec(s.name, s.windows, query);
      assert forall i :: 0 <= i < |init| ==> init[i] == sessions[i];
    }
  }

  /**
   * `findWindowsByName` returns exactly the pairs of the windows whose
   * lower-cased name contains the lower-cased query; it raises exactly when
   * some window's name is `undefined`.
   */
  lemma {:induction false} SessionMatchesSpec(sessions: seq<TmuxSession>, query: string)
    ensures SessionMatches(sessions, query).Some? <==> AllNamed(sessions)
    ensures SessionMatches(sessions, query).Some? ==> forall r ::
      r in SessionMatches(sessions, query).value <==>
        exists i, j :: 0 <= i < |sessions| && 0 <= j < |sessions[i].windows| && MatchAt(sessions, query, i, j, r)
    ensures AllNamed(sessions) ==> SessionMatches(sessions, query) == Some(MatchingRefs(Slots(sessions), query))
    decreases |sessions|
  {
    SessionMatchesDefined(sessions, query);
    if AllNamed(sessions) {
      SessionMatchesFilter(sessions, query);
    }
    if sessions != [] && SessionMatches(sessions, query).Some? {
      var init := sessions[..|sessions| - 1];
      var s := sessions[|sessions| - 1];
      SessionMatchesSpec(init, query);
      WindowMatchesSpec(s.name, s.windows, query);
      var found := SessionMatches(init, query).value;
      var more := WindowMatches(s.name, s.windows, query).value;
      forall r
        ensures r in found + more <==> MatchedIn(sessions, query, r)
      {
        MatchedInStep(sessions, query, r);
      }
    }
  }

  /** The pairs of one session's windows, in order. */
  function WindowRefs(session: string, windows: seq<TmuxWindow>): (r: seq<WindowRef>)
    ensures |r| == |windows|
    ensures forall j :: 0 <= j < |windows| ==> r[j] == WindowRef(session, windows[j].window_index)
    decreases |windows|
  {
    if windows == [] then []
    else WindowRefs(session, windows[..|windows| - 1]) + [WindowRef(session, windows[|windows| - 1].window_index)]
  }

  /** One window without a name is enough for the search to raise. */
  lemma UnnamedWindowRejects(sessions: seq<TmuxSession>, query: string, i: int, j: int)
    requires 0 <= i < |sessions| && 0 <= j < |sessions[i].windows|
    requires sessions[i].windows[j].window_name.None?
    ensures SessionMatches(sessions, query).None?
  {
    SessionMatchesSpec(sessions, query);
  }

  /** Once the search has raised on a prefix of a session's windows, it raises on all of them. */
  lemma WindowRejectionPersists(session: string, windows: seq<TmuxWindow>, n: int, query: string)
    requires 0 <= n <= |windows|
    requires WindowMatches(session, windows[..n], query).None?
    ensures WindowMatches(session, windows, query).None?
  {
    var prefix := windows[..n];
    WindowMatchesSpec(session, prefix, query);
    WindowMatchesSpec(session, windows, query);
    var j :| 0 <= j < |prefix| && prefix[j].window_name.None?;
    assert prefix[j] == windows[j];
  }

  /** Once the search has raised on a prefix of the sessions, it raises on all of them. */
  lemma RejectionPersists(sessions: seq<TmuxSession>, n: int, query: string)
    requires 0 <= n <= |sessions|
    requires SessionMatches(sessions[..n], query).None?
    ensures SessionMatches(sessions, query).None?
  {
    var prefix := sessions[..n];
    SessionMatchesSpec(prefix, query);
    var i, j :| 0 <= i < |prefix| && 0 <= j < |prefix[i].windows| && prefix[i].windows[j].window_name.None?;
    assert prefix[i] == sessions[i];
    UnnamedWindowRejects(sessions, query, i, j);
  }

  /** Every window, in discovery order: sessions first, then each session's windows. */
  function AllRefs(sessions: seq<TmuxSession>): seq<WindowRef>
    decreases |sessions|
  {
    if sessions == [] then []
    else
      var s := sessions[|sessions| - 1];
      AllRefs(sessions[..|sessions| - 1]) + WindowRefs(s.name, s.windows)
  }

  /** An empty query matches every named window, and the result keeps discovery order. */
  lemma {:induction false} EmptyQueryMatchesAll(sessions: seq<TmuxSession>)
    requires AllNamed(sessions)
    ensures SessionMatches(sessions, "") == Some(AllRefs(sessions))
    decreases |sessions|
  {
    if sessions != [] {
      var last := |sessions| - 1;
      var init := sessions[..last];
      var s := sessions[last];
      assert AllNamed(init) by {
        assert forall i :: 0 <= i < |init| ==> init[i] == sessions[i];
      }
      EmptyQueryMatchesAll(init);
      assert forall j :: 0 <= j < |s.windows| ==> sessions[last].windows[j].window_name.Some?;
      EmptyQueryWindows(s.name, s.windows);
    }
  }

  lemma {:induction false} EmptyQueryWindows(session: string, windows: seq<TmuxWindow>)
    requires forall j :: 0 <= j < |windows| ==> windows[j].window_name.Some?
    ensures WindowMatches(session, windows, "") == Some(WindowRefs(session, windows))
    decreases |windows|
  {
    if windows != [] {
      var init := windows[..|windows| - 1];
      assert forall j :: 0 <= j < |init| ==> init[j] == windows[j];
      EmptyQueryWindows(session, init);
      var name := windows[|windows| - 1].window_name.value;
      assert ToLower("") == "";
      assert NameMatches(name, "");
    }
  }

  /** The search only sees the lower-cased query: queries equal up to case give equal results. */
  lemma {:induction false} SearchIgnoresQueryCase(sessions: seq<TmuxSession>, q1: string, q2: string)
    requires ToLower(q1) == ToLower(q2)
    ensures SessionMatches(sessions, q1) == SessionMatches(sessions, q2)
    decreases |sessions|
  {
    if sessions != [] {
      SearchIgnoresQueryCase(sessions[..|sessions| - 1], q1, q2);
      var s := sessions[|sessions| - 1];
      WindowsIgnoreQueryCase(s.name, s.windows, q1, q2);
    }
  }

  lemma {:induction false} WindowsIgnoreQueryCase(session: string, windows: seq<TmuxWindow>, q1: string, q2: string)
    requires ToLower(q1) == ToLower(q2)
    ensures WindowMatches(session, windows, q1) == WindowMatches(session, windows, q2)
    decreases |windows|
  {
    if windows != [] {
      WindowsIgnoreQueryCase(session, windows[..|windows| - 1], q1, q2);
    }
  }

  /** One window of one session: the unit the search visits. */
  datatype Slot = Slot(session: string, window: TmuxWindow)

  /** The slots of one session's windows, in order. */
  function SlotsOf(session: string, windows: seq<TmuxWindow>): (r: seq<Slot>)
    ensures |r| == |windows|
    ensures forall j :: 0 <= j < |windows| ==> r[j] == Slot(session, windows[j])
  {
    seq(|windows|, j requires 0 <= j < |windows| => Slot(session, windows[j]))
  }

  /** Every window of every session, in discovery order. */
  function Slots(sessions: seq<TmuxSession>): seq<Slot>
    decreases |sessions|
  {
    if sessions == [] then []
    else Slots(sessions[..|sessions| - 1]) + SlotsOf(sessions[|sessions| - 1].name, sessions[|sessions| - 1].windows)
  }

  /** The reference definition of the search: keep, front to back, the named slots whose name matches. */
  function MatchingRefs(slots: seq<Slot>, query: string): seq<WindowRef>
    decreases |slots|
  {
    if slots == [] then []
    else
      var w := slots[0].window;
      var rest := MatchingRefs(slots[1..], query);
      if w.window_name.Some? && NameMatches(w.window_name.value, query) then [WindowRef(slots[0].session, w.window_index)] + rest
      else rest
  }

  lemma {:induction false} MatchingRefsConcat(a: seq<Slot>, b: seq<Slot>, query: string)
    ensures MatchingRefs(a + b, query) == MatchingRefs(a, query) + MatchingRefs(b, query)
    decreases |a|
  {
    if a != [] {
      assert (a + b)[1..] == a[1..] + b;
      MatchingRefsConcat(a[1..], b, query);
    } else {
      assert a + b == b;
    }
  }

  lemma {:induction false} WindowMatchesFilter(session: string, windows: seq<TmuxWindow>, query: string)
    requires forall j :: 0 <= j < |windows| ==> windows[j].window_name.Some?
    ensures WindowMatches(session, windows, query) == Some(MatchingRefs(SlotsOf(session, windows), query))
    decreases |windows|
  {
    if windows != [] {
      var init := windows[..|windows| - 1];
      var last := Slot(session, windows[|windows| - 1]);
      assert forall j :: 0 <= j < |init| ==> init[j] == windows[j];
      WindowMatchesFilter(session, init, query);
      assert SlotsOf(session, windows) == SlotsOf(session, init) + [last];
      MatchingRefsConcat(SlotsOf(session, init), [last], query);
      assert [last][1..] == [];
      var name := last.window.window_name.value;
      assert MatchingRefs([last], query)
          == if NameMatches(name, query) then [WindowRef(session, last.window.window_index)] else [];
      var found := MatchingRefs(SlotsOf(session, init), query);
      if !NameMatches(name, query) {
        assert found + MatchingRefs([last], query) == found;
      }
    }
  }

  /**
   * When every window is named, `findWindowsByName` is the reference filter
   * over all windows in discovery order: the same pairs, in the same order,
   * each as often as its window occurs.
   */
  lemma {:induction false} SessionMatchesFilter(sessions: seq<TmuxSession>, query: string)
    requires AllNamed(sessions)
    ensures SessionMatches(sessions, query) == Some(MatchingRefs(Slots(sessions), query))
    decreases |sessions|
  {
    if sessions != [] {
      var last := |sessions| - 1;
      var init := sessions[..last];
      var s := sessions[last];
      assert AllNamed(init) by {
        assert forall i :: 0 <= i < |init| ==> init[i] == sessions[i];
      }
      SessionMatchesFilter(init, query);
      assert forall j :: 0 <= j < |s.windows| ==> sessions[last].windows[j].window_name.Some?;
      WindowMatchesFilter(s.name, s.windows, query);
      MatchingRefsConcat(Slots(init), SlotsOf(s.name, s.windows), query);
    }
  }

  // ---------------------------------------------------------------------------
  // Monitoring snapshot
  // ---------------------------------------------------------------------------

  /** `lines.slice(-n)`: the last `n` lines, or all of them when there are fewer. */
  function LastLines(lines: seq<string>, n: nat): (r: seq<string>)
    ensures |r| == if |lines| <= n then |lines| else n
    ensures r == lines[|lines| - |r|..]
  {
    if |lines| <= n then lines else lines[|lines| - n..]
  }

  /** The lines the inner loop of `createMonitoringSnapshot` prints: those with a non-blank `trim`. */
  function PrintedLines(lines: seq<string>): seq<string>
    decreases |lines|
  {
    if lines == [] then []
    else if Trim(lines[|lines| - 1]) != "" then PrintedLines(lines[..|lines| - 1]) + [lines[|lines| - 1]]
    else PrintedLines(lines[..|lines| - 1])
  }

  /** The recent-output lines the snapshot prints for a window's content. */
  function RecentLines(content: string): seq<string> {
    PrintedLines(LastLines(Split(content, '\n'), 10))
  }

  lemma {:induction false} PrintedLinesSpec(lines: seq<string>)
    ensures |PrintedLines(lines)| <= |lines|
    ensures forall l :: l in PrintedLines(lines) <==> l in lines && !IsBlank(l)
    decreases |lines|
  {
    if lines != [] {
      PrintedLinesSpec(lines[..|lines| - 1]);
      forall l
        ensures l in PrintedLines(lines) <==> l in lines && !IsBlank(l)
      {
        PrintedLineStep(lines, l);
      }
    }
  }

  /** The last line is printed exactly when it is not blank. */
  lemma PrintedLineStep(lines: seq<string>, l: string)
    requires lines != []
    requires |PrintedLines(lines[..|lines| - 1])| <= |lines| - 1
    requires l in PrintedLines(lines[..|lines| - 1]) <==> l in lines[..|lines| - 1] && !IsBlank(l)
    ensures |PrintedLines(lines)| <= |lines|
    ensures l in PrintedLines(lines) <==> l in lines && !IsBlank(l)
  {
    var init := lines[..|lines| - 1];
    var last := lines[|lines| - 1];
    var printed := PrintedLines(init);
    assert PrintedLines(lines) == if IsBlank(last) then printed else printed + [last] by {
      TrimOfBlank(last);
    }
    InInitOrLast(lines, l);
  }

  /** An element of a non-empty sequence is in all but its last element or is the last one. */
  lemma InInitOrLast(lines: seq<string>, l: string)
    requires lines != []
    ensures l in lines <==> l in lines[..|lines| - 1] || l == lines[|lines| - 1]
  {
    var init := lines[..|lines| - 1];
    if l in lines {
      var i :| 0 <= i < |lines| && lines[i] == l;
      if i < |init| {
        assert init[i] == l;
      }
    }
    if l in init {
      var i :| 0 <= i < |init| && init[i] == l;
      assert lines[i] == l;
    }
  }

  /**
   * The snapshot shows at most the last ten lines of a window's content, skips
   * exactly the whitespace-only ones, and keeps every other one of them.
   */
  lemma RecentLinesSpec(content: string)
    ensures |RecentLines(content)| <= 10
    ensures forall l :: l in RecentLines(content) <==> l in LastLines(Split(content, '\n'), 10) && !IsBlank(l)
  {
    PrintedLinesSpec(LastLines(Split(content, '\n'), 10));
  }

  const RecentPrefix := "    | "

  /** The `    | line` rows for the printed lines. */
  function Rows(lines: seq<string>): string
    decreases |lines|
  {
    if lines == [] then "" else Rows(lines[..|lines| - 1]) + RecentPrefix + lines[|lines| - 1] + "\n"
  }

  /** One more recent line adds its row exactly when its `trim` is non-empty. */
  lemma RowsStep(recent: seq<string>, k: int)
    requires 0 <= k < |recent|
    ensures Trim(recent[k]) != "" ==>
      Rows(PrintedLines(recent[..k + 1])) == Rows(PrintedLines(recent[..k])) + RecentPrefix + recent[k] + "\n"
    ensures Trim(recent[k]) == "" ==> Rows(PrintedLines(recent[..k + 1])) == Rows(PrintedLines(recent[..k]))
  {
    PrintedLinesStep(recent, k);
    if Trim(recent[k]) != "" {
      RowsAppend(PrintedLines(recent[..k]), recent[k]);
    }
  }

  lemma PrintedLinesStep(recent: seq<string>, k: int)
    requires 0 <= k < |recent|
    ensures Trim(recent[k]) != "" ==> PrintedLines(recent[..k + 1]) == PrintedLines(recent[..k]) + [recent[k]]
    ensures Trim(recent[k]) == "" ==> PrintedLines(recent[..k + 1]) == PrintedLines(recent[..k])
  {
    assert recent[..k + 1][..k] == recent[..k];
  }

  lemma RowsAppend(printed: seq<string>, line: string)
    ensures Rows(printed + [line]) == Rows(printed) + RecentPrefix + line + "\n"
  {
    assert (printed + [line])[..|printed|] == printed;
  }

  /** `${name}` for a name that may be `undefined`. */
  function NameText(name: Option<string>): string {
    match name
    case Some(s) => s
    case None => "undefined"
  }

  /** The heading line of one window: its index and name, and ` (ACTIVE)` exactly for the active window. */
  function WindowHeading(w: WindowStatus): string {
    "  Window " + NumberText(w.index) + ": " + NameText(w.name) + (if w.active then " (ACTIVE)" else "") + "\n"
  }

  /**
   * After the window's index and name, the heading reads ` (ACTIVE)` exactly
   * for the active window, and ends the line right away for any other.
   */
  lemma WindowHeadingMarksActive(w: WindowStatus)
    ensures var head := "  Window " + NumberText(w.index) + ": " + NameText(w.name);
      var h := WindowHeading(w);
      && |h| > |head| && h[..|head|] == head
      && (w.active <==> h[|head|..] == " (ACTIVE)\n")
      && (!w.active <==> h[|head|..] == "\n")
  {
    var head := "  Window " + NumberText(w.index) + ": " + NameText(w.name);
    var tail := (if w.active then " (ACTIVE)" else "") + "\n";
    assert WindowHeading(w) == head + tail;
    assert (head + tail)[..|head|] == head && (head + tail)[|head|..] == tail;
  }

  /** One window's block: heading, then the recent output when the content is non-empty, then a blank line. */
  function WindowBlock(w: WindowStatus): string {
    WindowHeading(w) + RecentSection(w.info.content) + "\n"
  }

  /** The recent-output section of a window block: present only for non-empty content. */
  function RecentSection(content: Option<string>): string {
    if Truthy(content) then "    Recent output:\n" + Rows(RecentLines(content.value)) else ""
  }

  function WindowBlocks(windows: seq<WindowStatus>): string
    decreases |windows|
  {
    if windows == [] then "" else WindowBlocks(windows[..|windows| - 1]) + WindowBlock(windows[|windows| - 1])
  }

  lemma WindowBlocksStep(windows: seq<WindowStatus>, j: int)
    requires 0 <= j < |windows|
    ensures WindowBlocks(windows[..j]) + WindowBlock(windows[j]) == WindowBlocks(windows[..j + 1])
  {
    assert windows[..j + 1][..j] == windows[..j];
  }

  function SessionHeading(s: SessionStatus): string {
    "Session: " + s.name + " (" + (if s.attached then "ATTACHED" else "DETACHED") + ")\n" + Repeat('-', 30) + "\n"
  }

  function SessionBlocks(sessions: seq<SessionStatus>): string
    decreases |sessions|
  {
    if sessions == [] then ""
    else
      SessionBlocks(sessions[..|sessions| - 1]) + SessionBlock(sessions[|sessions| - 1])
  }

  /** One session's block: its heading, then the block of each of its windows. */
  function SessionBlock(s: SessionStatus): string {
    SessionHeading(s) + WindowBlocks(s.windows)
  }

  lemma SessionBlocksStep(sessions: seq<SessionStatus>, i: int)
    requires 0 <= i < |sessions|
    ensures SessionBlocks(sessions[..i]) + SessionBlock(sessions[i]) == SessionBlocks(sessions[..i + 1])
  {
    assert sessions[..i + 1][..i] == sessions[..i];
  }

  function SnapshotHeading(timestamp: string): string {
    "Tmux Monitoring Snapshot - " + timestamp + "\n" + Repeat('=', 50) + "\n\n"
  }

  /** The text `createMonitoringSnapshot` renders for a status snapshot. */
  function SnapshotText(status: TmuxStatus): string {
    SnapshotHeading(status.timestamp) + SessionBlocks(status.sessions)
  }
}
