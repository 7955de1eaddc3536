/**
 * The record shapes shared by the gateway, the scheduler and the engineer
 * facade. `Option` fields are the optional (`?`) members and the members that
 * a destructuring assignment may leave `undefined`.
 */
module Types {
  import opened Wrappers
  import opened JsText

  /** One window of a session, built from one line of `list-windows` output. */
  datatype TmuxWindow = TmuxWindow(
    session_name: string,
    window_index: Number,
    window_name: Option<string>,
    active: bool,
    panes: Number,
    layout: Option<string>)

  /** One session, built from one line of `list-sessions` output, with its windows. */
  datatype TmuxSession = TmuxSession(name: string, windows: seq<TmuxWindow>, attached: bool)

  /** A point-in-time projection of one window: its metadata and either content or an error. */
  datatype TmuxWindowInfo = TmuxWindowInfo(
    name: string,
    active: bool,
    panes: Number,
    layout: Option<string>,
    content: Option<string>,
    error: Option<string>)

  /** One window entry of a full status snapshot. */
  datatype WindowStatus = WindowStatus(index: Number, name: Option<string>, active: bool, info: TmuxWindowInfo)

  /** One session entry of a full status snapshot. */
  datatype SessionStatus = SessionStatus(name: string, attached: bool, windows: seq<WindowStatus>)

  /** A full status snapshot: every session, every window, every window's info. */
  datatype TmuxStatus = TmuxStatus(timestamp: string, sessions: seq<SessionStatus>)

  /** What a caller asks the scheduler for; absent members are `None`. */
  datatype ScheduleOptions = ScheduleOptions(
    minutes: int,
    note: string,
    target_window: Option<string>,
    pm_session_name: Option<string>,
    pm_window_index: Option<int>)

  /** The arguments of a two-phase message delivery; the delay is in milliseconds. */
  datatype MessageOptions = MessageOptions(target: string, message: string, delay: Option<int>)

  datatype EngineerSessionConfig = EngineerSessionConfig(session_name: string, project_path: string, briefing: Option<string>)

  datatype Priority = High | Medium | Low

  datatype ProjectIdea = ProjectIdea(
    title: string,
    description: string,
    requirements: seq<string>,
    priority: Priority,
    estimated_hours: Option<int>,
    assigned_to: Option<string>)

  datatype OrchestratorConfig = OrchestratorConfig(
    safety_mode: bool,
    max_lines_capture: int,
    default_schedule_minutes: int,
    orchestrator_window: string)

  /** A partial configuration: the members a caller passes to the gateway's constructor. */
  datatype ConfigOverrides = ConfigOverrides(
    safety_mode: Option<bool>,
    max_lines_capture: Option<int>,
    default_schedule_minutes: Option<int>,
    orchestrator_window: Option<string>)

  /** The address `session:index` that routes input and output to one window. */
  function Target(session: string, index: Number): string {
    session + ":" + NumberText(index)
  }
}
