/**
 The tunnel daemon: the command loop of `Daemon::run` with `start_tunnel`, `stop_tunnel` and
 `stop_all`, cut at its awaits and interleaved with the steps of every tunnel task. `abort` takes
 effect at once. The write lock of the tunnel map is held across an await only while a cancel message
 is being sent, so the lock is held exactly in the Cancelling and Aborting states.
 */
module Daemon {
  import opened Base
  import opened TunnelTask
  import PC = ProjectConfig

  type TaskId = nat

  /** `task` is None while the placeholder task is installed; `chan` names the cancel channel and its task. */
  datatype Handle = Handle(
    status: Status, chan: TaskId, task: Option<TaskId>, protocol: string, localPort: U16, connectedAt: Option<int>)

  /** What is left of the current command. */
  datatype Op =
    | Start(name: string, cfg: PC.TunnelConfig)
    | StartIfAbsent(name: string, cfg: PC.TunnelConfig)
    | Stop(name: string)
    | Cache(name: string, cfg: PC.TunnelConfig)

  /** Where the command loop stands inside the current operation. */
  datatype Work =
    | Ready
    | Inserting(name: string, cfg: PC.TunnelConfig)
    | Spawning(name: string, id: TaskId)
    | Installing(name: string, id: TaskId)
    | Cancelling(victims: seq<Handle>)
    | Aborting(victims: seq<Handle>)
    | Answering

  datatype Phase = Serving | Draining | Exited

  datatype State = State(
    tunnels: map<string, Handle>,
    tasks: map<TaskId, Run>,
    aborted: set<TaskId>,
    next: TaskId,
    cache: map<string, PC.TunnelConfig>,
    todo: seq<Op>,
    work: Work,
    phase: Phase)

  predicate Locked(d: State) {
    d.work.Cancelling? || d.work.Aborting?
  }

  predicate AtCommand(d: State) {
    d.work.Ready? && d.todo == [] && d.phase.Serving?
  }

  // ----- the command loop

  function ProtocolName(p: PC.Protocol): string {
    match p
    case Http(_, _, _) => "http"
    case Https(_, _, _) => "https"
    case Tcp(_, _) => "tcp"
    case Tls(_, _, _) => "tls"
  }

  function NewHandle(id: TaskId, cfg: PC.TunnelConfig): Handle {
    Handle(Starting, id, None, ProtocolName(cfg.protocol), cfg.protocol.localPort, None)
  }

  /** The next step of the command loop inside a command; None when it has to wait or the command is done. */
  function MainStep(d: State): Option<State> {
    match d.work
    case Ready => if d.todo == [] then None else Some(Begin(d.(todo := d.todo[1..]), d.todo[0]))
    case Inserting(name, cfg) =>
      Some(d.(tunnels := d.tunnels[name := NewHandle(d.next, cfg)], next := d.next + 1, work := Spawning(name, d.next)))
    case Spawning(name, id) => Some(d.(tasks := d.tasks[id := NewRun(name)], work := Installing(name, id)))
    case Installing(name, id) =>
      Some(d.(tunnels := if name in d.tunnels then d.tunnels[name := d.tunnels[name].(task := Some(id))] else d.tunnels,
              work := Ready))
    case Cancelling(victims) =>
      if victims == [] then Some(d.(work := Ready, phase := if d.phase.Draining? then Exited else d.phase))
      else
        var id := victims[0].chan;
        if id !in d.tasks then Some(d.(work := Aborting(victims)))
        else if HasRoom(d.tasks[id]) then
          Some(d.(tasks := d.tasks[id := Send(d.tasks[id])], work := Aborting(victims)))
        else None
    case Aborting(victims) =>
      if victims == [] then None
      else Some(d.(aborted := d.aborted + (if victims[0].task.Some? then {victims[0].task.value} else {}),
                   work := Cancelling(victims[1..])))
    case Answering => None
  }

  function Begin(d: State, op: Op): State {
    match op
    case Start(name, cfg) => if name in d.tunnels then d else d.(work := Inserting(name, cfg))
    case StartIfAbsent(name, cfg) => if name in d.tunnels then d else d.(todo := [Start(name, cfg)] + d.todo)
    case Stop(name) =>
      if name in d.tunnels then d.(tunnels := d.tunnels - {name}, work := Cancelling([d.tunnels[name]])) else d
    case Cache(name, cfg) => d.(cache := d.cache[name := cfg])
  }

  type Loaded = map<string, Option<PC.TunnelConfig>>

  /** Commands with what they read from disk: a stored tunnel, or a file's enabled tunnels with their conversions. */
  datatype Command =
    | StartTunnel(name: string, stored: Option<PC.TunnelConfig>)
    | StopTunnel(name: string)
    | ReloadTunnel(name: string, file: Option<Loaded>)
    | GetStatus
    | Reload(file: Option<Loaded>)
    | Shutdown

  /** Iteration order of a hash map is arbitrary. */
  ghost predicate Lists(order: seq<string>, items: set<string>) {
    (forall i, j | 0 <= i < j < |order| :: order[i] != order[j]) && (forall x :: x in order <==> x in items)
  }

  function StopOps(names: seq<string>): seq<Op> {
    seq(|names|, i requires 0 <= i < |names| => Stop(names[i]))
  }

  function StartOps(file: Loaded, names: seq<string>): seq<Op>
    requires forall n | n in names :: n in file
  {
    if names == [] then []
    else
      (match file[names[0]] case Some(cfg) => [Cache(names[0], cfg), StartIfAbsent(names[0], cfg)] case None => [])
      + StartOps(file, names[1..])
  }

  ghost predicate Accept(d: State, cmd: Command, d': State) {
    && AtCommand(d)
    && match cmd
       case StartTunnel(name, stored) =>
         d' == if name in d.cache then d.(todo := [Start(name, d.cache[name])])
               else if stored.Some? then d.(todo := [Start(name, stored.value)])
               else d
       case StopTunnel(name) => d' == d.(todo := [Stop(name)])
       case ReloadTunnel(name, file) =>
         d' == if file.Some? && name in file.value && file.value[name].Some? then
                 var cfg := file.value[name].value;
                 d.(todo := [Cache(name, cfg), Stop(name), Start(name, cfg)])
               else d
       case GetStatus => d' == d.(work := Answering)
       case Reload(file) =>
         if file.None? then d' == d
         else exists gone, kept ::
             && Lists(gone, d.tunnels.Keys - file.value.Keys) && Lists(kept, file.value.Keys)
             && d' == d.(todo := StopOps(gone) + StartOps(file.value, kept))
       case Shutdown =>
         exists names :: Lists(names, d.tunnels.Keys) && d' == Drained(d, names)
  }

  /** `stop_all` has taken the lock and the whole map. */
  function Drained(d: State, names: seq<string>): State
    requires forall n | n in names :: n in d.tunnels
  {
    d.(tunnels := map[], phase := Draining,
       work := Cancelling(seq(|names|, i requires 0 <= i < |names| => d.tunnels[names[i]])))
  }

  // ----- tunnel tasks

  /** `update_status` on one handle. */
  function UpdateStatus(h: Handle, status: Status, now: int): Handle {
    h.(status := status,
       connectedAt := if status.Connected? then Some(now) else if status.Reconnecting? then h.connectedAt else None)
  }

  function Updated(tunnels: map<string, Handle>, name: string, status: Option<Status>, now: int): map<string, Handle> {
    if status.Some? && name in tunnels then tunnels[name := UpdateStatus(tunnels[name], status.value, now)] else tunnels
  }

  /** A task that was not aborted makes a step; updating the map needs the lock. */
  ghost predicate TaskStep(d: State, id: TaskId, input: Input, now: int, d': State) {
    && id in d.tasks && id !in d.aborted
    && var effect := Act(d.tasks[id], input);
       && effect.Some? && (effect.value.status.Some? ==> !Locked(d))
       && d' == d.(tasks := d.tasks[id := effect.value.run],
                   tunnels := Updated(d.tunnels, d.tasks[id].name, effect.value.status, now))
  }

  /** A step between two commands. */
  ghost predicate InnerStep(d: State, d': State) {
    MainStep(d) == Some(d') || exists id, input, now :: TaskStep(d, id, input, now, d')
  }

  /** The client has taken the answer to GetStatus, or is gone. */
  ghost predicate AnswerTaken(d: State, d': State) {
    d.work.Answering? && d' == d.(work := Ready)
  }

  ghost predicate Step(d: State, d': State) {
    InnerStep(d, d') || AnswerTaken(d, d') || exists cmd :: Accept(d, cmd, d')
  }

  /** The daemon starts by starting the configured tunnels. */
  ghost predicate IsInit(d: State) {
    && d == State(map[], map[], {}, 0, map[], d.todo, Ready, Serving)
    && forall op | op in d.todo :: op.Start? || op.Cache?
  }

  ghost predicate IsRun(ds: seq<State>) {
    |ds| > 0 && IsInit(ds[0]) && forall i | 0 <= i < |ds| - 1 :: Step(ds[i], ds[i + 1])
  }
}
