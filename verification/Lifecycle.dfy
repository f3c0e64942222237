/** Backend lifecycle: the headless service with its generation-counted monitors, the GUI's
    remote worker, and the two composed over a command queue and a FIFO state channel.

    The backend itself is abstract: starting makes it running, it may stop at any time, and a
    monitor's wait returns only while it is stopped. Every section under the service's
    lifecycle lock is split at its publish, so the backend can stop in between. */
module Lifecycle {
  import opened Wrappers

  // ---------- the service ----------

  datatype Monitor = InWait | Woken

  /** Which lifecycle section holds the lock between its check and its publish. */
  datatype Lock = Free | Starting | Stopping

  datatype Server = Server(
    running: bool,
    generation: nat,
    monitors: map<nat, Monitor>,
    lock: Lock,
    published: bool)

  const INITIAL_SERVER := Server(false, 0, map[], Free, false)

  /** `_start_backend` up to and including `backend.start()`. */
  function BeginStart(s: Server): Server
    requires s.lock.Free?
  {
    if s.running then s else s.(generation := s.generation + 1, running := true, lock := Starting)
  }

  /** `_start_backend` from its publish on: the monitor of the new generation is spawned. */
  function FinishStart(s: Server): Server {
    s.(published := true, monitors := s.monitors[s.generation := InWait], lock := Free)
  }

  function BeginStop(s: Server): Server
    requires s.lock.Free?
  {
    if s.running then s.(lock := Stopping) else s
  }

  /** `_stop_backend` from its publish on; the backend stops some time after it is asked. */
  function FinishStop(s: Server): Server {
    s.(published := true, lock := Free)
  }

  function WakeMonitor(s: Server, g: nat): Server {
    if g in s.monitors && s.monitors[g].InWait? && !s.running then s.(monitors := s.monitors[g := Woken]) else s
  }

  /** The end of `_monitor_backend`: only the current generation publishes idle. */
  function FinishMonitor(s: Server, g: nat): Server
    requires s.lock.Free? && g in s.monitors
  {
    s.(monitors := s.monitors - {g}, published := if g == s.generation then false else s.published)
  }

  /** "Not running" as the last published state implies a stopped backend, and "running" that
      the current generation's monitor has still to report it stopped; while a start holds the
      lock its own publish is still to come. */
  ghost predicate ServerInv(s: Server) {
    && (forall g :: g in s.monitors ==> g <= s.generation)
    && (s.lock.Starting? ==> s.generation !in s.monitors)
    && (!s.lock.Starting? ==>
          && (!s.published ==> !s.running)
          && (s.published ==> s.generation in s.monitors)
          && (s.generation in s.monitors && s.monitors[s.generation].Woken? ==> !s.running))
    && (s.lock.Stopping? ==> s.published)
  }

  class HeadlessRuntimeService {
    var backendRunning: bool
    var monitorGeneration: nat
    var monitors: map<nat, Monitor>
    var published: bool

    /** The service between lifecycle sections. */
    ghost function Value(): Server
      reads this
    {
      Server(backendRunning, monitorGeneration, monitors, Free, published)
    }

    constructor ()
      ensures Value() == INITIAL_SERVER
    {
      backendRunning, monitorGeneration, monitors, published := false, 0, map[], false;
    }

    /** `_start_backend` */
    method StartBackend() returns (started: bool)
      modifies this
      ensures started == !old(backendRunning)
      ensures Value() == if started then FinishStart(BeginStart(old(Value()))) else old(Value())
      ensures old(ServerInv(Value())) ==> ServerInv(Value())
    {
      if backendRunning {
        return false;
      }
      monitorGeneration := monitorGeneration + 1;
      backendRunning := true;
      published := true;
      monitors := monitors[monitorGeneration := InWait];
      started := true;
    }

    /** `_stop_backend` */
    method StopBackend() returns (stopped: bool)
      modifies this
      ensures stopped == old(backendRunning)
      ensures Value() == if stopped then FinishStop(BeginStop(old(Value()))) else old(Value())
      ensures old(ServerInv(Value())) ==> ServerInv(Value())
    {
      if !backendRunning {
        return false;
      }
      published := true;
      stopped := true;
    }

    /** `_monitor_backend` once its wait has returned and it holds the lock. */
    method ReportStopped(generation: nat) returns (idle: bool)
      requires generation in monitors
      modifies this
      ensures idle <==> generation == old(monitorGeneration)
      ensures Value() == FinishMonitor(old(Value()), generation)
      ensures old(ServerInv(Value())) && old(monitors[generation]).Woken? ==> ServerInv(Value())
    {
      monitors := monitors - {generation};
      if generation != monitorGeneration {
        return false;
      }
      published := false;
      idle := true;
    }
  }

  // ---------- the client ----------

  /** `_stopped` is the event that `wait` waits for. */
  datatype Client = Client(backendRunning: bool, startRequested: bool, seenRunning: bool, stopped: bool)

  const INITIAL_CLIENT := Client(false, false, false, true)

  predicate IsRunning(c: Client) {
    c.backendRunning || c.startRequested
  }

  /** `start`: true when the command is sent. */
  function RequestStart(c: Client): (Client, bool) {
    if IsRunning(c) then (c, false)
    else (c.(startRequested := true, seenRunning := false, stopped := false), true)
  }

  /** `_on_message` for a state message: true when `finished` is emitted. */
  function OnState(c: Client, running: bool): (Client, bool) {
    var seen := c.(backendRunning := running);
    if running then (seen.(seenRunning := true), false)
    else if c.seenRunning then
      (seen.(startRequested := false, seenRunning := false, stopped := true), IsRunning(c))
    else (seen, false)
  }

  /** The two running flags are always the same flag, and `wait` blocks exactly while a start
      is requested. */
  predicate ClientInv(c: Client) {
    c.seenRunning == c.backendRunning && c.stopped == !c.startRequested
  }

  class RemoteStreamWorker {
    var backendRunning: bool
    var startRequested: bool
    var seenRunningSinceStart: bool
    var stopped: bool

    ghost function Value(): Client
      reads this
    {
      Client(backendRunning, startRequested, seenRunningSinceStart, stopped)
    }

    constructor ()
      ensures Value() == INITIAL_CLIENT && ClientInv(Value())
    {
      backendRunning, startRequested, seenRunningSinceStart, stopped := false, false, false, true;
    }

    method Start() returns (sent: bool)
      modifies this
      ensures (Value(), sent) == RequestStart(old(Value()))
      ensures old(ClientInv(Value())) ==> ClientInv(Value())
    {
      if backendRunning || startRequested {
        return false;
      }
      startRequested, seenRunningSinceStart, stopped := true, false, false;
      sent := true;
    }

    method Stop() returns (sent: bool)
      ensures sent == IsRunning(Value())
    {
      sent := backendRunning || startRequested;
    }

    /** With equal flags, `finished` fires exactly on a running-to-idle edge. */
    method OnStateMessage(running: bool) returns (finished: bool)
      modifies this
      ensures (Value(), finished) == OnState(old(Value()), running)
      ensures old(ClientInv(Value())) ==>
                ClientInv(Value()) && (finished <==> old(backendRunning) && !running)
    {
      var wasActive := backendRunning || startRequested;
      backendRunning := running;
      finished := false;
      if running {
        seenRunningSinceStart := true;
      } else if seenRunningSinceStart {
        startRequested, seenRunningSinceStart, stopped := false, false, true;
        finished := wasActive;
      }
    }
  }

  // ---------- the composition ----------

  datatype Command = Start | Stop

  /** A published state. `tag` is history: how many of this client's start commands the service
      had handled when it published. */
  datatype StateMessage = StateMessage(running: bool, tag: nat)

  /** `startsSent`, `startsHandled`, `viewTag`, `finished` and `edges` are history. */
  datatype System = System(
    server: Server,
    client: Client,
    connected: bool,
    commands: seq<Command>,
    channel: seq<StateMessage>,
    startsSent: nat,
    startsHandled: nat,
    viewTag: nat,
    finished: nat,
    edges: nat)

  datatype Action =
    | Connect
    | ClientStart
    | ClientStop
    | ClientReceive
    | TakeCommand
    | ForeignStart
    | ForeignStop
    | FinishSection
    | BackendStops
    | MonitorWakes(generation: nat)
    | MonitorReports(generation: nat)

  const INITIAL_SYSTEM := System(INITIAL_SERVER, INITIAL_CLIENT, false, [], [], 0, 0, 0, 0, 0)

  /** A publish reaches the channel of a connected client. */
  function Publish(s: System, server: Server): System {
    s.(server := server,
       channel := if s.connected then s.channel + [StateMessage(server.published, s.startsHandled)] else s.channel)
  }

  function Next(s: System, a: Action): System {
    match a
    case Connect =>
      if s.connected then s
      else s.(connected := true, channel := [StateMessage(s.server.published, s.startsHandled)])
    case ClientStart =>
      var (c, sent) := RequestStart(s.client);
      if !s.connected || !sent then s
      else s.(client := c, commands := s.commands + [Start], startsSent := s.startsSent + 1)
    case ClientStop =>
      if s.connected && IsRunning(s.client) then s.(commands := s.commands + [Stop]) else s
    case ClientReceive =>
      if |s.channel| == 0 then s
      else
        var m := s.channel[0];
        var (c, emitted) := OnState(s.client, m.running);
        s.(client := c, channel := s.channel[1..], viewTag := m.tag,
           finished := if emitted then s.finished + 1 else s.finished,
           edges := if s.client.backendRunning && !m.running then s.edges + 1 else s.edges)
    case TakeCommand =>
      if !s.server.lock.Free? || |s.commands| == 0 then s
      else if s.commands[0].Start? then
        s.(commands := s.commands[1..], server := BeginStart(s.server), startsHandled := s.startsHandled + 1)
      else s.(commands := s.commands[1..], server := BeginStop(s.server))
    case ForeignStart => if s.server.lock.Free? then s.(server := BeginStart(s.server)) else s
    case ForeignStop => if s.server.lock.Free? then s.(server := BeginStop(s.server)) else s
    case FinishSection =>
      if s.server.lock.Starting? then Publish(s, FinishStart(s.server))
      else if s.server.lock.Stopping? then Publish(s, FinishStop(s.server))
      else s
    case BackendStops => s.(server := s.server.(running := false))
    case MonitorWakes(g) => s.(server := WakeMonitor(s.server, g))
    case MonitorReports(g) =>
      if !s.server.lock.Free? || g !in s.server.monitors || !s.server.monitors[g].Woken? then s
      else if g == s.server.generation then Publish(s, FinishMonitor(s.server, g))
      else s.(server := FinishMonitor(s.server, g))
  }

  function RunFrom(s: System, actions: seq<Action>): System
    decreases |actions|
  {
    if |actions| == 0 then s else RunFrom(Next(s, actions[0]), actions[1..])
  }

  function Run(actions: seq<Action>): System {
    RunFrom(INITIAL_SYSTEM, actions)
  }

  // ---------- invariants of every run ----------

  /** The last state on its way to the client, or the client's own view. */
  function LastState(s: System): bool {
    if |s.channel| > 0 then s.channel[|s.channel| - 1].running else s.client.backendRunning
  }

  ghost predicate RunningInChannel(s: System) {
    exists k :: 0 <= k < |s.channel| && s.channel[k].running
  }

  ghost predicate Inv(s: System) {
    && ServerInv(s.server)
    && ClientInv(s.client)
    && s.finished == s.edges
    && (s.connected ==> LastState(s) == s.server.published)
    && (!s.connected ==> !IsRunning(s.client) && s.channel == [] && s.commands == [])
    && (s.client.startRequested && !s.client.backendRunning ==>
          Start in s.commands || s.server.lock.Starting? || RunningInChannel(s))
  }

  /** Messages are published at the end of the channel, so one on its way stays on its way. */
  lemma PublishKeepsRunning(s: System, server: Server)
    requires RunningInChannel(s) || server.published
    requires s.connected
    ensures RunningInChannel(Publish(s, server))
  {
    var t := Publish(s, server);
    if RunningInChannel(s) {
      var k :| 0 <= k < |s.channel| && s.channel[k].running;
      assert t.channel[k] == s.channel[k];
    } else {
      assert t.channel[|s.channel|].running;
    }
  }

  lemma ServerKeepsInv(s: Server)
    requires ServerInv(s)
    ensures s.lock.Free? ==> ServerInv(BeginStart(s)) && ServerInv(BeginStop(s))
    ensures s.lock.Starting? ==> ServerInv(FinishStart(s))
    ensures s.lock.Stopping? ==> ServerInv(FinishStop(s))
    ensures ServerInv(s.(running := false))
    ensures forall g :: ServerInv(WakeMonitor(s, g))
    ensures forall g :: s.lock.Free? && g in s.monitors && s.monitors[g].Woken? ==> ServerInv(FinishMonitor(s, g))
  {
  }

  lemma ReceiveKeepsInv(s: System)
    requires Inv(s) && |s.channel| > 0
    ensures Inv(Next(s, ClientReceive))
  {
    hide ServerInv;
    var t := Next(s, ClientReceive);
    if t.client.startRequested && !t.client.backendRunning && RunningInChannel(s) {
      var k :| 0 <= k < |s.channel| && s.channel[k].running;
      assert t.channel[k - 1] == s.channel[k];
    }
  }

  lemma TakeKeepsInv(s: System)
    requires Inv(s) && s.server.lock.Free? && |s.commands| > 0
    ensures Inv(Next(s, TakeCommand))
  {
    ServerKeepsInv(s.server);
    var t := Next(s, TakeCommand);
    assert Start in s.commands[1..] || s.commands[0].Start? || Start !in s.commands;
    if s.commands[0].Start? && s.server.running && !s.client.backendRunning {
      assert s.channel[|s.channel| - 1].running;
      assert RunningInChannel(t);
    } else if RunningInChannel(s) {
      assert t.channel == s.channel;
    }
  }

  lemma StepKeepsInv(s: System, a: Action)
    requires Inv(s)
    ensures Inv(Next(s, a))
  {
    hide ServerInv, BeginStart, BeginStop, WakeMonitor, FinishMonitor, RunningInChannel;
    ServerKeepsInv(s.server);
    match a
    case ClientReceive =>
      if |s.channel| > 0 {
        ReceiveKeepsInv(s);
      }
    case TakeCommand =>
      if s.server.lock.Free? && |s.commands| > 0 {
        TakeKeepsInv(s);
      }
    case FinishSection =>
      if s.connected && !s.server.lock.Free? {
        PublishKeepsRunning(s, if s.server.lock.Starting? then FinishStart(s.server) else FinishStop(s.server));
      }
    case MonitorReports(g) => ReportKeepsInv(s, g);
    case BackendStops => SameChannel(s, Next(s, a));
    case MonitorWakes(g) => WakeKeepsPublished(s.server, g); SameChannel(s, Next(s, a));
    case ForeignStart =>
      if s.server.lock.Free? {
        BeginKeepsPublished(s.server);
        SameChannel(s, Next(s, a));
      }
    case ForeignStop =>
      if s.server.lock.Free? {
        BeginKeepsPublished(s.server);
        SameChannel(s, Next(s, a));
      }
    case ClientStart => SameChannel(s, Next(s, a));
    case ClientStop => SameChannel(s, Next(s, a));
    case Connect =>
  }

  lemma SameChannel(s: System, t: System)
    requires s.channel == t.channel
    ensures RunningInChannel(s) == RunningInChannel(t)
  {
  }

  lemma WakeKeepsPublished(s: Server, g: nat)
    ensures WakeMonitor(s, g).published == s.published && WakeMonitor(s, g).lock == s.lock
  {
  }

  lemma BeginKeepsPublished(s: Server)
    requires s.lock.Free?
    ensures BeginStart(s).published == s.published && BeginStop(s).published == s.published
  {
  }

  lemma ReportKeepsInv(s: System, g: nat)
    requires Inv(s)
    ensures Inv(Next(s, MonitorReports(g)))
  {
    hide ServerInv;
    ServerKeepsInv(s.server);
    var t := Next(s, MonitorReports(g));
    if RunningInChannel(s) {
      var k :| 0 <= k < |s.channel| && s.channel[k].running;
      assert t.channel[k] == s.channel[k];
    }
  }

  lemma {:induction false} RunKeepsInv(s: System, actions: seq<Action>)
    requires Inv(s)
    ensures Inv(RunFrom(s, actions))
    decreases |actions|
  {
    hide Inv, Next;
    if |actions| > 0 {
      StepKeepsInv(s, actions[0]);
      RunKeepsInv(Next(s, actions[0]), actions[1..]);
    }
  }

  lemma InitialInv()
    ensures Inv(INITIAL_SYSTEM)
  {
  }

  /** In every run, with any other clients: published states tell the truth about the backend
      up to the pending monitor, the client's two flags are equal, and `finished` has fired
      exactly once for each running-to-idle edge the client has seen. */
  lemma LifecycleAgrees(actions: seq<Action>)
    ensures ServerInv(Run(actions).server)
    ensures ClientInv(Run(actions).client)
    ensures Run(actions).finished == Run(actions).edges
  {
    InitialInv();
    RunKeepsInv(INITIAL_SYSTEM, actions);
  }

  /** Nothing is on its way and no thread can move unless the backend or a client does. */
  ghost predicate Quiescent(s: System) {
    && s.connected && |s.commands| == 0 && |s.channel| == 0 && s.server.lock.Free?
    && forall g :: g in s.server.monitors ==> s.server.monitors[g].InWait? && s.server.running
  }

  /** At quiescence the client is right about the backend. */
  lemma QuiescentClientAgrees(actions: seq<Action>)
    requires Quiescent(Run(actions))
    ensures var s := Run(actions);
            && s.client.backendRunning == s.server.running
            && IsRunning(s.client) == s.server.running
  {
    hide RunFrom, Next;
    InitialInv();
    RunKeepsInv(INITIAL_SYSTEM, actions);
  }
}
