/** Stale idle states. A client that asks for a start may still have older states on their way
    to it. With this client the only one to command the service, no idle published before the
    service handled the request ever ends it; with another client, one can. */
module LifecycleRequests {
  import opened Lifecycle

  predicate IsForeign(a: Action) {
    a.ForeignStart? || a.ForeignStop?
  }

  predicate SoleCommander(actions: seq<Action>) {
    forall k :: 0 <= k < |actions| ==> !IsForeign(actions[k])
  }

  // ---------- tags along the channel ----------

  /** A tag grows by one where an idle state is followed by a running one, and nowhere else. */
  function Following(running: bool, tag: nat, next: bool): nat {
    if !running && next then tag + 1 else tag
  }

  predicate Chain(running: bool, tag: nat, channel: seq<StateMessage>)
    decreases |channel|
  {
    |channel| > 0 ==>
      && channel[0].tag == Following(running, tag, channel[0].running)
      && Chain(channel[0].running, channel[0].tag, channel[1..])
  }

  function LastRunning(running: bool, channel: seq<StateMessage>): bool {
    if |channel| > 0 then channel[|channel| - 1].running else running
  }

  function LastTag(tag: nat, channel: seq<StateMessage>): nat {
    if |channel| > 0 then channel[|channel| - 1].tag else tag
  }

  lemma {:induction false} ChainAppend(running: bool, tag: nat, channel: seq<StateMessage>, m: StateMessage)
    requires Chain(running, tag, channel)
    requires m.tag == Following(LastRunning(running, channel), LastTag(tag, channel), m.running)
    ensures Chain(running, tag, channel + [m])
    decreases |channel|
  {
    if |channel| == 0 {
      assert [m][1..] == [];
    } else {
      ChainAppend(channel[0].running, channel[0].tag, channel[1..], m);
      assert (channel + [m])[1..] == channel[1..] + [m];
    }
  }

  /** Tags never go back, and from an idle view on no running state keeps its tag. */
  lemma {:induction false} ChainGrows(running: bool, tag: nat, channel: seq<StateMessage>)
    requires Chain(running, tag, channel)
    ensures tag <= LastTag(tag, channel)
    ensures !running && LastTag(tag, channel) == tag ==> !LastRunning(running, channel)
    decreases |channel|
  {
    if |channel| > 0 {
      ChainGrows(channel[0].running, channel[0].tag, channel[1..]);
    }
  }

  function StartsIn(commands: seq<Command>): nat {
    if |commands| == 0 then 0 else (if commands[0].Start? then 1 else 0) + StartsIn(commands[1..])
  }

  lemma {:induction false} StartsInAppend(commands: seq<Command>, c: Command)
    ensures StartsIn(commands + [c]) == StartsIn(commands) + if c.Start? then 1 else 0
  {
    if |commands| == 0 {
      assert [c][1..] == [];
    } else {
      StartsInAppend(commands[1..], c);
      assert (commands + [c])[1..] == commands[1..] + [c];
    }
  }

  // ---------- one commanding client ----------

  predicate Awaiting(c: Client) {
    c.startRequested && !c.backendRunning
  }

  ghost predicate SoleInv(s: System) {
    && Inv(s)
    && s.startsHandled <= s.startsSent
    && StartsIn(s.commands) == s.startsSent - s.startsHandled
    && s.viewTag + (if Awaiting(s.client) then 1 else 0) == s.startsSent
    && Chain(s.client.backendRunning, s.viewTag, s.channel)
    && (if s.server.lock.Starting? then
          !s.server.published && LastTag(s.viewTag, s.channel) + 1 == s.startsHandled
        else LastTag(s.viewTag, s.channel) == s.startsHandled)
    && (!s.connected ==> s.startsSent == 0 && s.server == INITIAL_SERVER)
  }

  lemma LastStateIsPublished(s: System)
    requires Inv(s) && s.connected
    ensures LastRunning(s.client.backendRunning, s.channel) == s.server.published
  {
  }

  lemma PublishKeepsSoleInv(s: System, server: Server)
    requires SoleInv(s) && s.connected
    requires Inv(Publish(s, server)) && !server.lock.Starting?
    requires s.server.lock.Starting? ==> server.published
    requires !s.server.lock.Starting? && server.published ==> s.server.published
    ensures SoleInv(Publish(s, server))
  {
    hide Inv, Chain;
    LastStateIsPublished(s);
    ChainAppend(s.client.backendRunning, s.viewTag, s.channel, StateMessage(server.published, s.startsHandled));
  }

  lemma ReceiveKeepsSoleInv(s: System)
    requires SoleInv(s) && |s.channel| > 0
    ensures SoleInv(Next(s, ClientReceive))
  {
    StepKeepsInv(s, ClientReceive);
    ClientOf(s);
    hide Inv;
    var m := s.channel[0];
    ChainGrows(m.running, m.tag, s.channel[1..]);
  }

  lemma ClientOf(s: System)
    requires Inv(s)
    ensures ClientInv(s.client)
  {
  }

  lemma StartMeetsIdleService(s: System)
    requires SoleInv(s) && s.server.lock.Free? && |s.commands| > 0 && s.commands[0].Start?
    ensures s.connected && !s.server.published && !s.server.running
    ensures s.startsHandled + 1 == s.startsSent
  {
    hide Chain;
    ChainGrows(s.client.backendRunning, s.viewTag, s.channel);
    LastStateIsPublished(s);
  }

  lemma TakeKeepsSoleInv(s: System)
    requires SoleInv(s) && s.server.lock.Free? && |s.commands| > 0
    ensures SoleInv(Next(s, TakeCommand))
  {
    StepKeepsInv(s, TakeCommand);
    if s.commands[0].Start? {
      StartMeetsIdleService(s);
    }
    hide Inv, Chain;
  }

  lemma SectionsHavePublishers(s: System)
    requires Inv(s)
    ensures s.server.lock.Stopping? ==> s.server.published
  {
  }

  lemma SoleStepKeepsInv(s: System, a: Action)
    requires SoleInv(s) && !IsForeign(a)
    ensures SoleInv(Next(s, a))
  {
    StepKeepsInv(s, a);
    SectionsHavePublishers(s);
    hide Inv, Chain, StartsIn, ServerInv;
    match a
    case ClientReceive =>
      if |s.channel| > 0 {
        ReceiveKeepsSoleInv(s);
      }
    case TakeCommand =>
      if s.server.lock.Free? && |s.commands| > 0 {
        TakeKeepsSoleInv(s);
      }
    case FinishSection =>
      if s.server.lock.Starting? {
        PublishKeepsSoleInv(s, FinishStart(s.server));
      } else if s.server.lock.Stopping? {
        PublishKeepsSoleInv(s, FinishStop(s.server));
      }
    case MonitorReports(g) =>
      if s.server.lock.Free? && g in s.server.monitors && s.server.monitors[g].Woken? && g == s.server.generation {
        PublishKeepsSoleInv(s, FinishMonitor(s.server, g));
      }
    case ClientStart => StartsInAppend(s.commands, Start);
    case ClientStop => StartsInAppend(s.commands, Stop);
    case Connect => ConnectKeepsSoleInv(s);
    case _ =>
  }

  lemma ConnectKeepsSoleInv(s: System)
    requires SoleInv(s)
    ensures SoleInv(Next(s, Connect))
  {
    StepKeepsInv(s, Connect);
    if !s.connected {
      UnconnectedView(s);
      hide Inv;
      assert Next(s, Connect).channel[1..] == [];
    }
  }

  lemma UnconnectedView(s: System)
    requires Inv(s) && !s.connected
    ensures !IsRunning(s.client) && s.channel == [] && s.commands == []
  {
  }

  lemma {:induction false} SoleRunKeepsInv(s: System, actions: seq<Action>)
    requires SoleInv(s) && SoleCommander(actions)
    ensures SoleInv(RunFrom(s, actions))
    decreases |actions|
  {
    hide SoleInv, Next;
    if |actions| > 0 {
      SoleStepKeepsInv(s, actions[0]);
      SoleRunKeepsInv(Next(s, actions[0]), actions[1..]);
    }
  }

  /** With one commanding client, whenever a start command reaches the service, the service is
      idle, and the command is the only one that client has unhandled. */
  lemma StartFindsIdleService(actions: seq<Action>)
    requires SoleCommander(actions)
    requires var s := Run(actions); s.server.lock.Free? && |s.commands| > 0 && s.commands[0].Start?
    ensures var s := Run(actions);
            && s.connected && !s.server.published && !s.server.running
            && s.startsHandled + 1 == s.startsSent
  {
    hide RunFrom, SoleInv, Inv;
    InitialSoleInv();
    SoleRunKeepsInv(INITIAL_SYSTEM, actions);
    StartMeetsIdleService(Run(actions));
  }

  /** What the invariant says about an idle state at the head of the channel. */
  lemma IdleAtHead(s: System)
    requires SoleInv(s) && s.client.startRequested && |s.channel| > 0 && !s.channel[0].running
    ensures s.channel[0].tag == if s.client.backendRunning then s.startsSent else s.startsSent - 1
    ensures ClientInv(s.client)
  {
    ClientOf(s);
    hide Inv;
  }

  /** With one commanding client, an idle state ends the client's request exactly when the
      service published it after handling every start this client sent; an older one neither
      ends the request nor emits `finished`. */
  lemma StaleIdleNeverEndsRequest(actions: seq<Action>)
    requires SoleCommander(actions)
    requires var s := Run(actions); s.client.startRequested && |s.channel| > 0 && !s.channel[0].running
    ensures var s, t := Run(actions), Next(Run(actions), ClientReceive);
            && s.channel[0].tag <= s.startsSent
            && (!t.client.startRequested <==> s.channel[0].tag == s.startsSent)
            && (t.finished != s.finished <==> s.channel[0].tag == s.startsSent)
  {
    hide RunFrom, SoleInv, Inv;
    InitialSoleInv();
    SoleRunKeepsInv(INITIAL_SYSTEM, actions);
    IdleAtHead(Run(actions));
  }

  lemma InitialSoleInv()
    ensures SoleInv(INITIAL_SYSTEM)
  {
  }

  // ---------- two commanding clients ----------

  /** Another client's whole run. */
  const FOREIGN_RUN: seq<Action> :=
    [Connect, ForeignStart, FinishSection, BackendStops, MonitorWakes(1), MonitorReports(1)]

  lemma {:induction false} RunAppend(s: System, actions: seq<Action>, a: Action)
    ensures RunFrom(s, actions + [a]) == Next(RunFrom(s, actions), a)
    decreases |actions|
  {
    hide Next;
    if |actions| == 0 {
      assert [a][1..] == [] && [] + [a] == [a];
      assert RunFrom(s, [a]) == RunFrom(Next(s, a), []);
    } else {
      RunAppend(Next(s, actions[0]), actions[1..], a);
      assert (actions + [a])[1..] == actions[1..] + [a];
    }
  }

  const CONNECTED := INITIAL_SYSTEM.(connected := true, channel := [StateMessage(false, 0)])
  const FOREIGN_STARTED :=
    CONNECTED.(server := Server(true, 1, map[1 := InWait], Free, true),
               channel := [StateMessage(false, 0), StateMessage(true, 0)])
  const FOREIGN_ENDED :=
    CONNECTED.(server := Server(false, 1, map[], Free, false),
               channel := [StateMessage(false, 0), StateMessage(true, 0), StateMessage(false, 0)])

  lemma ForeignStarts()
    ensures Next(Next(Next(INITIAL_SYSTEM, Connect), ForeignStart), FinishSection) == FOREIGN_STARTED
  {
    assert Next(INITIAL_SYSTEM, Connect) == CONNECTED;
    assert Next(CONNECTED, ForeignStart) == CONNECTED.(server := Server(true, 1, map[], Starting, false));
  }

  lemma ForeignEnds()
    ensures Next(Next(Next(FOREIGN_STARTED, BackendStops), MonitorWakes(1)), MonitorReports(1)) == FOREIGN_ENDED
  {
    var stopped := Next(FOREIGN_STARTED, BackendStops);
    assert stopped == FOREIGN_STARTED.(server := Server(false, 1, map[1 := InWait], Free, true));
    assert map[1 := InWait][1 := Woken] == map[1 := Woken];
    var woken := Next(stopped, MonitorWakes(1));
    assert woken == FOREIGN_STARTED.(server := Server(false, 1, map[1 := Woken], Free, true));
    assert map[1 := Woken] - {1} == map[];
  }

  lemma ForeignRunLeavesStates()
    ensures Run(FOREIGN_RUN) == FOREIGN_ENDED
  {
    hide RunFrom, Next;
    var s := INITIAL_SYSTEM;
    RunNil(s);
    RunAppend(s, [], Connect);
    RunAppend(s, [] + [Connect], ForeignStart);
    RunAppend(s, [] + [Connect] + [ForeignStart], FinishSection);
    ForeignStarts();
    var half := [] + [Connect] + [ForeignStart] + [FinishSection];
    RunAppend(s, half, BackendStops);
    RunAppend(s, half + [BackendStops], MonitorWakes(1));
    RunAppend(s, half + [BackendStops] + [MonitorWakes(1)], MonitorReports(1));
    ForeignEnds();
    assert half + [BackendStops] + [MonitorWakes(1)] + [MonitorReports(1)] == FOREIGN_RUN;
  }

  lemma RunNil(s: System)
    ensures RunFrom(s, []) == s
  {
  }

  lemma RequestThenReceive(s: System)
    requires s.client == INITIAL_CLIENT && s.connected && s.commands == [] && s.startsSent == 0
    requires s.channel == [StateMessage(false, 0), StateMessage(true, 0), StateMessage(false, 0)]
    ensures var asked := Next(s, ClientStart);
            var before := Next(Next(asked, ClientReceive), ClientReceive);
            var after := Next(before, ClientReceive);
            && before.client.startRequested && !after.client.startRequested
            && before.channel[0] == StateMessage(false, 0) && before.startsSent == 1
            && after.commands == [Start]
  {
    var asked := Next(s, ClientStart);
    assert asked.client == Client(false, true, false, false) && asked.channel == s.channel;
    var one := Next(asked, ClientReceive);
    assert one.client == asked.client && one.channel == [StateMessage(true, 0), StateMessage(false, 0)];
  }

  /** If the states of another client's finished run are still on their way when this client
      asks for a start, the idle one ends the request although the service published it before
      it handled the command, which is still waiting: the promise needs the single commander. */
  lemma ForeignIdleEndsRequest()
    ensures var before := Run(FOREIGN_RUN + [ClientStart, ClientReceive, ClientReceive]);
            var after := Next(before, ClientReceive);
            && before.client.startRequested && !after.client.startRequested
            && before.channel[0].tag < before.startsSent
            && after.commands == [Start]
  {
    hide RunFrom, Next;
    var f := FOREIGN_RUN;
    ForeignRunLeavesStates();
    RunAppend(INITIAL_SYSTEM, f, ClientStart);
    RunAppend(INITIAL_SYSTEM, f + [ClientStart], ClientReceive);
    RunAppend(INITIAL_SYSTEM, f + [ClientStart] + [ClientReceive], ClientReceive);
    assert f + [ClientStart] + [ClientReceive] + [ClientReceive] == f + [ClientStart, ClientReceive, ClientReceive];
    RequestThenReceive(Run(f));
  }
}
