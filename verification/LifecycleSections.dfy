/** What one command does to the service, uninterrupted, with all that is published; and that a stop
    command leads to an idle client once the backend has stopped and its monitor has reported. */
module LifecycleSections {
  import opened Lifecycle
  import opened LifecycleRequests
  import opened LifecycleStaleStates

  /** The first queued command from a free lock to the end of its section. A start is carried out
      when the backend is not running: it runs, under a new generation with a monitor of its own,
      and one running state goes out. A stop is, when it is running: one running state goes out and
      the generation stays. Any other start or stop changes nothing and publishes nothing. */
  lemma CommandSection(s: System)
    requires s.connected && s.server.lock.Free? && |s.commands| > 0
    ensures var t, g := Next(Next(s, TakeCommand), FinishSection), s.server.generation;
            && t.commands == s.commands[1..] && t.client == s.client && t.connected && t.server.lock.Free?
            && t.startsHandled == (if s.commands[0] == Start then s.startsHandled + 1 else s.startsHandled)
            && if s.commands[0] == Start && !s.server.running then
                 && t.server == Server(true, g + 1, s.server.monitors[g + 1 := InWait], Free, true)
                 && t.channel == s.channel + [StateMessage(true, s.startsHandled + 1)]
               else if s.commands[0] == Stop && s.server.running then
                 && t.server == Server(true, g, s.server.monitors, Free, true)
                 && t.channel == s.channel + [StateMessage(true, s.startsHandled)]
               else t.server == s.server && t.channel == s.channel
  {
  }

  /** While a section is under way no other section, command or report begins. */
  lemma SectionIsAlone(s: System, a: Action)
    requires !s.server.lock.Free?
    requires a.TakeCommand? || a.ForeignStart? || a.ForeignStop? || a.MonitorReports?
    ensures Next(s, a) == s
  {
  }

  /** A report that gets the lock takes its monitor away, and one idle state goes out exactly when no
      start has come since that monitor's own. */
  lemma ReportSection(s: System, g: nat)
    requires s.connected && s.server.lock.Free? && g in s.server.monitors && s.server.monitors[g] == Woken
    ensures var t := Next(s, MonitorReports(g));
            && t.server.monitors == s.server.monitors - {g} && t.server.generation == s.server.generation
            && t.server.running == s.server.running && t.client == s.client && t.commands == s.commands
            && if g == s.server.generation then
                 !t.server.published && t.channel == s.channel + [StateMessage(false, s.startsHandled)]
               else t.server.published == s.server.published && t.channel == s.channel
  {
  }

  /** A monitor leaves its wait only once the backend has stopped. */
  lemma MonitorWaits(s: System, g: nat)
    requires s.server.running
    ensures Next(s, MonitorWakes(g)) == s
  {
  }

  // ---------- a stop reaches the client ----------

  function StopSteps(g: nat): seq<Action> {
    [TakeCommand, FinishSection, BackendStops, MonitorWakes(g), MonitorReports(g)]
  }

  lemma RunningIsWatched(s: System)
    requires Inv(s) && s.server.lock.Free? && s.server.running
    ensures s.server.generation in s.server.monitors && s.server.monitors[s.server.generation] == InWait
  {
  }

  lemma StopEffect(s: System)
    requires Inv(s) && s.connected && s.server.lock.Free? && s.server.running
    requires |s.commands| > 0 && s.commands[0] == Stop
    ensures var t := RunFrom(s, StopSteps(s.server.generation));
            && t.connected && !t.server.running && !t.server.published && t.server.lock.Free?
            && t.commands == s.commands[1..]
            && t.channel == s.channel + [StateMessage(true, s.startsHandled), StateMessage(false, s.startsHandled)]
  {
    var g := s.server.generation;
    RunningIsWatched(s);
    CommandSection(s);
    var asked := Next(Next(s, TakeCommand), FinishSection);
    StopsAndReports(asked, g);
    hide Next, RunFrom;
    RunOfFive(s, TakeCommand, FinishSection, BackendStops, MonitorWakes(g), MonitorReports(g));
    assert s.channel + [StateMessage(true, s.startsHandled)] + [StateMessage(false, s.startsHandled)]
        == s.channel + [StateMessage(true, s.startsHandled), StateMessage(false, s.startsHandled)];
  }

  lemma StopsAndReports(s: System, g: nat)
    requires s.connected && s.server.lock.Free? && s.server.generation == g
    requires g in s.server.monitors && s.server.monitors[g] == InWait
    ensures var t := Next(Next(Next(s, BackendStops), MonitorWakes(g)), MonitorReports(g));
            && t.connected && !t.server.running && !t.server.published && t.server.lock.Free?
            && t.commands == s.commands && t.channel == s.channel + [StateMessage(false, s.startsHandled)]
  {
    var woken := Next(Next(s, BackendStops), MonitorWakes(g));
    assert woken.connected && woken.server.lock.Free? && woken.server.monitors[g] == Woken && !woken.server.running;
    ReportSection(woken, g);
  }

  /** In every run that has a stop at the head of the queue, the lock free and the backend running:
      once the service has handled the stop, the backend has stopped and its monitor has reported,
      a client that receives all states is idle, unless it has asked for a start that still waits. */
  lemma StopReachesClient(actions: seq<Action>)
    requires var s := Run(actions);
             s.connected && s.server.lock.Free? && s.server.running && |s.commands| > 0 && s.commands[0] == Stop
    ensures var s := Run(actions);
            var stopped := RunFrom(s, StopSteps(s.server.generation));
            var t := RunFrom(stopped, Receives(|s.channel| + 2));
            && t.channel == [] && t.commands == s.commands[1..]
            && !t.client.backendRunning
            && (Start !in t.commands ==> !IsRunning(t.client) && t.client.stopped)
  {
    RunFacts(actions);
    var s := Run(actions);
    var stopped := RunFrom(s, StopSteps(s.server.generation));
    hide RunFrom, Next;
    StopEffect(s);
    RunKeepsInv(s, StopSteps(s.server.generation));
    assert |stopped.channel| == |s.channel| + 2;
    ReceiveAll(stopped);
    var t := RunFrom(stopped, Receives(|s.channel| + 2));
    RunKeepsInv(stopped, Receives(|s.channel| + 2));
    ReceivesKeepServer(stopped, |s.channel| + 2);
  }

  lemma {:induction false} ReceivesKeepServer(s: System, n: nat)
    ensures var t := RunFrom(s, Receives(n)); t.server == s.server && t.connected == s.connected
    decreases n
  {
    if n > 0 {
      assert Receives(n)[1..] == Receives(n - 1);
      ReceivesKeepServer(Next(s, ClientReceive), n - 1);
    } else {
      assert Receives(0) == [];
    }
  }
}
