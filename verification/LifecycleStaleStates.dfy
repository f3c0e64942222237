/** What becomes of a start request under any traffic: other clients, the service's own start,
    commands still queued. A state is stale for a request when the service published it before it
    handled that request's command. In every run a stale idle ends the request exactly when it is
    received after a running state; when the service is idle as the client asks, that depends on
    the states already on their way, and on starts by others that come first. */
module LifecycleStaleStates {
  import opened Lifecycle
  import opened LifecycleRequests

  // ---------- what a run delivers and publishes ----------

  function Delivery(s: System, a: Action): seq<StateMessage> {
    if a.ClientReceive? && |s.channel| > 0 then [s.channel[0]] else []
  }

  /** The states the client receives in the run, in order. */
  function Received(s: System, actions: seq<Action>): seq<StateMessage>
    decreases |actions|
  {
    if |actions| == 0 then [] else Delivery(s, actions[0]) + Received(Next(s, actions[0]), actions[1..])
  }

  /** The states one action puts at the end of the channel. */
  function PublishedBy(s: System, a: Action): seq<StateMessage> {
    var t := Next(s, a);
    if !a.ClientReceive? && |t.channel| > |s.channel| then t.channel[|s.channel|..] else []
  }

  /** The states published to the client in the run, in order. */
  function PublishedIn(s: System, actions: seq<Action>): seq<StateMessage>
    decreases |actions|
  {
    if |actions| == 0 then [] else PublishedBy(s, actions[0]) + PublishedIn(Next(s, actions[0]), actions[1..])
  }

  lemma ChannelStep(s: System, a: Action)
    requires s.connected || s.channel == []
    ensures s.channel + PublishedBy(s, a) == Delivery(s, a) + Next(s, a).channel
    ensures Next(s, a).connected || Next(s, a).channel == []
  {
  }

  /** What is on its way and what is published on top of it are what is received and what stays
      on its way, in this order. */
  lemma {:induction false} ChannelIsFifo(s: System, actions: seq<Action>)
    requires s.connected || s.channel == []
    ensures s.channel + PublishedIn(s, actions) == Received(s, actions) + RunFrom(s, actions).channel
    decreases |actions|
  {
    hide Next, Delivery, PublishedBy;
    if |actions| > 0 {
      var a, rest := actions[0], actions[1..];
      var t := Next(s, a);
      ChannelStep(s, a);
      ChannelIsFifo(t, rest);
      Regroup(s.channel, PublishedBy(s, a), PublishedIn(t, rest), Delivery(s, a), t.channel, Received(t, rest),
              RunFrom(t, rest).channel);
    }
  }

  lemma Regroup<T>(a: seq<T>, b: seq<T>, c: seq<T>, d: seq<T>, e: seq<T>, f: seq<T>, g: seq<T>)
    requires a + b == d + e && e + c == f + g
    ensures a + (b + c) == (d + f) + g
  {
    assert a + (b + c) == (a + b) + c == (d + e) + c == d + (e + c) == d + (f + g) == (d + f) + g;
  }

  // ---------- tags ----------

  ghost predicate TagsAtLeast(states: seq<StateMessage>, bound: nat) {
    forall i :: 0 <= i < |states| ==> states[i].tag >= bound
  }

  /** States on their way have been published in the order of the starts handled. */
  ghost predicate TagsOrdered(s: System) {
    && (forall i :: 0 <= i < |s.channel| ==> s.channel[i].tag <= s.startsHandled)
    && (forall i, j :: 0 <= i < j < |s.channel| ==> s.channel[i].tag <= s.channel[j].tag)
  }

  lemma TagsStayOrdered(s: System, a: Action)
    requires TagsOrdered(s)
    ensures TagsOrdered(Next(s, a)) && Next(s, a).startsHandled >= s.startsHandled
  {
    if a.ClientReceive? {
      ReceivedStaysOrdered(s);
    } else {
      PublishedStaysOrdered(s, a);
    }
  }

  lemma ReceivedStaysOrdered(s: System)
    requires TagsOrdered(s)
    ensures TagsOrdered(Next(s, ClientReceive)) && Next(s, ClientReceive).startsHandled == s.startsHandled
  {
    hide OnState;
  }

  /** Any other action at most puts one state with the present tag at the end. */
  lemma PublishedStaysOrdered(s: System, a: Action)
    requires TagsOrdered(s) && !a.ClientReceive?
    ensures TagsOrdered(Next(s, a)) && Next(s, a).startsHandled >= s.startsHandled
  {
    hide TagsOrdered;
    var t := Next(s, a);
    AtMostOneMore(s, a);
    TagsOrderedNext(s, t);
  }

  lemma AtMostOneMore(s: System, a: Action)
    requires !a.ClientReceive?
    ensures var t := Next(s, a);
            && t.startsHandled >= s.startsHandled
            && (t.channel == s.channel
                || t.channel == [StateMessage(s.server.published, s.startsHandled)]
                || (t.startsHandled == s.startsHandled
                    && t.channel == s.channel + [StateMessage(t.server.published, s.startsHandled)]))
  {
    hide RequestStart, BeginStart, BeginStop, FinishStart, FinishStop, WakeMonitor, FinishMonitor;
  }

  lemma TagsOrderedNext(s: System, t: System)
    requires TagsOrdered(s) && t.startsHandled >= s.startsHandled
    requires || t.channel == s.channel
             || t.channel == [StateMessage(s.server.published, s.startsHandled)]
             || (t.startsHandled == s.startsHandled
                 && t.channel == s.channel + [StateMessage(t.server.published, s.startsHandled)])
    ensures TagsOrdered(t)
  {
  }

  lemma TagsStayAtLeast(s: System, a: Action, bound: nat)
    requires TagsAtLeast(s.channel, bound) && s.startsHandled >= bound
    ensures TagsAtLeast(Next(s, a).channel, bound) && Next(s, a).startsHandled >= bound
  {
  }

  lemma {:induction false} ReceivedAtLeast(s: System, actions: seq<Action>, bound: nat)
    requires TagsAtLeast(s.channel, bound) && s.startsHandled >= bound
    ensures TagsAtLeast(Received(s, actions), bound)
    decreases |actions|
  {
    hide Next;
    if |actions| > 0 {
      TagsStayAtLeast(s, actions[0], bound);
      ReceivedAtLeast(Next(s, actions[0]), actions[1..], bound);
    }
  }

  /** The commands queued are the starts sent and not handled. */
  ghost predicate StartsCounted(s: System) {
    s.startsHandled + StartsIn(s.commands) == s.startsSent
  }

  lemma StartsStayCounted(s: System, a: Action)
    requires StartsCounted(s)
    ensures StartsCounted(Next(s, a))
  {
    StartsInAppend(s.commands, Start);
    StartsInAppend(s.commands, Stop);
  }

  lemma {:induction false} RunIsCounted(s: System, actions: seq<Action>)
    requires StartsCounted(s) && TagsOrdered(s)
    ensures StartsCounted(RunFrom(s, actions)) && TagsOrdered(RunFrom(s, actions))
    decreases |actions|
  {
    hide Next, StartsCounted, TagsOrdered;
    if |actions| > 0 {
      StartsStayCounted(s, actions[0]);
      TagsStayOrdered(s, actions[0]);
      RunIsCounted(Next(s, actions[0]), actions[1..]);
    }
  }

  // ---------- when a stale idle ends a request ----------

  predicate AsksAgain(actions: seq<Action>) {
    exists k :: 0 <= k < |actions| && actions[k].ClientStart?
  }

  /** The action delivers an idle state published before `own` starts were handled, and that
      state ends the request. */
  ghost predicate EndsAtStale(s: System, a: Action, own: nat) {
    && a.ClientReceive? && |s.channel| > 0 && !s.channel[0].running && s.channel[0].tag < own
    && s.client.startRequested && !Next(s, a).client.startRequested
  }

  ghost predicate EndedByStale(s: System, actions: seq<Action>, own: nat) {
    exists k :: 0 <= k < |actions| && EndsAtStale(RunFrom(s, actions[..k]), actions[k], own)
  }

  /** State `j` is a stale idle one and comes after a running one. */
  ghost predicate StaleFallAt(seen: bool, states: seq<StateMessage>, own: nat, j: nat) {
    && j < |states| && !states[j].running && states[j].tag < own
    && (seen || exists i :: 0 <= i < j && states[i].running)
  }

  ghost predicate StaleFall(seen: bool, states: seq<StateMessage>, own: nat) {
    exists j: nat :: StaleFallAt(seen, states, own, j)
  }

  lemma StaleFallNext(seen: bool, m: StateMessage, rest: seq<StateMessage>, own: nat)
    ensures StaleFall(seen, [m] + rest, own) <==>
            (seen && !m.running && m.tag < own) || StaleFall(seen || m.running, rest, own)
  {
    var all := [m] + rest;
    assert StaleFallAt(seen, all, own, 0) <==> seen && !m.running && m.tag < own;
    if StaleFall(seen, all, own) {
      var j: nat :| StaleFallAt(seen, all, own, j);
      if j > 0 {
        ShiftedFall(seen, m, rest, own, j - 1);
      }
    }
    if StaleFall(seen || m.running, rest, own) {
      var j: nat :| StaleFallAt(seen || m.running, rest, own, j);
      ShiftedFall(seen, m, rest, own, j);
    }
  }

  lemma ShiftedFall(seen: bool, m: StateMessage, rest: seq<StateMessage>, own: nat, j: nat)
    ensures StaleFallAt(seen, [m] + rest, own, j + 1) <==> StaleFallAt(seen || m.running, rest, own, j)
  {
    var all := [m] + rest;
    if i :| 0 <= i < j + 1 && j + 1 < |all| && all[i].running {
      assert i == 0 || rest[i - 1].running;
    }
    if i :| 0 <= i < j && j < |rest| && rest[i].running {
      assert all[i + 1].running;
    }
    assert all[0] == m;
  }

  lemma EndedNext(s: System, actions: seq<Action>, own: nat)
    requires |actions| > 0
    ensures EndedByStale(s, actions, own) <==>
            EndsAtStale(s, actions[0], own) || EndedByStale(Next(s, actions[0]), actions[1..], own)
  {
    hide Next, EndsAtStale;
    var t, rest := Next(s, actions[0]), actions[1..];
    assert RunFrom(s, actions[..0]) == s;
    forall k | 0 <= k < |rest|
      ensures RunFrom(s, actions[..k + 1]) == RunFrom(t, rest[..k]) && actions[k + 1] == rest[k]
    {
      assert actions[..k + 1][1..] == rest[..k];
    }
    if EndedByStale(s, actions, own) {
      var k :| 0 <= k < |actions| && EndsAtStale(RunFrom(s, actions[..k]), actions[k], own);
      if k > 0 {
        assert EndsAtStale(RunFrom(t, rest[..k - 1]), rest[k - 1], own);
      }
    }
    if EndedByStale(t, rest, own) {
      var k :| 0 <= k < |rest| && EndsAtStale(RunFrom(t, rest[..k]), rest[k], own);
      assert EndsAtStale(RunFrom(s, actions[..k + 1]), actions[k + 1], own);
    }
  }

  /** Between its starts only the states received change a client. */
  lemma ClientStep(s: System, a: Action)
    requires !a.ClientStart?
    ensures Delivery(s, a) == [] ==> Next(s, a).client == s.client
    ensures Delivery(s, a) != [] ==> Next(s, a).client == OnState(s.client, s.channel[0].running).0
  {
  }

  lemma {:induction false} EndedIffStaleFall(s: System, actions: seq<Action>, own: nat)
    requires TagsOrdered(s) && !AsksAgain(actions)
    ensures EndedByStale(s, actions, own) <==>
            s.client.startRequested && StaleFall(s.client.seenRunning, Received(s, actions), own)
    decreases |actions|
  {
    hide Next, EndedByStale, StaleFall, TagsOrdered;
    if |actions| == 0 {
      NothingEnds(s, own);
    } else {
      var a, rest := actions[0], actions[1..];
      var t := Next(s, a);
      TagsStayOrdered(s, a);
      assert !AsksAgain(rest) by {
        assert forall k :: 0 <= k < |rest| ==> rest[k] == actions[k + 1];
      }
      EndedIffStaleFall(t, rest, own);
      EndedNext(s, actions, own);
      ClientStep(s, a);
      if Delivery(s, a) == [] {
        assert Received(s, actions) == Received(t, rest);
      } else {
        StaleFallNext(s.client.seenRunning, s.channel[0], Received(t, rest), own);
        if !s.channel[0].running && s.client.seenRunning && s.channel[0].tag >= own {
          NoStaleLater(s, rest, own);
        }
      }
    }
  }

  lemma NothingEnds(s: System, own: nat)
    ensures !EndedByStale(s, [], own) && forall seen :: !StaleFall(seen, [], own)
  {
  }

  lemma NoStaleLater(s: System, rest: seq<Action>, own: nat)
    requires TagsOrdered(s) && |s.channel| > 0 && s.channel[0].tag >= own
    ensures forall seen :: !StaleFall(seen, Received(Next(s, ClientReceive), rest), own)
  {
    TagsStayAtLeast(s, ClientReceive, own);
    ReceivedAtLeast(Next(s, ClientReceive), rest, own);
  }

  /** In every run, whatever the other clients do: after a request, and until this client asks
      again, a stale idle ends it if and only if one is received after a running state. */
  lemma StaleIdleEndsRequestIff(actions: seq<Action>, more: seq<Action>)
    requires Run(actions).connected && !IsRunning(Run(actions).client) && !AsksAgain(more)
    ensures var asked := Next(Run(actions), ClientStart);
            && asked.client.startRequested
            && (EndedByStale(asked, more, asked.startsSent) <==>
                  StaleFall(false, Received(asked, more), asked.startsSent))
  {
    hide RunFrom, EndedByStale, StaleFall, TagsOrdered, StartsCounted;
    InitialIsCounted();
    RunIsCounted(INITIAL_SYSTEM, actions);
    var asked := Next(Run(actions), ClientStart);
    TagsStayOrdered(Run(actions), ClientStart);
    EndedIffStaleFall(asked, more, asked.startsSent);
  }

  lemma InitialIsCounted()
    ensures StartsCounted(INITIAL_SYSTEM) && TagsOrdered(INITIAL_SYSTEM)
  {
    assert INITIAL_SYSTEM.commands == [] && INITIAL_SYSTEM.channel == [];
    assert INITIAL_SYSTEM.startsHandled == INITIAL_SYSTEM.startsSent;
  }

  // ---------- a request whose command is still queued ----------

  lemma {:induction false} ReceivedAtMost(s: System, actions: seq<Action>)
    requires TagsOrdered(s)
    ensures s.startsHandled <= RunFrom(s, actions).startsHandled
    ensures forall i :: 0 <= i < |Received(s, actions)| ==>
              Received(s, actions)[i].tag <= RunFrom(s, actions).startsHandled
    decreases |actions|
  {
    if |actions| > 0 {
      TagsStayOrdered(s, actions[0]);
      assert forall m :: m in Delivery(s, actions[0]) ==> m.tag <= s.startsHandled;
      hide Next, TagsOrdered;
      ReceivedAtMost(Next(s, actions[0]), actions[1..]);
    }
  }

  lemma {:induction false} NotAskedStays(s: System, actions: seq<Action>)
    requires !s.client.startRequested && !AsksAgain(actions)
    ensures !RunFrom(s, actions).client.startRequested
    decreases |actions|
  {
    hide Next;
    if |actions| > 0 {
      ClientStep(s, actions[0]);
      RestAsksNot(actions);
      NotAskedStays(Next(s, actions[0]), actions[1..]);
    }
  }

  lemma RestAsksNot(actions: seq<Action>)
    requires |actions| > 0 && !AsksAgain(actions)
    ensures !AsksAgain(actions[1..]) && !actions[0].ClientStart?
  {
    assert forall k :: 0 <= k < |actions[1..]| ==> actions[1..][k] == actions[k + 1];
  }

  /** If every state received is stale, the request is gone exactly when a stale one ended it. */
  lemma {:induction false} GoneIffEnded(s: System, actions: seq<Action>, own: nat)
    requires s.client.startRequested && !AsksAgain(actions)
    requires forall i :: 0 <= i < |Received(s, actions)| ==> Received(s, actions)[i].tag < own
    ensures !RunFrom(s, actions).client.startRequested <==> EndedByStale(s, actions, own)
    decreases |actions|
  {
    hide Next, EndedByStale, StaleFall;
    if |actions| == 0 {
      NothingEnds(s, own);
    } else {
      var a, rest := actions[0], actions[1..];
      var t := Next(s, a);
      RestAsksNot(actions);
      EndedNext(s, actions, own);
      ClientStep(s, a);
      assert forall i :: 0 <= i < |Received(t, rest)| ==>
          Received(t, rest)[i] == Received(s, actions)[i + |Delivery(s, a)|];
      if Delivery(s, a) != [] {
        assert Received(s, actions)[0] == s.channel[0];
      }
      if t.client.startRequested {
        GoneIffEnded(t, rest, own);
      } else {
        NotAskedStays(t, rest);
      }
    }
  }

  /** In every run: as long as the service has not handled the request's own command, the request
      is gone if and only if an idle state was received after a running one. */
  lemma QueuedRequestGoneIff(actions: seq<Action>, more: seq<Action>)
    requires Run(actions).connected && !IsRunning(Run(actions).client) && !AsksAgain(more)
    requires var asked := Next(Run(actions), ClientStart);
             RunFrom(asked, more).startsHandled < asked.startsSent
    ensures var asked := Next(Run(actions), ClientStart);
            !RunFrom(asked, more).client.startRequested <==> StaleFall(false, Received(asked, more), asked.startsSent)
  {
    hide Next, RunFrom, EndedByStale, StaleFall, TagsOrdered, StartsCounted;
    StaleIdleEndsRequestIff(actions, more);
    InitialIsCounted();
    RunIsCounted(INITIAL_SYSTEM, actions);
    var asked := Next(Run(actions), ClientStart);
    TagsStayOrdered(Run(actions), ClientStart);
    ReceivedAtMost(asked, more);
    GoneIffEnded(asked, more, asked.startsSent);
  }

  // ---------- what the client can know before it asks ----------

  /** Receiving all states on their way. */
  function Receives(n: nat): (actions: seq<Action>)
    ensures |actions| == n && forall k :: 0 <= k < n ==> actions[k] == ClientReceive
  {
    seq(n, _ => ClientReceive)
  }

  lemma {:induction false} ReceiveAll(s: System)
    ensures var t := RunFrom(s, Receives(|s.channel|));
            t.channel == [] && t.commands == s.commands && t.startsHandled == s.startsHandled
    ensures Received(s, Receives(|s.channel|)) == s.channel
    decreases |s.channel|
  {
    if |s.channel| > 0 {
      var t := Next(s, ClientReceive);
      assert t.channel == s.channel[1..] && t.commands == s.commands && t.startsHandled == s.startsHandled;
      ReceiveAll(t);
      assert Receives(|s.channel|)[1..] == Receives(|t.channel|);
      assert [s.channel[0]] + t.channel == s.channel;
    } else {
      assert Receives(0) == [];
    }
  }

  /** The client is connected and idle, and the service's last published state is not running. */
  ghost predicate BothIdle(s: System) {
    s.connected && !IsRunning(s.client) && !s.server.published
  }

  lemma RunFacts(actions: seq<Action>)
    ensures Inv(Run(actions)) && TagsOrdered(Run(actions)) && StartsCounted(Run(actions))
  {
    hide RunFrom, Inv, TagsOrdered, StartsCounted;
    InitialInv();
    RunKeepsInv(INITIAL_SYSTEM, actions);
    InitialIsCounted();
    RunIsCounted(INITIAL_SYSTEM, actions);
  }

  lemma LastOnItsWayIsIdle(s: System)
    requires Inv(s) && BothIdle(s)
    ensures |s.channel| > 0 ==> !s.channel[|s.channel| - 1].running
  {
  }

  /** The states on their way to a client that asks now are all stale, and the last one is idle. */
  lemma ChannelFalls(s: System)
    requires Inv(s) && TagsOrdered(s) && StartsCounted(s) && BothIdle(s)
    ensures StaleFall(false, s.channel, s.startsSent + 1) <==> RunningInChannel(s)
  {
    LastOnItsWayIsIdle(s);
    var n := |s.channel|;
    if k :| 0 <= k < n && s.channel[k].running {
      assert StaleFallAt(false, s.channel, s.startsSent + 1, n - 1);
    }
  }

  lemma Asking(s: System)
    requires StartsCounted(s) && BothIdle(s)
    ensures var asked := Next(s, ClientStart);
            && asked.channel == s.channel && asked.commands == s.commands + [Start] && asked.server == s.server
            && asked.startsSent == s.startsSent + 1 && asked.startsHandled == s.startsHandled <= s.startsSent
            && asked.connected && asked.client.startRequested && !asked.client.seenRunning
  {
  }

  /** With client and service idle as the client asks, receiving the states already on their way
      ends the request, with its command still queued, if and only if one of them is running. */
  lemma StatesOnTheirWayEndRequestIff(actions: seq<Action>)
    requires BothIdle(Run(actions))
    ensures var s := Run(actions);
            var after := RunFrom(Next(s, ClientStart), Receives(|s.channel|));
            && after.channel == [] && after.commands == s.commands + [Start]
            && (!after.client.startRequested <==> RunningInChannel(s))
            && (EndedByStale(Next(s, ClientStart), Receives(|s.channel|), s.startsSent + 1) <==> RunningInChannel(s))
  {
    hide RunFrom, Next, Inv, TagsOrdered, StartsCounted, StaleFall, EndedByStale, RunningInChannel;
    RunFacts(actions);
    var s := Run(actions);
    Asking(s);
    ReceiveAll(Next(s, ClientStart));
    ChannelFalls(s);
    StaleIdleEndsRequestIff(actions, Receives(|s.channel|));
    QueuedRequestGoneIff(actions, Receives(|s.channel|));
  }

  // ---------- starts by others ----------

  predicate StartsNothing(actions: seq<Action>) {
    forall k :: 0 <= k < |actions| ==> !actions[k].ClientStart? && !actions[k].ForeignStart?
  }

  ghost predicate AtRest(s: Server) {
    !s.running && !s.published && s.lock.Free?
  }

  /** Until the request's command is handled the service stays at rest, so nothing stale is
      running; and once a running state has been received, nothing stale is left. */
  ghost predicate NothingStaleRuns(s: System, own: nat) {
    && TagsOrdered(s)
    && (s.startsHandled < own ==> AtRest(s.server) && s.startsHandled + 1 == own)
    && (forall i :: 0 <= i < |s.channel| && s.channel[i].running ==> s.channel[i].tag >= own)
    && (s.client.seenRunning ==> TagsAtLeast(s.channel, own) && s.startsHandled >= own)
  }

  lemma StillNothingStaleRuns(s: System, a: Action, own: nat)
    requires NothingStaleRuns(s, own) && s.connected && !a.ClientStart? && !a.ForeignStart?
    ensures NothingStaleRuns(Next(s, a), own) && Next(s, a).connected && !EndsAtStale(s, a, own)
  {
    TagsStayOrdered(s, a);
    if a.ClientReceive? {
      ReceiveLeavesNothingStale(s, own);
    } else if s.startsHandled < own {
      RestLeavesNothingStale(s, a, own);
    } else {
      LaterStatesAreFresh(s, a, own);
    }
  }

  lemma ReceiveLeavesNothingStale(s: System, own: nat)
    requires NothingStaleRuns(s, own)
    ensures NothingStaleRuns(Next(s, ClientReceive), own) && Next(s, ClientReceive).connected == s.connected
    ensures !EndsAtStale(s, ClientReceive, own)
  {
    TagsStayOrdered(s, ClientReceive);
    hide AtRest;
  }

  /** At rest nothing running is published, and what changes that is the request's own command. */
  lemma RestLeavesNothingStale(s: System, a: Action, own: nat)
    requires NothingStaleRuns(s, own) && s.connected && s.startsHandled < own
    requires !a.ClientStart? && !a.ForeignStart? && !a.ClientReceive?
    ensures NothingStaleRuns(Next(s, a), own) && Next(s, a).connected
  {
    TagsStayOrdered(s, a);
    hide TagsOrdered;
  }

  lemma LaterStatesAreFresh(s: System, a: Action, own: nat)
    requires NothingStaleRuns(s, own) && s.connected && s.startsHandled >= own
    requires !a.ClientStart? && !a.ClientReceive?
    ensures NothingStaleRuns(Next(s, a), own) && Next(s, a).connected
  {
    TagsStayOrdered(s, a);
    AtMostOneMore(s, a);
    SameClientAndLink(s, a);
    hide TagsOrdered, Next, AtRest;
    if s.client.seenRunning {
      TagsStayAtLeast(s, a, own);
    }
  }

  lemma SameClientAndLink(s: System, a: Action)
    requires s.connected && !a.ClientStart? && !a.ClientReceive?
    ensures Next(s, a).client == s.client && Next(s, a).connected
    ensures |Next(s, a).channel| >= |s.channel| && Next(s, a).channel[..|s.channel|] == s.channel
    ensures forall i :: |s.channel| <= i < |Next(s, a).channel| ==> Next(s, a).channel[i].tag == s.startsHandled
  {
  }

  lemma {:induction false} NeverEndedByStale(s: System, actions: seq<Action>, own: nat)
    requires NothingStaleRuns(s, own) && s.connected && StartsNothing(actions)
    ensures !EndedByStale(s, actions, own)
    decreases |actions|
  {
    hide Next, NothingStaleRuns, EndedByStale, EndsAtStale;
    if |actions| == 0 {
      NothingEnds(s, own);
    } else {
      StillNothingStaleRuns(s, actions[0], own);
      assert forall k :: 0 <= k < |actions[1..]| ==> actions[1..][k] == actions[k + 1];
      NeverEndedByStale(Next(s, actions[0]), actions[1..], own);
      EndedNext(s, actions, own);
    }
  }

  /** No start is queued or half done. */
  ghost predicate NoStartPending(s: System) {
    StartsIn(s.commands) == 0 && !s.server.lock.Starting?
  }

  lemma QuietAsk(s: System)
    requires Inv(s) && TagsOrdered(s) && StartsCounted(s) && BothIdle(s) && NoStartPending(s) && !RunningInChannel(s)
    ensures NothingStaleRuns(Next(s, ClientStart), s.startsSent + 1)
  {
    Asking(s);
  }

  /** With client and service idle and no other start pending as the client asks, no stale idle
      can end the request in any continuation without a start by others, if and only if none of
      the states on their way is running. */
  lemma RequestSafeIff(actions: seq<Action>)
    requires BothIdle(Run(actions)) && NoStartPending(Run(actions))
    ensures var s := Run(actions);
            (forall more | StartsNothing(more) :: !EndedByStale(Next(s, ClientStart), more, s.startsSent + 1))
              <==> !RunningInChannel(s)
  {
    hide RunFrom, Next, Inv, TagsOrdered, StartsCounted, EndedByStale, RunningInChannel, NothingStaleRuns;
    RunFacts(actions);
    var s := Run(actions);
    var asked := Next(s, ClientStart);
    Asking(s);
    if RunningInChannel(s) {
      StatesOnTheirWayEndRequestIff(actions);
      assert StartsNothing(Receives(|s.channel|)) && EndedByStale(asked, Receives(|s.channel|), s.startsSent + 1);
    } else {
      QuietAsk(s);
      forall more | StartsNothing(more)
        ensures !EndedByStale(asked, more, s.startsSent + 1)
      {
        NeverEndedByStale(asked, more, s.startsSent + 1);
      }
    }
  }

  /** A start by others, or the service's own, whose backend stops before the command is handled. */
  function ForeignBurst(g: nat): seq<Action> {
    [ForeignStart, FinishSection, BackendStops, MonitorWakes(g), MonitorReports(g)]
  }

  lemma {:induction false} EndedLater(s: System, first: seq<Action>, rest: seq<Action>, own: nat)
    requires EndedByStale(RunFrom(s, first), rest, own)
    ensures EndedByStale(s, first + rest, own)
    decreases |first|
  {
    hide Next, EndedByStale;
    if |first| == 0 {
      assert first + rest == rest;
    } else {
      EndedLater(Next(s, first[0]), first[1..], rest, own);
      assert (first + rest)[1..] == first[1..] + rest;
      EndedNext(s, first + rest, own);
    }
  }

  lemma RunOfFive(s: System, a: Action, b: Action, c: Action, d: Action, e: Action)
    ensures RunFrom(s, [a, b, c, d, e]) == Next(Next(Next(Next(Next(s, a), b), c), d), e)
  {
    hide Next;
    RunAppend(s, [], a);
    RunAppend(s, [a], b);
    RunAppend(s, [a, b], c);
    RunAppend(s, [a, b, c], d);
    RunAppend(s, [a, b, c, d], e);
    assert [] + [a] == [a] && [a] + [b] == [a, b] && [a, b] + [c] == [a, b, c];
    assert [a, b, c] + [d] == [a, b, c, d] && [a, b, c, d] + [e] == [a, b, c, d, e];
  }

  lemma BurstStarts(s: System)
    requires AtRest(s.server) && s.connected
    ensures var t := Next(Next(s, ForeignStart), FinishSection);
            t == s.(server := Server(true, s.server.generation + 1,
                                     s.server.monitors[s.server.generation + 1 := InWait], Free, true),
                    channel := s.channel + [StateMessage(true, s.startsHandled)])
  {
  }

  lemma BurstStops(s: System, g: nat)
    requires s.connected && s.server.lock.Free? && s.server.generation == g
    requires g in s.server.monitors && s.server.monitors[g].InWait?
    ensures var t := Next(Next(Next(s, BackendStops), MonitorWakes(g)), MonitorReports(g));
            && t.channel == s.channel + [StateMessage(false, s.startsHandled)]
            && t.client == s.client && t.startsHandled == s.startsHandled
  {
    var woken := Next(Next(s, BackendStops), MonitorWakes(g));
    assert woken.server.monitors[g].Woken? && woken.channel == s.channel;
  }

  lemma BurstPublishes(s: System)
    requires AtRest(s.server) && s.connected
    ensures var t := RunFrom(s, ForeignBurst(s.server.generation + 1));
            && t.channel == s.channel + [StateMessage(true, s.startsHandled), StateMessage(false, s.startsHandled)]
            && t.client == s.client && t.startsHandled == s.startsHandled
  {
    hide Next, RunFrom;
    var g := s.server.generation + 1;
    RunOfFive(s, ForeignStart, FinishSection, BackendStops, MonitorWakes(g), MonitorReports(g));
    BurstStarts(s);
    BurstStops(Next(Next(s, ForeignStart), FinishSection), g);
    assert s.channel + [StateMessage(true, s.startsHandled)] + [StateMessage(false, s.startsHandled)]
        == s.channel + [StateMessage(true, s.startsHandled), StateMessage(false, s.startsHandled)];
  }

  /** What a start by others adds: nothing known before the request protects it from one that is
      published, and whose backend stops, before the request's own command is handled. */
  lemma ForeignStartCanAlwaysEnd(actions: seq<Action>) returns (more: seq<Action>)
    requires BothIdle(Run(actions)) && Run(actions).server.lock.Free?
    ensures !AsksAgain(more)
    ensures EndedByStale(Next(Run(actions), ClientStart), more, Run(actions).startsSent + 1)
  {
    hide RunFrom, Next, Inv, TagsOrdered, StartsCounted, EndedByStale, StaleFall;
    RunFacts(actions);
    var s := Run(actions);
    var asked := Next(s, ClientStart);
    Asking(s);
    PublishedIdleIsAtRest(s);
    var burst := ForeignBurst(s.server.generation + 1);
    var t := RunFrom(asked, burst);
    BurstPublishes(asked);
    var rest := Receives(|t.channel|);
    ReceiveAll(t);
    BurstFalls(s.channel, s.startsHandled, s.startsSent + 1);
    TagsAfter(s, burst);
    EndedIffStaleFall(t, rest, s.startsSent + 1);
    EndedLater(asked, burst, rest, s.startsSent + 1);
    more := burst + rest;
  }

  lemma PublishedIdleIsAtRest(s: System)
    requires Inv(s) && !s.server.published && s.server.lock.Free?
    ensures AtRest(s.server)
  {
  }

  lemma BurstFalls(states: seq<StateMessage>, tag: nat, own: nat)
    requires tag < own
    ensures StaleFall(false, states + [StateMessage(true, tag), StateMessage(false, tag)], own)
  {
    var all := states + [StateMessage(true, tag), StateMessage(false, tag)];
    assert all[|states|].running;
    assert StaleFallAt(false, all, own, |states| + 1);
  }

  lemma TagsAfter(s: System, actions: seq<Action>)
    requires TagsOrdered(s) && StartsCounted(s)
    ensures TagsOrdered(RunFrom(Next(s, ClientStart), actions))
  {
    hide Next, TagsOrdered, StartsCounted;
    TagsStayOrdered(s, ClientStart);
    StartsStayCounted(s, ClientStart);
    RunIsCounted(Next(s, ClientStart), actions);
  }
}
