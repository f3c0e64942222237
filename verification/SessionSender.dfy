/** The sending half of one IPC client session: callers put events into the drop-oldest
    queue or replace the latest metrics and then set the ready flag; one sender thread
    waits for the flag, clears it, drains the queue and sends the metrics if they are new.
    Each line between two accesses to shared state is one step, in any interleaving. */
module SessionSender {
  import opened Wrappers
  import Q = DropOldestQueue

  type Pid = Q.Pid

  /** A metrics message with its `ui_metrics_seq`. */
  datatype Metrics<T, S> = Metrics(message: T, sequence: S)

  /** Where the sender stands in `_sender_loop`. */
  datatype Sender<T, S> =
    | LoopHead
    | Waiting
    | Woken
    | DrainCheck
    | DrainGet
    | SendEvent(event: T)
    | ReadMetrics
    | SendMetrics(metrics: Metrics<T, S>)
    | RecordSent(metrics: Metrics<T, S>)
    | Exited(lost: seq<T>)

  datatype Frame<T> = EventFrame(event: T) | MetricsFrame(message: T)

  /** `lastSent` starts as a sentinel equal to no sequence: `None`. `mustSet` holds the
      callers that have written and not yet set the flag. */
  datatype Session<T, S> = Session(
    q: Q.State<T>,
    latest: Option<Metrics<T, S>>,
    lastSent: Option<S>,
    ready: bool,
    closed: bool,
    mustSet: set<Pid>,
    sender: Sender<T, S>,
    sent: seq<Frame<T>>)

  datatype Action<T, S> =
    | FirstPut(pid: Pid, event: T)
    | EvictOldest(pid: Pid)
    | SecondPut(pid: Pid)
    | WriteMetrics(pid: Pid, metrics: Metrics<T, S>)
    | Close(pid: Pid)
    | SetReady(pid: Pid)
    | SenderStep
    | WaitTimesOut
    | SendFails

  function Initial<T, S>(maxsize: int): Session<T, S> {
    Session(Q.Initial(maxsize), None, None, false, false, {}, LoopHead, [])
  }

  predicate Idle<T, S>(s: Session<T, S>, pid: Pid) {
    pid !in s.mustSet && Q.AttemptOf(s.q, pid).Outside?
  }

  /** After a queue step the caller goes on to set the flag once its attempt is over. */
  function AfterQueueStep<T, S>(s: Session<T, S>, pid: Pid, q: Q.State<T>): Session<T, S> {
    s.(q := q, mustSet := if Q.AttemptOf(q, pid).Outside? then s.mustSet + {pid} else s.mustSet)
  }

  predicate IsNew<T, S(==)>(s: Session<T, S>, m: Metrics<T, S>) {
    s.lastSent != Some(m.sequence)
  }

  function SenderNext<T, S(==)>(s: Session<T, S>): Session<T, S> {
    match s.sender
    case LoopHead => if s.closed then s.(sender := Exited([])) else s.(sender := Waiting)
    case Waiting => if s.ready then s.(sender := Woken) else s
    case Woken => s.(ready := false, sender := DrainCheck)
    case DrainCheck => s.(sender := if s.closed then ReadMetrics else DrainGet)
    case DrainGet =>
      if |s.q.queue| == 0 then s.(sender := ReadMetrics)
      else s.(q := Q.Next(s.q, Q.Consume), sender := SendEvent(s.q.queue[0]))
    case SendEvent(event) => s.(sent := s.sent + [EventFrame(event)], sender := DrainCheck)
    case ReadMetrics =>
      s.(sender := if s.latest.Some? && IsNew(s, s.latest.value) then SendMetrics(s.latest.value) else LoopHead)
    case SendMetrics(metrics) => s.(sent := s.sent + [MetricsFrame(metrics.message)], sender := RecordSent(metrics))
    case RecordSent(metrics) => s.(lastSent := Some(metrics.sequence), sender := LoopHead)
    case Exited(_) => s
  }

  /** A call that finds the session closed does nothing and is no action; one that has passed that
      check before a close goes on, so a caller's step is possible at any time. */
  function Next<T, S(==)>(s: Session<T, S>, a: Action<T, S>): Session<T, S> {
    match a
    case FirstPut(pid, event) =>
      if !Idle(s, pid) then s else AfterQueueStep(s, pid, Q.Next(s.q, Q.FirstPut(pid, event)))
    case EvictOldest(pid) =>
      if Q.AttemptOf(s.q, pid).SawFull? then s.(q := Q.Next(s.q, Q.Evict(pid))) else s
    case SecondPut(pid) =>
      if Q.AttemptOf(s.q, pid).AfterEviction? then AfterQueueStep(s, pid, Q.Next(s.q, Q.SecondPut(pid))) else s
    case WriteMetrics(pid, metrics) =>
      if !Idle(s, pid) then s else s.(latest := Some(metrics), mustSet := s.mustSet + {pid})
    case Close(pid) =>
      if !Idle(s, pid) then s else s.(closed := true, mustSet := s.mustSet + {pid})
    case SetReady(pid) =>
      if pid in s.mustSet then s.(ready := true, mustSet := s.mustSet - {pid}) else s
    case SenderStep => SenderNext(s)
    case WaitTimesOut => if s.sender.Waiting? then s.(sender := Woken) else s
    case SendFails =>
      if s.sender.SendEvent? then s.(sender := Exited([s.sender.event]), closed := true, ready := s.ready || !s.closed)
      else if s.sender.SendMetrics? then s.(sender := Exited([]), closed := true, ready := s.ready || !s.closed)
      else s
  }

  function Run<T, S(==)>(maxsize: int, actions: seq<Action<T, S>>): Session<T, S> {
    if |actions| == 0 then Initial(maxsize)
    else Next(Run(maxsize, actions[..|actions| - 1]), actions[|actions| - 1])
  }

  // ---------- no lost wakeup ----------

  /** Something will still make the sender look: the flag is set, or a caller has yet to set it. */
  predicate Announced<T, S>(s: Session<T, S>) {
    s.ready || s.mustSet != {}
  }

  /** The sender has still to look at the queue in this pass. */
  predicate WillDrain<T, S>(s: Session<T, S>) {
    s.sender.Woken? || s.sender.DrainCheck? || s.sender.DrainGet? || s.sender.SendEvent?
  }

  /** The sender is between reading the latest metrics and recording them as sent. */
  predicate Sending<T, S>(s: Session<T, S>) {
    s.sender.SendMetrics? || s.sender.RecordSent?
  }

  /** The sender has still to look at the latest metrics in this pass, or is sending exactly
      that sequence. */
  predicate WillSend<T, S(==)>(s: Session<T, S>, m: Metrics<T, S>) {
    || WillDrain(s)
    || s.sender.ReadMetrics?
    || (Sending(s) && s.sender.metrics.sequence == m.sequence)
  }

  function InFlight<T, S>(s: Session<T, S>): seq<T> {
    match s.sender
    case SendEvent(event) => [event]
    case Exited(lost) => lost
    case _ => []
  }

  function EventsSent<T>(sent: seq<Frame<T>>): seq<T> {
    if |sent| == 0 then []
    else
      var prior := EventsSent(sent[..|sent| - 1]);
      if sent[|sent| - 1].EventFrame? then prior + [sent[|sent| - 1].event] else prior
  }

  ghost predicate NoLostWakeup<T(!new), S>(s: Session<T, S>) {
    && (!s.closed && |s.q.queue| > 0 ==> Announced(s) || WillDrain(s))
    && (!s.closed && s.latest.Some? && IsNew(s, s.latest.value) ==> Announced(s) || WillSend(s, s.latest.value))
    && (!s.closed && Sending(s) ==>
          s.latest.Some? && (Announced(s) || s.latest.value.sequence == s.sender.metrics.sequence))
    && (s.closed && s.sender.Waiting? ==> Announced(s))
    && (s.sender.Exited? ==> s.closed)
  }

  ghost predicate Inv<T(!new), S>(s: Session<T, S>) {
    && Q.Inv(s.q)
    && NoLostWakeup(s)
    && Q.ConsumedItems(s.q.removed) == EventsSent(s.sent) + InFlight(s)
  }

  lemma OtherRemovals<T(!new)>(q: Q.State<T>, a: Q.Action<T>)
    requires !a.Consume?
    ensures Q.ConsumedItems(Q.Next(q, a).removed) == Q.ConsumedItems(q.removed)
  {
    var t := Q.Next(q, a);
    if |t.removed| > |q.removed| {
      assert t.removed[..|t.removed| - 1] == q.removed;
    }
  }

  lemma ConsumeEffect<T(!new)>(q: Q.State<T>)
    requires Q.Inv(q) && |q.queue| > 0
    ensures var t := Q.Next(q, Q.Consume);
            && Q.Inv(t) && t.queue == q.queue[1..]
            && Q.ConsumedItems(t.removed) == Q.ConsumedItems(q.removed) + [q.queue[0]]
  {
    Q.StepKeepsInv(q, Q.Consume);
    hide Q.Inv;
    var t := Q.Next(q, Q.Consume);
    assert t.removed[..|t.removed| - 1] == q.removed;
  }

  lemma SentEffect<T>(sent: seq<Frame<T>>, frame: Frame<T>)
    ensures EventsSent(sent + [frame])
         == if frame.EventFrame? then EventsSent(sent) + [frame.event] else EventsSent(sent)
  {
    assert (sent + [frame])[..|sent|] == sent;
  }

  lemma SenderKeepsInv<T(!new), S>(s: Session<T, S>)
    requires Inv(s)
    ensures Inv(SenderNext(s))
  {
    hide Q.Inv, Q.Next, Q.ConsumedItems, EventsSent;
    if s.sender.DrainGet? && |s.q.queue| > 0 {
      ConsumeEffect(s.q);
    } else if s.sender.SendEvent? {
      SentEffect(s.sent, EventFrame(s.sender.event));
    } else if s.sender.SendMetrics? {
      SentEffect(s.sent, MetricsFrame(s.sender.metrics.message));
    }
  }

  /** A queue step by a caller keeps the invariant if what it adds is announced. */
  lemma QueueStepKeepsInv<T(!new), S>(s: Session<T, S>, a: Q.Action<T>, mustSet: set<Pid>)
    requires Inv(s) && !a.Consume?
    requires s.mustSet <= mustSet
    requires |Q.Next(s.q, a).queue| > |s.q.queue| ==> mustSet != {}
    ensures Inv(s.(q := Q.Next(s.q, a), mustSet := mustSet))
  {
    hide Q.Next, Q.Inv;
    Q.StepKeepsInv(s.q, a);
    OtherRemovals(s.q, a);
    assert s.mustSet != {} ==> mustSet != {};
  }

  lemma CallerKeepsInv<T(!new), S>(s: Session<T, S>, a: Action<T, S>)
    requires Inv(s) && !a.SenderStep?
    ensures Inv(Next(s, a))
  {
    hide Q.Next, Q.Inv, Inv;
    match a
    case FirstPut(pid, event) =>
      if Idle(s, pid) {
        PutEffect(s, pid, Q.FirstPut(pid, event));
        QueueStepKeepsInv(s, Q.FirstPut(pid, event), Next(s, a).mustSet);
      }
    case EvictOldest(pid) =>
      EvictEffect(s.q, pid);
      QueueStepKeepsInv(s, Q.Evict(pid), s.mustSet);
    case SecondPut(pid) =>
      if Q.AttemptOf(s.q, pid).AfterEviction? {
        PutEffect(s, pid, Q.SecondPut(pid));
        QueueStepKeepsInv(s, Q.SecondPut(pid), Next(s, a).mustSet);
      }
    case _ =>
      FlagStepKeepsInv(s, a);
  }

  lemma FlagStepKeepsInv<T(!new), S>(s: Session<T, S>, a: Action<T, S>)
    requires Inv(s)
    requires a.WriteMetrics? || a.Close? || a.SetReady? || a.WaitTimesOut? || a.SendFails?
    ensures Inv(Next(s, a))
  {
    hide Q.Inv, Q.ConsumedItems, EventsSent, NoLostWakeup;
    FlagStepKeepsWakeup(s, a);
    FlagStepKeepsSent(s, a);
  }

  lemma FlagStepKeepsSent<T(!new), S>(s: Session<T, S>, a: Action<T, S>)
    requires a.WriteMetrics? || a.Close? || a.SetReady? || a.WaitTimesOut? || a.SendFails?
    ensures var t := Next(s, a);
            t.q == s.q && EventsSent(t.sent) + InFlight(t) == EventsSent(s.sent) + InFlight(s)
  {
    hide EventsSent;
  }

  lemma FlagStepKeepsWakeup<T(!new), S>(s: Session<T, S>, a: Action<T, S>)
    requires NoLostWakeup(s)
    requires a.WriteMetrics? || a.Close? || a.SetReady? || a.WaitTimesOut? || a.SendFails?
    ensures NoLostWakeup(Next(s, a))
  {
  }

  /** A put that adds to the queue ends its attempt, so its caller goes on to set the flag. */
  lemma PutEffect<T(!new), S>(s: Session<T, S>, pid: Pid, a: Q.Action<T>)
    requires (a.FirstPut? || a.SecondPut?) && a.pid == pid
    requires a.FirstPut? ==> Q.AttemptOf(s.q, pid).Outside?
    requires a.SecondPut? ==> Q.AttemptOf(s.q, pid).AfterEviction?
    ensures Q.Next(s.q, a).queue == s.q.queue || Q.AttemptOf(Q.Next(s.q, a), pid).Outside?
  {
  }

  lemma EvictEffect<T(!new)>(q: Q.State<T>, pid: Pid)
    ensures |Q.Next(q, Q.Evict(pid)).queue| <= |q.queue|
  {
  }

  /** Under any interleaving of callers and the sender, pending work is always announced or
      still ahead of the sender in its present pass. */
  lemma {:induction false} RunKeepsInv<T(!new), S>(maxsize: int, actions: seq<Action<T, S>>)
    ensures Inv(Run(maxsize, actions))
  {
    hide Next, SenderNext, Q.Inv, NoLostWakeup;
    if |actions| == 0 {
      InitialInv<T, S>(maxsize);
    } else {
      var prior, a := actions[..|actions| - 1], actions[|actions| - 1];
      RunKeepsInv(maxsize, prior);
      if a.SenderStep? {
        SenderKeepsInv(Run(maxsize, prior));
        StepIsSenderNext(Run(maxsize, prior));
      } else {
        CallerKeepsInv(Run(maxsize, prior), a);
      }
    }
  }

  lemma InitialInv<T(!new), S>(maxsize: int)
    ensures Inv(Initial<T, S>(maxsize))
  {
    Q.RunKeepsInv<T>(maxsize, []);
  }

  lemma StepIsSenderNext<T(!new), S>(s: Session<T, S>)
    ensures Next(s, SenderStep) == SenderNext(s)
  {
  }

  // ---------- the metrics on the wire ----------

  /** The metrics messages sent, in order. */
  function MetricsSent<T>(sent: seq<Frame<T>>): seq<T> {
    if |sent| == 0 then []
    else
      var prior := MetricsSent(sent[..|sent| - 1]);
      if sent[|sent| - 1].MetricsFrame? then prior + [sent[|sent| - 1].message] else prior
  }

  /** What a caller's step adds to the metrics written. */
  function WrittenBy<T, S>(s: Session<T, S>, a: Action<T, S>): seq<Metrics<T, S>> {
    if a.WriteMetrics? && Idle(s, a.pid) then [a.metrics] else []
  }

  /** The metrics that callers wrote in the run, in order. */
  function Written<T, S(==)>(maxsize: int, actions: seq<Action<T, S>>): seq<Metrics<T, S>> {
    if |actions| == 0 then []
    else
      var prior, a := actions[..|actions| - 1], actions[|actions| - 1];
      Written(maxsize, prior) + WrittenBy(Run(maxsize, prior), a)
  }

  lemma MetricsSentEffect<T>(sent: seq<Frame<T>>, frame: Frame<T>)
    ensures MetricsSent(sent + [frame])
         == if frame.MetricsFrame? then MetricsSent(sent) + [frame.message] else MetricsSent(sent)
  {
    assert (sent + [frame])[..|sent|] == sent;
  }

  /** `positions` are those of the messages sent, among the metrics written. */
  ghost predicate SentFrom<T(!new), S(!new)>(sent: seq<T>, written: seq<Metrics<T, S>>, positions: seq<nat>) {
    && |positions| == |sent|
    && (forall k :: 0 <= k < |sent| ==> positions[k] < |written| && written[positions[k]].message == sent[k])
    && (forall k, l :: 0 <= k < l < |positions| ==> positions[k] < positions[l])
  }

  /** The sender's place among the metrics written: what it holds, and what it recorded. */
  ghost predicate Follows<T(!new), S(!new)>(s: Session<T, S>, written: seq<Metrics<T, S>>, positions: seq<nat>) {
    var n := |positions|;
    && SentFrom(MetricsSent(s.sent), written, positions)
    && s.latest == (if |written| == 0 then None else Some(written[|written| - 1]))
    && (s.sender.RecordSent? ==> n > 0 && written[positions[n - 1]] == s.sender.metrics)
    && (!s.sender.RecordSent? ==>
          s.lastSent == if n == 0 then None else Some(written[positions[n - 1]].sequence))
    && (s.sender.SendMetrics? ==>
          exists r: nat :: (n > 0 ==> positions[n - 1] < r) && r < |written| && written[r] == s.sender.metrics)
  }

  lemma SentFromLonger<T(!new), S(!new)>(sent: seq<T>, written: seq<Metrics<T, S>>, positions: seq<nat>, r: nat)
    requires SentFrom(sent, written, positions) && r < |written|
    requires |positions| > 0 ==> positions[|positions| - 1] < r
    ensures SentFrom(sent + [written[r].message], written, positions + [r])
  {
  }

  lemma SentFromMore<T(!new), S(!new)>(sent: seq<T>, written: seq<Metrics<T, S>>, positions: seq<nat>,
                                              more: seq<Metrics<T, S>>)
    requires SentFrom(sent, written, positions)
    ensures SentFrom(sent, written + more, positions)
    ensures forall k :: 0 <= k < |positions| ==> positions[k] < |written|
  {
  }

  /** The sender sends what it holds: the message joins those on the wire. */
  lemma SendingFollows<T(!new), S(!new)>(s: Session<T, S>, written: seq<Metrics<T, S>>, positions: seq<nat>)
    returns (positions': seq<nat>)
    requires Follows(s, written, positions) && s.sender.SendMetrics?
    ensures Follows(SenderNext(s), written, positions')
  {
    hide MetricsSent, SentFrom;
    var n := |positions|;
    MetricsSentEffect(s.sent, MetricsFrame(s.sender.metrics.message));
    var r: nat :| (n > 0 ==> positions[n - 1] < r) && r < |written| && written[r] == s.sender.metrics;
    SentFromLonger(MetricsSent(s.sent), written, positions, r);
    positions' := positions + [r];
  }

  lemma SendsNoMetrics<T(!new), S>(s: Session<T, S>)
    requires !s.sender.SendMetrics?
    ensures var t := SenderNext(s);
            && MetricsSent(t.sent) == MetricsSent(s.sent) && t.latest == s.latest && !t.sender.RecordSent?
            && t.lastSent == (if s.sender.RecordSent? then Some(s.sender.metrics.sequence) else s.lastSent)
            && (t.sender.SendMetrics? ==>
                  s.sender.ReadMetrics? && s.latest == Some(t.sender.metrics) && IsNew(s, t.sender.metrics))
  {
    hide Q.Next, MetricsSent;
    if s.sender.SendEvent? {
      MetricsSentEffect(s.sent, EventFrame(s.sender.event));
    }
  }

  /** Any other step of the sender sends no metrics. */
  lemma NotSendingFollows<T(!new), S(!new)>(s: Session<T, S>, written: seq<Metrics<T, S>>, positions: seq<nat>)
    requires Follows(s, written, positions) && !s.sender.SendMetrics?
    ensures Follows(SenderNext(s), written, positions)
  {
    SentFromMore(MetricsSent(s.sent), written, positions, []);
    SendsNoMetrics(s);
    hide SenderNext, MetricsSent, SentFrom;
    var n := |positions|;
    if SenderNext(s).sender.SendMetrics? {
      assert n > 0 ==> positions[n - 1] < |written| - 1;
      assert SenderNext(s).sender.metrics == written[|written| - 1];
    }
  }

  lemma CallerFollows<T(!new), S(!new)>(s: Session<T, S>, a: Action<T, S>, written: seq<Metrics<T, S>>,
                                        positions: seq<nat>)
    requires Follows(s, written, positions) && !a.SenderStep?
    ensures Follows(Next(s, a), written + WrittenBy(s, a), positions)
  {
    SentFromMore(MetricsSent(s.sent), written, positions, WrittenBy(s, a));
    hide MetricsSent, SentFrom;
    CallerSendsNothing(s, a);
    hide Next;
    var longer, n := written + WrittenBy(s, a), |positions|;
    assert forall k :: 0 <= k < |written| ==> longer[k] == written[k];
    if s.sender.SendMetrics? {
      var r: nat :| (n > 0 ==> positions[n - 1] < r) && r < |written| && written[r] == s.sender.metrics;
      assert longer[r] == s.sender.metrics;
    }
  }

  lemma CallerSendsNothing<T(!new), S>(s: Session<T, S>, a: Action<T, S>)
    requires !a.SenderStep?
    ensures var t := Next(s, a);
            && t.sent == s.sent && t.lastSent == s.lastSent
            && (t.sender == s.sender || t.sender.Woken? || t.sender.Exited?)
            && (s.sender.RecordSent? ==> t.sender == s.sender)
            && t.latest == if WrittenBy(s, a) == [] then s.latest else Some(WrittenBy(s, a)[0])
  {
    hide Q.Next;
  }

  /** In every run: the metrics messages on the wire are messages that callers wrote, in the order
      written and none twice; `latest` is the last one written, and what is recorded as sent is
      the sequence of the last one on the wire, once the sender has got round to record it. */
  lemma {:induction false} MetricsSentInOrder<T(!new), S(!new)>(maxsize: int, actions: seq<Action<T, S>>)
    returns (positions: seq<nat>)
    ensures Follows(Run(maxsize, actions), Written(maxsize, actions), positions)
  {
    hide Next, SenderNext, Follows;
    if |actions| == 0 {
      positions := [];
      NothingSent<T, S>(maxsize);
    } else {
      var prior, a := actions[..|actions| - 1], actions[|actions| - 1];
      positions := MetricsSentInOrder(maxsize, prior);
      if a.SenderStep? {
        if Run(maxsize, prior).sender.SendMetrics? {
          positions := SendingFollows(Run(maxsize, prior), Written(maxsize, prior), positions);
        } else {
          NotSendingFollows(Run(maxsize, prior), Written(maxsize, prior), positions);
        }
        StepIsSenderNext(Run(maxsize, prior));
        assert Written(maxsize, prior) + [] == Written(maxsize, prior);
      } else {
        CallerFollows(Run(maxsize, prior), a, Written(maxsize, prior), positions);
      }
    }
  }

  lemma NothingSent<T(!new), S(!new)>(maxsize: int)
    ensures Follows(Initial<T, S>(maxsize), [], [])
  {
  }

  /** The message of some metrics written with this sequence is on the wire. */
  ghost predicate OnTheWire<T(!new), S(!new)>(sent: seq<Frame<T>>, written: seq<Metrics<T, S>>, sequence: S) {
    exists m :: m in written && m.sequence == sequence && MetricsFrame(m.message) in sent
  }

  lemma {:induction false} SentMessageIsFrame<T(!new)>(sent: seq<Frame<T>>, k: nat)
    requires k < |MetricsSent(sent)|
    ensures MetricsFrame(MetricsSent(sent)[k]) in sent
  {
    if |sent| > 0 {
      var prior := sent[..|sent| - 1];
      if k < |MetricsSent(prior)| {
        SentMessageIsFrame(prior, k);
      } else {
        assert sent[|sent| - 1] == MetricsFrame(MetricsSent(sent)[k]);
      }
    }
  }

  /** A sequence recorded as sent is that of a message on the wire. */
  lemma RecordedIsOnTheWire<T(!new), S(!new)>(maxsize: int, actions: seq<Action<T, S>>)
    requires Run(maxsize, actions).lastSent.Some? && !Run(maxsize, actions).sender.RecordSent?
    ensures var s := Run(maxsize, actions); OnTheWire(s.sent, Written(maxsize, actions), s.lastSent.value)
  {
    var positions := MetricsSentInOrder(maxsize, actions);
    var s, written := Run(maxsize, actions), Written(maxsize, actions);
    hide Run, Written, MetricsSent;
    var n := |positions|;
    SentMessageIsFrame(s.sent, n - 1);
    assert written[positions[n - 1]] in written;
  }

  /** So the half-second timeout is not needed: a sender blocked in its wait, with no caller
      between its write and its set, has nothing left to send, and an open session. The message on
      the wire for the last metrics written is of the same sequence. */
  lemma BlockedMeansNothingPending<T(!new), S(!new)>(maxsize: int, actions: seq<Action<T, S>>)
    requires var s := Run(maxsize, actions); s.sender.Waiting? && !Announced(s)
    ensures var s, written := Run(maxsize, actions), Written(maxsize, actions);
            && !s.closed
            && |s.q.queue| == 0
            && Q.ConsumedItems(s.q.removed) == EventsSent(s.sent)
            && (|written| > 0 ==> OnTheWire(s.sent, written, written[|written| - 1].sequence))
  {
    RunKeepsInv(maxsize, actions);
    var positions := MetricsSentInOrder(maxsize, actions);
    hide Run, Written, Q.Inv, OnTheWire, SentFrom;
    if |Written(maxsize, actions)| > 0 {
      RecordedIsOnTheWire(maxsize, actions);
    }
  }

  // ---------- the sender alone delivers ----------

  function SenderRun<T, S(==)>(s: Session<T, S>, n: nat): Session<T, S>
    decreases n
  {
    if n == 0 then s else SenderRun(SenderNext(s), n - 1)
  }

  /** Progress through a pass: with the flag still set a whole further pass is ahead. */
  function Rank<T, S>(s: Session<T, S>): nat {
    match s.sender
    case SendEvent(_) => 9
    case DrainCheck => 8
    case DrainGet => 7
    case ReadMetrics => 6
    case SendMetrics(_) => 5
    case RecordSent(_) => 4
    case LoopHead => if s.ready then 3 else 1
    case Waiting => if s.ready then 2 else 0
    case Woken => if s.ready then 1 else 10
    case Exited(_) => 0
  }

  predicate Settled<T, S(==)>(s: Session<T, S>) {
    && s.sender.Waiting? && !s.ready && |s.q.queue| == 0
    && (s.latest.Some? ==> !IsNew(s, s.latest.value))
  }

  /** The metrics that the sender, left alone, has still to send: those it is sending, and the latest
      if their sequence is another. */
  function Unsent<T, S(==)>(s: Session<T, S>): seq<T> {
    var sending := if s.sender.SendMetrics? then [s.sender.metrics.message] else [];
    var recorded := if Sending(s) then Some(s.sender.metrics.sequence) else s.lastSent;
    sending + if s.latest.Some? && recorded != Some(s.latest.value.sequence) then [s.latest.value.message] else []
  }

  lemma SenderProgress<T(!new), S>(s: Session<T, S>)
    requires !s.closed && !(s.sender.Waiting? && !s.ready) && !s.sender.Exited?
    ensures var t := SenderNext(s);
            && t.latest == s.latest && t.mustSet == s.mustSet && t.closed == s.closed && !t.sender.Exited?
            && |t.q.queue| <= |s.q.queue|
            && (t.ready ==> s.ready)
            && (t.ready == s.ready && |t.q.queue| == |s.q.queue| ==> Rank(t) < Rank(s))
            && EventsSent(t.sent) + InFlight(t) + t.q.queue == EventsSent(s.sent) + InFlight(s) + s.q.queue
            && MetricsSent(t.sent) + Unsent(t) == MetricsSent(s.sent) + Unsent(s)
  {
    var t := SenderNext(s);
    if s.sender.SendEvent? || s.sender.SendMetrics? {
      assert t.sent[..|s.sent|] == s.sent;
    }
    if s.sender.DrainGet? && |s.q.queue| > 0 {
      assert s.q.queue == [s.q.queue[0]] + s.q.queue[1..];
    }
  }

  /** Left alone, the sender finishes: with no caller still to set the flag, it reaches its
      wait with the flag clear after finitely many steps and no timeout, having sent every
      queued event in order, and of metrics exactly those unsent, once. */
  lemma {:induction false} SenderDelivers<T(!new), S>(s: Session<T, S>) returns (n: nat)
    requires Inv(s) && !s.closed && s.mustSet == {}
    ensures var t := SenderRun(s, n);
            && Settled(t) && t.latest == s.latest
            && EventsSent(t.sent) == EventsSent(s.sent) + InFlight(s) + s.q.queue
            && MetricsSent(t.sent) == MetricsSent(s.sent) + Unsent(s)
    decreases s.ready, |s.q.queue|, Rank(s)
  {
    hide Q.Inv, SenderNext;
    if s.sender.Waiting? && !s.ready {
      n := 0;
    } else {
      SenderKeepsInv(s);
      SenderProgress(s);
      var rest := SenderDelivers(SenderNext(s));
      n := rest + 1;
    }
  }

  // ---------- the sender alone, after any run ----------

  function SenderSteps<T, S>(n: nat): seq<Action<T, S>> {
    seq(n, _ => SenderStep)
  }

  lemma {:induction false} SenderRunIsRun<T(!new), S(!new)>(maxsize: int, actions: seq<Action<T, S>>, n: nat)
    ensures Run(maxsize, actions + SenderSteps(n)) == SenderRun(Run(maxsize, actions), n)
    ensures Written(maxsize, actions + SenderSteps(n)) == Written(maxsize, actions)
    decreases n
  {
    hide Next, SenderNext;
    if n == 0 {
      assert actions + SenderSteps<T, S>(0) == actions;
    } else {
      var one := actions + [SenderStep];
      assert one[..|actions|] == actions;
      StepIsSenderNext(Run(maxsize, actions));
      assert Written(maxsize, one) == Written(maxsize, actions);
      SenderRunIsRun(maxsize, one, n - 1);
      assert one + SenderSteps(n - 1) == actions + SenderSteps(n);
    }
  }

  /** After any run that leaves an open session and no caller about to set the flag: the sender
      alone settles, every event still queued or in hand is sent in order, and if metrics were
      ever written a message of the last one's sequence is on the wire. */
  lemma RunThenDelivers<T(!new), S(!new)>(maxsize: int, actions: seq<Action<T, S>>) returns (n: nat)
    requires !Run(maxsize, actions).closed && Run(maxsize, actions).mustSet == {}
    ensures var s, t := Run(maxsize, actions), SenderRun(Run(maxsize, actions), n);
            var written := Written(maxsize, actions);
            && t.sender.Waiting? && !t.ready && |t.q.queue| == 0
            && EventsSent(t.sent) == EventsSent(s.sent) + InFlight(s) + s.q.queue
            && MetricsSent(t.sent) == MetricsSent(s.sent) + Unsent(s)
            && (|written| > 0 ==> OnTheWire(t.sent, written, written[|written| - 1].sequence))
  {
    RunKeepsInv(maxsize, actions);
    hide Run, Written, Inv, SenderRun, OnTheWire, Unsent, EventsSent, MetricsSent;
    n := SenderDelivers(Run(maxsize, actions));
    SenderRunIsRun(maxsize, actions, n);
    var longer := actions + SenderSteps(n);
    var positions := MetricsSentInOrder(maxsize, longer);
    hide SentFrom;
    if |Written(maxsize, actions)| > 0 {
      RecordedIsOnTheWire(maxsize, longer);
    }
  }

  /** The step closes the session: a caller's close, or a send that fails. */
  ghost predicate Closes<T, S>(s: Session<T, S>, a: Action<T, S>) {
    || (a.Close? && Idle(s, a.pid))
    || (a.SendFails? && (s.sender.SendEvent? || s.sender.SendMetrics?))
  }

  ghost predicate ClosesAt<T, S>(maxsize: int, actions: seq<Action<T, S>>, k: nat) {
    k < |actions| && Closes(Run(maxsize, actions[..k]), actions[k])
  }

  lemma ClosedNext<T(!new), S>(s: Session<T, S>, a: Action<T, S>)
    ensures Next(s, a).closed <==> s.closed || Closes(s, a)
  {
    hide Q.Next;
  }

  /** In every run the session is closed exactly when some step has closed it, for good. */
  lemma {:induction false} ClosedIffSomeStepCloses<T(!new), S(!new)>(maxsize: int, actions: seq<Action<T, S>>)
    ensures Run(maxsize, actions).closed <==> exists k: nat :: ClosesAt(maxsize, actions, k)
  {
    if |actions| > 0 {
      var n := |actions| - 1;
      ClosedIffSomeStepCloses(maxsize, actions[..n]);
      ClosedNext(Run(maxsize, actions[..n]), actions[n]);
      hide Next, Closes;
      forall k: nat
        ensures ClosesAt(maxsize, actions, k)
           <==> ClosesAt(maxsize, actions[..n], k) || (k == n && Closes(Run(maxsize, actions[..n]), actions[n]))
      {
        if k < n {
          assert actions[..n][..k] == actions[..k];
        }
      }
      assert Closes(Run(maxsize, actions[..n]), actions[n]) ==> ClosesAt(maxsize, actions, n);
    }
  }

  /** A closed session's sender leaves its loop within seven steps. */
  lemma ClosedSenderExits<T(!new), S(!new)>(maxsize: int, actions: seq<Action<T, S>>)
    requires Run(maxsize, actions).closed && Run(maxsize, actions).mustSet == {}
    ensures SenderRun(Run(maxsize, actions), 7).sender.Exited?
  {
    RunKeepsInv(maxsize, actions);
    hide Run;
    ExitsSoon(Run(maxsize, actions), 7);
  }

  function StepsToExit<T, S>(s: Session<T, S>): nat {
    match s.sender
    case Exited(_) => 0
    case LoopHead => 1
    case RecordSent(_) => 2
    case SendMetrics(_) => 3
    case ReadMetrics => 4
    case DrainCheck => 5
    case SendEvent(_) => 6
    case Woken => 6
    case DrainGet => 7
    case Waiting => 7
  }

  lemma {:induction false} ExitsSoon<T(!new), S(!new)>(s: Session<T, S>, n: nat)
    requires s.closed && (s.sender.Waiting? ==> s.ready) && StepsToExit(s) <= n
    ensures SenderRun(s, n).sender.Exited?
    decreases n
  {
    if n > 0 {
      ExitsSoon(SenderNext(s), n - 1);
    }
  }
}
