/** The bounded drop-oldest queue: `put_latest`, and the same three steps inside the IPC
    session's `enqueue`. First the queue object and one uninterrupted call, then any
    interleaving of producers with one consumer, each queue operation being one step. */
module DropOldestQueue {
  import opened Wrappers

  /** Python's `Queue.full`: a non-positive `maxsize` means no bound. */
  predicate IsFull<T>(items: seq<T>, maxsize: int) {
    maxsize > 0 && |items| >= maxsize
  }

  class BoundedQueue<T> {
    const maxsize: int
    var items: seq<T>

    ghost predicate Valid()
      reads this
    {
      maxsize > 0 ==> |items| <= maxsize
    }

    constructor (maxsize: int)
      ensures Valid() && items == [] && this.maxsize == maxsize
    {
      this.maxsize, items := maxsize, [];
    }

    /** `put_nowait`; false is the `Full` error. */
    method PutNowait(item: T) returns (ok: bool)
      requires Valid()
      modifies this
      ensures Valid()
      ensures ok <==> !IsFull(old(items), maxsize)
      ensures items == if ok then old(items) + [item] else old(items)
    {
      ok := !IsFull(items, maxsize);
      if ok {
        items := items + [item];
      }
    }

    /** `get_nowait`; `None` is the `Empty` error. */
    method GetNowait() returns (item: Option<T>)
      requires Valid()
      modifies this
      ensures Valid()
      ensures item == if |old(items)| > 0 then Some(old(items)[0]) else None
      ensures items == if |old(items)| > 0 then old(items)[1..] else old(items)
    {
      if |items| == 0 {
        return None;
      }
      item := Some(items[0]);
      items := items[1..];
    }

    /** `put_latest` without interruption: the new item is always queued, and only the
        oldest one is dropped for it. */
    method PutLatest(item: T)
      requires Valid()
      modifies this
      ensures Valid()
      ensures items == (if IsFull(old(items), maxsize) then old(items)[1..] else old(items)) + [item]
    {
      var ok := PutNowait(item);
      if ok {
        return;
      }
      var _ := GetNowait();
      ok := PutNowait(item);
    }
  }

  // ---------- interleavings ----------

  type Pid = nat

  /** Where a producer is inside one call. `mark` is the number of items that had been
      inserted when its eviction step ran. */
  datatype Attempt<T> = Outside | SawFull(item: T) | AfterEviction(item: T, mark: nat)

  datatype Removal<T> = Consumed(item: T) | Evicted(item: T)

  /** A call that dropped its own item: its mark, and the insert count at that moment. */
  datatype GiveUp<T> = GiveUp(item: T, mark: nat, inserted: nat)

  /** The queue and the producers, with the whole history of inserts, removals and give-ups. */
  datatype State<T> = State(
    maxsize: int,
    queue: seq<T>,
    attempts: map<Pid, Attempt<T>>,
    inserted: seq<T>,
    removed: seq<Removal<T>>,
    gaveUp: seq<GiveUp<T>>)

  datatype Action<T> = FirstPut(pid: Pid, item: T) | Evict(pid: Pid) | SecondPut(pid: Pid) | Consume

  function Initial<T>(maxsize: int): State<T> {
    State(maxsize, [], map[], [], [], [])
  }

  function AttemptOf<T>(s: State<T>, pid: Pid): Attempt<T> {
    if pid in s.attempts then s.attempts[pid] else Outside
  }

  function Insert<T>(s: State<T>, item: T): State<T> {
    s.(queue := s.queue + [item], inserted := s.inserted + [item])
  }

  function RemoveHead<T>(s: State<T>, removal: Removal<T>): State<T>
    requires |s.queue| > 0
  {
    s.(queue := s.queue[1..], removed := s.removed + [removal])
  }

  /** One atomic step; an action that is not enabled changes nothing. */
  function Next<T>(s: State<T>, a: Action<T>): State<T> {
    match a
    case FirstPut(pid, item) =>
      if !AttemptOf(s, pid).Outside? then s
      else if IsFull(s.queue, s.maxsize) then s.(attempts := s.attempts[pid := SawFull(item)])
      else Insert(s, item)
    case Evict(pid) =>
      if !AttemptOf(s, pid).SawFull? then s
      else
        var moved := s.(attempts := s.attempts[pid := AfterEviction(AttemptOf(s, pid).item, |s.inserted|)]);
        if |s.queue| == 0 then moved else RemoveHead(moved, Evicted(s.queue[0]))
    case SecondPut(pid) =>
      if !AttemptOf(s, pid).AfterEviction? then s
      else
        var attempt, left := AttemptOf(s, pid), s.(attempts := s.attempts[pid := Outside]);
        if IsFull(s.queue, s.maxsize) then
          left.(gaveUp := s.gaveUp + [GiveUp(attempt.item, attempt.mark, |s.inserted|)])
        else Insert(left, attempt.item)
    case Consume =>
      if |s.queue| == 0 then s else RemoveHead(s, Consumed(s.queue[0]))
  }

  function Run<T>(maxsize: int, actions: seq<Action<T>>): State<T> {
    if |actions| == 0 then Initial(maxsize)
    else Next(Run(maxsize, actions[..|actions| - 1]), actions[|actions| - 1])
  }

  function ItemsOf<T>(removed: seq<Removal<T>>): (r: seq<T>)
    ensures |r| == |removed|
    ensures forall k :: 0 <= k < |removed| ==> r[k] == removed[k].item
  {
    seq(|removed|, k requires 0 <= k < |removed| => removed[k].item)
  }

  /** Inserts and removals account for the queue exactly, capacity holds, and a call between
      its eviction and its second put has made room that only a later insert can have taken. */
  ghost predicate Inv<T(!new)>(s: State<T>) {
    && s.inserted == ItemsOf(s.removed) + s.queue
    && (s.maxsize > 0 ==> |s.queue| <= s.maxsize)
    && (forall pid :: AttemptOf(s, pid).SawFull? ==> s.maxsize > 0)
    && (forall pid :: AttemptOf(s, pid).AfterEviction? ==>
          var mark := AttemptOf(s, pid).mark;
          mark <= |s.inserted| && |s.queue| < s.maxsize + (|s.inserted| - mark))
    && (forall k :: 0 <= k < |s.gaveUp| ==> s.gaveUp[k].mark < s.gaveUp[k].inserted <= |s.inserted|)
  }

  lemma StepKeepsInv<T(!new)>(s: State<T>, a: Action<T>)
    requires Inv(s)
    ensures Inv(Next(s, a))
  {
    hide ItemsOf;
    StepKeepsAccount(s, a);
    StepKeepsAttempts(s, a);
  }

  lemma StepKeepsAccount<T(!new)>(s: State<T>, a: Action<T>)
    requires s.inserted == ItemsOf(s.removed) + s.queue
    ensures var t := Next(s, a); t.inserted == ItemsOf(t.removed) + t.queue
  {
    var t := Next(s, a);
    if |s.queue| > 0 {
      assert s.queue == [s.queue[0]] + s.queue[1..];
      assert |t.removed| > |s.removed| ==> ItemsOf(t.removed) == ItemsOf(s.removed) + [s.queue[0]];
    }
  }

  lemma StepKeepsAttempts<T(!new)>(s: State<T>, a: Action<T>)
    requires Inv(s)
    ensures var t := Next(s, a);
            && (forall pid :: AttemptOf(t, pid).SawFull? ==> t.maxsize > 0)
            && (forall pid :: AttemptOf(t, pid).AfterEviction? ==>
                  var mark := AttemptOf(t, pid).mark;
                  mark <= |t.inserted| && |t.queue| < t.maxsize + (|t.inserted| - mark))
  {
    hide ItemsOf;
    var t := Next(s, a);
    forall pid | AttemptOf(t, pid).AfterEviction?
      ensures var mark := AttemptOf(t, pid).mark;
              mark <= |t.inserted| && |t.queue| < t.maxsize + (|t.inserted| - mark)
    {
      assert AttemptOf(s, pid).AfterEviction? || AttemptOf(s, pid).SawFull?;
    }
    forall pid | AttemptOf(t, pid).SawFull?
      ensures t.maxsize > 0
    {
      assert AttemptOf(s, pid).SawFull? || a == FirstPut(pid, AttemptOf(t, pid).item);
    }
  }

  lemma {:induction false} RunKeepsInv<T(!new)>(maxsize: int, actions: seq<Action<T>>)
    ensures Inv(Run(maxsize, actions)) && Run(maxsize, actions).maxsize == maxsize
  {
    if |actions| > 0 {
      var prior := actions[..|actions| - 1];
      RunKeepsInv(maxsize, prior);
      StepKeepsInv(Run(maxsize, prior), actions[|actions| - 1]);
    }
  }

  // ---------- what the consumer sees ----------

  function ConsumedItems<T>(removed: seq<Removal<T>>): seq<T> {
    if |removed| == 0 then []
    else
      var prior := ConsumedItems(removed[..|removed| - 1]);
      if removed[|removed| - 1].Consumed? then prior + [removed[|removed| - 1].item] else prior
  }

  function EvictedItems<T>(removed: seq<Removal<T>>): seq<T> {
    if |removed| == 0 then []
    else
      var prior := EvictedItems(removed[..|removed| - 1]);
      if removed[|removed| - 1].Evicted? then prior + [removed[|removed| - 1].item] else prior
  }

  /** `positions` picks `part` out of `whole`, in order and without repetition. */
  ghost predicate Selects<T(!new)>(positions: seq<nat>, part: seq<T>, whole: seq<T>) {
    && |positions| == |part|
    && (forall k :: 0 <= k < |part| ==> positions[k] < |whole| && whole[positions[k]] == part[k])
    && (forall k, l :: 0 <= k < l < |positions| ==> positions[k] < positions[l])
  }

  lemma {:induction false} ConsumedInOrder<T(!new)>(removed: seq<Removal<T>>) returns (positions: seq<nat>)
    ensures Selects(positions, ConsumedItems(removed), ItemsOf(removed))
  {
    if |removed| == 0 {
      positions := [];
    } else {
      var n := |removed| - 1;
      positions := ConsumedInOrder(removed[..n]);
      assert forall k :: 0 <= k < n ==> ItemsOf(removed[..n])[k] == ItemsOf(removed)[k];
      if removed[n].Consumed? {
        positions := positions + [n];
      }
    }
  }

  lemma ItemsOfLast<T(!new)>(removed: seq<Removal<T>>)
    requires |removed| > 0
    ensures ItemsOf(removed) == ItemsOf(removed[..|removed| - 1]) + [removed[|removed| - 1].item]
  {
  }

  lemma LastRemoval<T(!new)>(removed: seq<Removal<T>>)
    requires |removed| > 0
    ensures var (front, last) := (removed[..|removed| - 1], removed[|removed| - 1]);
            && ConsumedItems(removed) == ConsumedItems(front) + (if last.Consumed? then [last.item] else [])
            && EvictedItems(removed) == EvictedItems(front) + (if last.Consumed? then [] else [last.item])
  {
  }

  lemma {:induction false} RemovedSplit<T(!new)>(removed: seq<Removal<T>>)
    ensures multiset(ItemsOf(removed)) == multiset(ConsumedItems(removed)) + multiset(EvictedItems(removed))
  {
    if |removed| > 0 {
      ItemsOfLast(removed);
      LastRemoval(removed);
      hide ItemsOf, ConsumedItems, EvictedItems;
      RemovedSplit(removed[..|removed| - 1]);
    }
  }

  /** For every interleaving: the queue never exceeds its capacity, the consumer has seen
      inserted items in insertion order, and inserted = consumed + evicted + queued. */
  lemma QueueAccounts<T(!new)>(maxsize: int, actions: seq<Action<T>>) returns (positions: seq<nat>)
    ensures var s := Run(maxsize, actions);
            && (maxsize > 0 ==> |s.queue| <= maxsize)
            && Selects(positions, ConsumedItems(s.removed), s.inserted)
            && multiset(s.inserted)
                 == multiset(ConsumedItems(s.removed)) + multiset(EvictedItems(s.removed)) + multiset(s.queue)
  {
    var s := Run(maxsize, actions);
    RunKeepsInv(maxsize, actions);
    positions := ConsumedInOrder(s.removed);
    RemovedSplit(s.removed);
    assert forall k :: 0 <= k < |s.removed| ==> s.inserted[k] == ItemsOf(s.removed)[k];
  }

  /** A producer gives its own item up only after another item was inserted since that same
      call's eviction step. */
  lemma GiveUpMeansNewerInserted<T(!new)>(maxsize: int, actions: seq<Action<T>>, k: nat)
    requires k < |Run(maxsize, actions).gaveUp|
    ensures var g := Run(maxsize, actions).gaveUp[k];
            g.mark < g.inserted <= |Run(maxsize, actions).inserted|
  {
    RunKeepsInv(maxsize, actions);
  }

  // ---------- when an item may be evicted ----------

  /** The producer's present call saw the queue full in its first put, at action `j`. */
  ghost predicate SawFullAt<T(!new)>(maxsize: int, actions: seq<Action<T>>, pid: Pid, j: nat) {
    && j < |actions| && actions[j].FirstPut? && actions[j].pid == pid
    && maxsize > 0 && |Run(maxsize, actions[..j]).queue| >= maxsize
    && AttemptOf(Run(maxsize, actions[..j]), pid).Outside?
    && forall m :: j < m <= |actions| ==> AttemptOf(Run(maxsize, actions[..m]), pid) == SawFull(actions[j].item)
  }

  lemma RunNext<T(!new)>(maxsize: int, actions: seq<Action<T>>)
    requires |actions| > 0
    ensures Run(maxsize, actions) == Next(Run(maxsize, actions[..|actions| - 1]), actions[|actions| - 1])
  {
  }

  lemma FirstPutAttempt<T(!new)>(s: State<T>, a: Action<T>, pid: Pid)
    ensures AttemptOf(Next(s, a), pid).SawFull? <==>
              || (AttemptOf(s, pid).SawFull? && a != Evict(pid))
              || (a.FirstPut? && a.pid == pid && AttemptOf(s, pid).Outside? && s.maxsize > 0 && |s.queue| >= s.maxsize)
    ensures AttemptOf(Next(s, a), pid).SawFull? ==>
              AttemptOf(Next(s, a), pid) == if AttemptOf(s, pid).SawFull? then AttemptOf(s, pid) else SawFull(a.item)
  {
  }

  lemma StillSawFull<T(!new)>(maxsize: int, actions: seq<Action<T>>, a: Action<T>, pid: Pid, j: nat)
    requires SawFullAt(maxsize, actions, pid, j)
    requires AttemptOf(Run(maxsize, actions + [a]), pid) == AttemptOf(Run(maxsize, actions), pid)
    ensures SawFullAt(maxsize, actions + [a], pid, j)
  {
    hide Run, AttemptOf;
    var longer := actions + [a];
    assert longer[..j] == actions[..j] && actions[..|actions|] == actions && longer[..|longer|] == longer;
    forall m | j < m <= |longer|
      ensures AttemptOf(Run(maxsize, longer[..m]), pid) == SawFull(longer[j].item)
    {
      if m <= |actions| {
        assert longer[..m] == actions[..m];
      }
    }
  }

  lemma JustSawFull<T(!new)>(maxsize: int, actions: seq<Action<T>>, a: Action<T>, pid: Pid)
    requires AttemptOf(Run(maxsize, actions), pid).Outside? && a.FirstPut? && a.pid == pid
    requires maxsize > 0 && |Run(maxsize, actions).queue| >= maxsize
    requires AttemptOf(Run(maxsize, actions + [a]), pid) == SawFull(a.item)
    ensures SawFullAt(maxsize, actions + [a], pid, |actions|)
  {
    hide Run, AttemptOf;
    var longer := actions + [a];
    assert longer[..|actions|] == actions && longer[..|longer|] == longer;
  }

  lemma {:induction false} SawFullSince<T(!new)>(maxsize: int, actions: seq<Action<T>>, pid: Pid) returns (j: nat)
    requires AttemptOf(Run(maxsize, actions), pid).SawFull?
    ensures SawFullAt(maxsize, actions, pid, j)
  {
    if |actions| == 0 {
      assert false;
    } else {
      var prior, a := actions[..|actions| - 1], actions[|actions| - 1];
      assert actions == prior + [a];
      RunNext(maxsize, actions);
      RunKeepsInv(maxsize, prior);
      hide Run, Next, Inv, SawFullAt, AttemptOf;
      FirstPutAttempt(Run(maxsize, prior), a, pid);
      if AttemptOf(Run(maxsize, prior), pid).SawFull? {
        j := SawFullSince(maxsize, prior, pid);
        StillSawFull(maxsize, prior, a, pid, j);
      } else {
        j := |prior|;
        JustSawFull(maxsize, prior, a, pid);
      }
    }
  }

  lemma OnlyEvictionRemoves<T(!new)>(s: State<T>, a: Action<T>)
    ensures EvictedItems(Next(s, a).removed)
         == if a.Evict? && AttemptOf(s, a.pid).SawFull? && |s.queue| > 0 then EvictedItems(s.removed) + [s.queue[0]]
            else EvictedItems(s.removed)
  {
    var t := Next(s, a);
    if |t.removed| > |s.removed| {
      assert t.removed[..|t.removed| - 1] == s.removed;
    }
  }

  /** In every interleaving, the next step evicts an item exactly when it is the eviction step of a
      call whose first put met a full queue, and the queue is not empty by now; it is the oldest. */
  lemma EvictsIffCallSawFull<T(!new)>(maxsize: int, actions: seq<Action<T>>, a: Action<T>)
    ensures var s, t := Run(maxsize, actions), Next(Run(maxsize, actions), a);
            var evicts := a.Evict? && |s.queue| > 0 && exists j: nat :: SawFullAt(maxsize, actions, a.pid, j);
            EvictedItems(t.removed) == EvictedItems(s.removed) + if evicts then [s.queue[0]] else []
  {
    var s := Run(maxsize, actions);
    OnlyEvictionRemoves(s, a);
    hide Run, Next, EvictedItems;
    assert actions[..|actions|] == actions;
    if a.Evict? && AttemptOf(s, a.pid).SawFull? {
      var j := SawFullSince(maxsize, actions, a.pid);
    }
  }

  /** So nothing is evicted before the queue was full once, and nothing ever if it has no bound. */
  lemma {:induction false} EvictionNeedsFullQueue<T(!new)>(maxsize: int, actions: seq<Action<T>>)
    requires EvictedItems(Run(maxsize, actions).removed) != []
    ensures maxsize > 0 && exists j: nat :: j < |actions| && |Run(maxsize, actions[..j]).queue| >= maxsize
  {
    if |actions| > 0 {
      var prior := actions[..|actions| - 1];
      RunNext(maxsize, actions);
      EvictsIffCallSawFull(maxsize, prior, actions[|actions| - 1]);
      hide Run, Next, EvictedItems;
      if EvictedItems(Run(maxsize, prior).removed) != [] {
        EvictionNeedsFullQueue(maxsize, prior);
        var j: nat :| j < |prior| && |Run(maxsize, prior[..j]).queue| >= maxsize;
        assert prior[..j] == actions[..j];
      } else {
        var j: nat :| SawFullAt(maxsize, prior, actions[|actions| - 1].pid, j);
        assert prior[..j] == actions[..j];
      }
    }
  }

  /** One call that nothing interrupts, from any state that a run reaches: the item is queued last,
      and the oldest one is dropped exactly when the queue held `maxsize` items. */
  lemma UninterruptedPut<T(!new)>(maxsize: int, actions: seq<Action<T>>, pid: Pid, item: T)
    requires AttemptOf(Run(maxsize, actions), pid).Outside?
    ensures var s := Run(maxsize, actions);
            var t := Run(maxsize, actions + [FirstPut(pid, item), Evict(pid), SecondPut(pid)]);
            var full := maxsize > 0 && |s.queue| >= maxsize;
            && t.queue == (if full then s.queue[1..] else s.queue) + [item]
            && t.inserted == s.inserted + [item] && t.gaveUp == s.gaveUp
            && EvictedItems(t.removed) == EvictedItems(s.removed) + (if full then [s.queue[0]] else [])
            && AttemptOf(t, pid).Outside?
  {
    var s := Run(maxsize, actions);
    RunKeepsInv(maxsize, actions);
    ThreeMore(maxsize, actions, FirstPut(pid, item), Evict(pid), SecondPut(pid));
    hide Run, EvictedItems;
    PutSteps(s, pid, item);
  }

  lemma ThreeMore<T(!new)>(maxsize: int, actions: seq<Action<T>>, a: Action<T>, b: Action<T>, c: Action<T>)
    ensures Run(maxsize, actions + [a, b, c]) == Next(Next(Next(Run(maxsize, actions), a), b), c)
  {
    hide Next;
    var one, two, three := actions + [a], actions + [a, b], actions + [a, b, c];
    assert one[..|actions|] == actions && two[..|one|] == one && three[..|two|] == two;
    RunNext(maxsize, one);
    RunNext(maxsize, two);
    RunNext(maxsize, three);
  }

  lemma PutSteps<T(!new)>(s: State<T>, pid: Pid, item: T)
    requires AttemptOf(s, pid).Outside? && (s.maxsize > 0 ==> |s.queue| <= s.maxsize)
    ensures var t := Next(Next(Next(s, FirstPut(pid, item)), Evict(pid)), SecondPut(pid));
            var full := s.maxsize > 0 && |s.queue| >= s.maxsize;
            && t.queue == (if full then s.queue[1..] else s.queue) + [item]
            && t.inserted == s.inserted + [item] && t.gaveUp == s.gaveUp
            && EvictedItems(t.removed) == EvictedItems(s.removed) + (if full then [s.queue[0]] else [])
            && AttemptOf(t, pid).Outside?
  {
    hide EvictedItems;
    var one := Next(s, FirstPut(pid, item));
    OnlyEvictionRemoves(s, FirstPut(pid, item));
    OnlyEvictionRemoves(one, Evict(pid));
    OnlyEvictionRemoves(Next(one, Evict(pid)), SecondPut(pid));
  }
}
