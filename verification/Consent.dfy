/** How an incoming offer meets the user: the consent closure of every worker, the event channel of every
    service instance and the window's single `pending` slot (src/bin/hirodrop-gui.rs:578-626, :824-911,
    :1129-1216, :2642-2658). Times and threads are replaced by steps in any order. */
module Consent {
  import opened Prelude

  type WorkerId = nat
  type Instance = nat

  /** The reply channel of one worker. A channel whose sender is dropped is `Closed`; a value once sent stays. */
  datatype Reply = Unasked | Open | Answered(decision: bool) | Closed

  datatype Event = Offer(worker: WorkerId) | Stopped

  datatype State = State(
    instanceOf: map<WorkerId, Instance>,
    replies: map<WorkerId, Reply>,
    returned: map<WorkerId, bool>,
    dead: set<WorkerId>,
    current: Option<Instance>,
    queue: seq<Event>,
    pending: Option<WorkerId>,
    running: bool,
    instances: Instance)

  datatype Action =
    | Spawn(worker: WorkerId, instance: Instance)
    | Poll(worker: WorkerId)
    | Die(worker: WorkerId)
    | Tick
    | Click(accept: bool)
    | Stop
    | Start
    | ServiceStops(instance: Instance)

  function Initial(): State {
    State(map[], map[], map[], {}, None, [], None, false, 0)
  }

  function ReplyOf(st: State, w: WorkerId): Reply {
    if w in st.replies then st.replies[w] else Unasked
  }

  /** Sending into a channel that still waits. */
  function Answer(st: State, w: WorkerId, decision: bool): State {
    st.(replies := st.replies[w := Answered(decision)])
  }

  /** Dropping the sender; a value that has been sent stays readable. */
  function Drop(st: State, w: WorkerId): State {
    if ReplyOf(st, w).Open? then st.(replies := st.replies[w := Closed]) else st
  }

  /** One event taken up by `poll_events`. */
  function TakeEvent(st: State, e: Event): State {
    match e
    case Offer(w) => if st.pending.Some? then Answer(st, w, false) else st.(pending := Some(w))
    case Stopped => (if st.pending.Some? then Drop(st, st.pending.value) else st).(running := false, pending := None)
  }

  function TakeEvents(st: State, events: seq<Event>): State
    decreases |events|
  {
    if events == [] then st else TakeEvents(TakeEvent(st, events[0]), events[1..])
  }

  /** The events of a dropped channel are dropped with the reply senders they hold. */
  function DropEvents(st: State, events: seq<Event>): State
    decreases |events|
  {
    if events == [] then st
    else DropEvents(match events[0] { case Offer(w) => Drop(st, w) case Stopped => st }, events[1..])
  }

  /** On its first call the closure of `w` sends its offer, if its service is the current one. */
  function Ask(st: State, w: WorkerId): State
    requires w in st.instanceOf
  {
    if !ReplyOf(st, w).Unasked? then st
    else if st.current == Some(st.instanceOf[w]) then st.(replies := st.replies[w := Open], queue := st.queue + [Offer(w)])
    else st.(replies := st.replies[w := Closed])
  }

  /** The consent closure: the first call sends the offer, every call looks for the answer. */
  function PollWorker(st: State, w: WorkerId): State
    requires w in st.instanceOf
  {
    var asked := Ask(st, w);
    match ReplyOf(asked, w)
    case Answered(decision) => asked.(returned := asked.returned[w := decision])
    case Closed => asked.(returned := asked.returned[w := false])
    case _ => asked
  }

  predicate Possible(st: State, a: Action) {
    match a
    case Spawn(w, i) => w !in st.instanceOf && 0 < i <= st.instances
    case Poll(w) => w in st.instanceOf && w !in st.returned && w !in st.dead
    case Die(w) => w in st.instanceOf && w !in st.returned && w !in st.dead
    case Click(_) => st.pending.Some?
    case Start => !st.running
    case _ => true
  }

  function Next(st: State, a: Action): State
    requires Possible(st, a)
  {
    match a
    case Spawn(w, i) => st.(instanceOf := st.instanceOf[w := i])
    case Poll(w) => PollWorker(st, w)
    case Die(w) => st.(dead := st.dead + {w})
    case Tick => TakeEvents(st.(queue := []), st.queue)
    case Click(accept) => Answer(st, st.pending.value, accept).(pending := None)
    case Stop => if st.pending.Some? then Answer(st, st.pending.value, false).(pending := None) else st
    case Start =>
      var i := st.instances + 1;
      DropEvents(st, st.queue).(current := Some(i), queue := [], running := true, instances := i)
    case ServiceStops(i) => if st.current == Some(i) then st.(queue := st.queue + [Stopped]) else st
  }

  // ------------------------------------------------------------------
  // The window's methods, as they are written

  class Window {
    var pending: Option<WorkerId>
    var running: bool
    var channel: Option<Instance>
    var queue: seq<Event>
    var started: Instance

    ghost function With(st: State): State
      reads this
    {
      st.(pending := pending, running := running, current := channel, queue := queue, instances := started)
    }

    method PollEvents(replies: map<WorkerId, Reply>, ghost st: State) returns (after: map<WorkerId, Reply>)
      requires st.replies == replies && With(st) == st
      modifies this
      ensures With(st.(replies := after)) == Next(st, Tick)
    {
      var events := queue;
      queue := [];
      after := replies;
      ghost var start := st.(queue := []);
      var i := 0;
      while i < |events|
        invariant 0 <= i <= |events|
        invariant TakeEvents(start, events) == TakeEvents(With(st.(replies := after)), events[i..])
      {
        assert events[i..][0] == events[i] && events[i..][1..] == events[i + 1..];
        match events[i] {
          case Offer(w) =>
            if pending.Some? {
              after := after[w := Answered(false)];
            } else {
              pending := Some(w);
            }
          case Stopped =>
            running := false;
            if pending.Some? && pending.value in after && after[pending.value].Open? {
              after := after[pending.value := Closed];
            }
            pending := None;
        }
        i := i + 1;
      }
      assert events[i..] == [];
    }

    /** `stop`: the offer that waits is refused. */
    method StopService(replies: map<WorkerId, Reply>, ghost st: State) returns (after: map<WorkerId, Reply>)
      requires st.replies == replies && With(st) == st
      modifies this
      ensures With(st.(replies := after)) == Next(st, Stop)
    {
      after := replies;
      if pending.Some? {
        after := after[pending.value := Answered(false)];
        pending := None;
      }
    }
  }

  // ------------------------------------------------------------------
  // What every reachable state satisfies

  predicate Holds(events: seq<Event>, w: WorkerId) {
    exists i :: 0 <= i < |events| && events[i] == Offer(w)
  }

  predicate NoOfferTwice(events: seq<Event>) {
    forall i, j :: 0 <= i < j < |events| && events[i].Offer? ==> events[i] != events[j]
  }

  /** While `events` stand to be taken up: a reply channel waits exactly while its offer is among them or in the
      slot -- in one of the two, once -- and what a closure has returned is what its channel holds. */
  ghost predicate Sound(st: State, events: seq<Event>) {
    && (forall w: WorkerId :: ReplyOf(st, w).Open? <==> Holds(events, w) || st.pending == Some(w))
    && (st.pending.Some? ==> !Holds(events, st.pending.value))
    && NoOfferTwice(events)
    && (forall w :: w in st.returned ==>
          ReplyOf(st, w) == Answered(st.returned[w]) || (ReplyOf(st, w).Closed? && !st.returned[w]))
  }

  ghost predicate Invariant(st: State) {
    Sound(st, st.queue)
  }

  lemma HoldsHead(events: seq<Event>)
    requires events != []
    ensures forall w: WorkerId :: Holds(events, w) <==> events[0] == Offer(w) || Holds(events[1..], w)
    ensures NoOfferTwice(events) ==>
              NoOfferTwice(events[1..]) && (events[0].Offer? ==> !Holds(events[1..], events[0].worker))
  {
    var rest := events[1..];
    forall w: WorkerId
      ensures Holds(events, w) <==> events[0] == Offer(w) || Holds(rest, w)
    {
      if Holds(rest, w) {
        var i :| 0 <= i < |rest| && rest[i] == Offer(w);
        assert events[i + 1] == Offer(w);
      }
      if Holds(events, w) && events[0] != Offer(w) {
        var i :| 0 <= i < |events| && events[i] == Offer(w);
        assert rest[i - 1] == Offer(w);
      }
    }
  }

  lemma HoldsPush(events: seq<Event>, e: Event)
    ensures forall w: WorkerId :: Holds(events + [e], w) <==> e == Offer(w) || Holds(events, w)
    ensures NoOfferTwice(events) && (e.Offer? ==> !Holds(events, e.worker)) ==> NoOfferTwice(events + [e])
  {
    var all := events + [e];
    assert all[|events|] == e;
    forall w: WorkerId
      ensures Holds(all, w) <==> e == Offer(w) || Holds(events, w)
    {
      if Holds(events, w) {
        var i :| 0 <= i < |events| && events[i] == Offer(w);
        assert all[i] == Offer(w);
      }
    }
  }

  lemma TakeKeeps(st: State, events: seq<Event>)
    requires events != [] && Sound(st, events)
    ensures Sound(TakeEvent(st, events[0]), events[1..])
  {
    HoldsHead(events);
    hide Holds, NoOfferTwice;
  }

  lemma {:induction false} TakeAllKeeps(st: State, events: seq<Event>)
    requires Sound(st, events)
    ensures Sound(TakeEvents(st, events), [])
    ensures TakeEvents(st, events).queue == st.queue
    decreases |events|
  {
    hide Sound;
    if events != [] {
      TakeKeeps(st, events);
      TakeAllKeeps(TakeEvent(st, events[0]), events[1..]);
    }
  }

  lemma DropKeeps(st: State, events: seq<Event>)
    requires events != [] && Sound(st, events)
    ensures Sound(match events[0] { case Offer(w) => Drop(st, w) case Stopped => st }, events[1..])
  {
    HoldsHead(events);
    hide Holds, NoOfferTwice;
  }

  lemma {:induction false} DropAllKeeps(st: State, events: seq<Event>)
    requires Sound(st, events)
    ensures Sound(DropEvents(st, events), [])
    ensures DropEvents(st, events).pending == st.pending
    decreases |events|
  {
    hide Sound;
    if events != [] {
      DropKeeps(st, events);
      DropAllKeeps(match events[0] { case Offer(w) => Drop(st, w) case Stopped => st }, events[1..]);
    }
  }

  lemma AskKeeps(st: State, w: WorkerId)
    requires Invariant(st) && Possible(st, Poll(w))
    ensures Invariant(Ask(st, w)) && Possible(Ask(st, w), Poll(w))
  {
    HoldsPush(st.queue, Offer(w));
    hide Holds, NoOfferTwice;
  }

  lemma ReturnKeeps(st: State, w: WorkerId, decision: bool)
    requires Invariant(st) && w !in st.returned
    requires ReplyOf(st, w) == Answered(decision) || (ReplyOf(st, w).Closed? && !decision)
    ensures Invariant(st.(returned := st.returned[w := decision]))
  {
    hide Holds, NoOfferTwice;
  }

  lemma PollKeeps(st: State, w: WorkerId)
    requires Invariant(st) && Possible(st, Poll(w))
    ensures Invariant(PollWorker(st, w))
  {
    AskKeeps(st, w);
    hide Invariant, Ask;
    var asked := Ask(st, w);
    match ReplyOf(asked, w)
    case Answered(decision) => ReturnKeeps(asked, w, decision);
    case Closed => ReturnKeeps(asked, w, false);
    case _ =>
  }

  lemma {:induction false} StepKeeps(st: State, a: Action)
    requires Invariant(st) && Possible(st, a)
    ensures Invariant(Next(st, a))
  {
    match a
    case Spawn(_, _) =>
    case Die(_) =>
    case Poll(w) => PollKeeps(st, w);
    case Tick => TakeAllKeeps(st.(queue := []), st.queue);
    case Click(_) => SlotEmptied(st);
    case Stop => SlotEmptied(st);
    case Start => DropAllKeeps(st, st.queue);
    case ServiceStops(_) => HoldsPush(st.queue, Stopped);
  }

  lemma SlotEmptied(st: State)
    requires Invariant(st)
    ensures st.pending.Some? ==> forall accept :: Invariant(Answer(st, st.pending.value, accept).(pending := None))
  {
    hide Holds, NoOfferTwice;
  }

  ghost predicate CanRun(st: State, actions: seq<Action>)
    decreases |actions|
  {
    actions == [] || (Possible(st, actions[0]) && CanRun(Next(st, actions[0]), actions[1..]))
  }

  function After(st: State, actions: seq<Action>): State
    requires CanRun(st, actions)
    decreases |actions|
  {
    if actions == [] then st else After(Next(st, actions[0]), actions[1..])
  }

  lemma {:induction false} RunKeeps(st: State, actions: seq<Action>)
    requires Invariant(st) && CanRun(st, actions)
    ensures Invariant(After(st, actions))
    decreases |actions|
  {
    hide Invariant, Next, Possible;
    if actions != [] {
      StepKeeps(st, actions[0]);
      RunKeeps(Next(st, actions[0]), actions[1..]);
    }
  }

  // ------------------------------------------------------------------
  // Theorems

  predicate Accepted(st: State, w: WorkerId) {
    ReplyOf(st, w) == Answered(true)
  }

  lemma {:induction false} TakingNeverAccepts(st: State, events: seq<Event>, w: WorkerId)
    ensures Accepted(TakeEvents(st, events), w) ==> Accepted(st, w)
    decreases |events|
  {
    if events != [] {
      TakingNeverAccepts(TakeEvent(st, events[0]), events[1..], w);
    }
  }

  lemma {:induction false} DroppingNeverAccepts(st: State, events: seq<Event>, w: WorkerId)
    ensures Accepted(DropEvents(st, events), w) ==> Accepted(st, w)
    decreases |events|
  {
    if events != [] {
      DroppingNeverAccepts(match events[0] { case Offer(v) => Drop(st, v) case Stopped => st }, events[1..], w);
    }
  }

  /** One step accepts `w` only if it is the user's click on Accept while the slot shows the offer of `w`. */
  lemma OnlyClickAccepts(st: State, a: Action, w: WorkerId)
    requires Possible(st, a) && Accepted(Next(st, a), w)
    ensures Accepted(st, w) || (a == Click(true) && st.pending == Some(w))
  {
    match a
    case Tick => TakingNeverAccepts(st.(queue := []), st.queue, w);
    case Start => DroppingNeverAccepts(st, st.queue, w);
    case _ =>
  }

  lemma PrefixRuns(st: State, actions: seq<Action>, k: nat)
    requires CanRun(st, actions) && k <= |actions|
    ensures CanRun(st, actions[..k])
    decreases k
  {
    if k > 0 {
      PrefixRuns(Next(st, actions[0]), actions[1..], k - 1);
      assert actions[..k][1..] == actions[1..][..k - 1];
    }
  }

  lemma {:induction false} AcceptedByClick(st: State, actions: seq<Action>, w: WorkerId) returns (k: nat)
    requires CanRun(st, actions) && !Accepted(st, w) && Accepted(After(st, actions), w)
    ensures k < |actions| && actions[k] == Click(true) && CanRun(st, actions[..k])
    ensures After(st, actions[..k]).pending == Some(w)
    decreases |actions|
  {
    hide Next, Possible, Accepted;
    var next := Next(st, actions[0]);
    if Accepted(next, w) {
      OnlyClickAccepts(st, actions[0], w);
      k := 0;
      assert actions[..0] == [];
    } else {
      var later := AcceptedByClick(next, actions[1..], w);
      k := later + 1;
      PrefixRuns(st, actions, k);
      assert actions[..k][1..] == actions[1..][..later] && actions[..k][0] == actions[0];
    }
  }

  lemma InitialIsSound()
    ensures Invariant(Initial())
  {
  }

  /** Consent. In every run, a worker's closure returns true only if at some moment the user clicked Accept while
      the window showed that very worker's offer. */
  lemma OnlyTheUserAccepts(actions: seq<Action>, w: WorkerId) returns (k: nat)
    requires CanRun(Initial(), actions)
    requires var end := After(Initial(), actions); w in end.returned && end.returned[w]
    ensures k < |actions| && actions[k] == Click(true) && CanRun(Initial(), actions[..k])
    ensures After(Initial(), actions[..k]).pending == Some(w)
  {
    InitialIsSound();
    RunKeeps(Initial(), actions);
    hide After, CanRun;
    k := AcceptedByClick(Initial(), actions, w);
  }

  /** No offer is forgotten: while a worker waits, its offer is in the live queue or in the slot, and the next
      look at the events leaves at most one worker waiting, the one in the slot. */
  lemma AtMostOneAwaits(actions: seq<Action>)
    requires CanRun(Initial(), actions)
    ensures var st := After(Initial(), actions);
            && (forall w: WorkerId :: ReplyOf(st, w).Open? <==> Holds(st.queue, w) || st.pending == Some(w))
            && (forall w: WorkerId :: ReplyOf(Next(st, Tick), w).Open? <==> Next(st, Tick).pending == Some(w))
  {
    InitialIsSound();
    RunKeeps(Initial(), actions);
    var st := After(Initial(), actions);
    TakeAllKeeps(st.(queue := []), st.queue);
    hide After, CanRun, TakeEvents, NoOfferTwice;
  }

  lemma AnsweredReturns(st: State, w: WorkerId)
    requires Possible(st, Poll(w)) && !ReplyOf(st, w).Open? && !ReplyOf(st, w).Unasked?
    ensures w in Next(st, Poll(w)).returned
    ensures Next(st, Poll(w)).returned[w] == Accepted(st, w)
  {
  }

  /** Stopping answers everybody: after a look at the events and a stop no worker is left waiting, and the next
      call of the closure of any worker that has made its offer returns, with true only if it was accepted. */
  lemma StoppingAnswersAll(actions: seq<Action>, w: WorkerId)
    requires CanRun(Initial(), actions)
    ensures var st := Next(Next(After(Initial(), actions), Tick), Stop);
            && !ReplyOf(st, w).Open?
            && (Possible(st, Poll(w)) && !ReplyOf(st, w).Unasked? ==>
                  w in Next(st, Poll(w)).returned && Next(st, Poll(w)).returned[w] == Accepted(st, w))
  {
    AtMostOneAwaits(actions);
    var ticked := Next(After(Initial(), actions), Tick);
    var stopped := Next(ticked, Stop);
    if Possible(stopped, Poll(w)) && !ReplyOf(stopped, w).Open? && !ReplyOf(stopped, w).Unasked? {
      AnsweredReturns(stopped, w);
    }
    hide After, CanRun, TakeEvents, NoOfferTwice, Accepted;
    assert ReplyOf(ticked, w).Open? <==> ticked.pending == Some(w);
  }

  /** How often `w` sends its offer during a run. */
  function OffersMade(st: State, actions: seq<Action>, w: WorkerId): nat
    requires CanRun(st, actions)
    decreases |actions|
  {
    if actions == [] then 0
    else (if actions[0] == Poll(w) && ReplyOf(st, w).Unasked? then 1 else 0) + OffersMade(Next(st, actions[0]), actions[1..], w)
  }

  lemma {:induction false} TakingKeepsAsked(st: State, events: seq<Event>, w: WorkerId)
    ensures ReplyOf(TakeEvents(st, events), w).Unasked? ==> ReplyOf(st, w).Unasked?
    decreases |events|
  {
    if events != [] {
      TakingKeepsAsked(TakeEvent(st, events[0]), events[1..], w);
    }
  }

  lemma {:induction false} DroppingKeepsAsked(st: State, events: seq<Event>, w: WorkerId)
    ensures ReplyOf(DropEvents(st, events), w).Unasked? ==> ReplyOf(st, w).Unasked?
    decreases |events|
  {
    if events != [] {
      DroppingKeepsAsked(match events[0] { case Offer(v) => Drop(st, v) case Stopped => st }, events[1..], w);
    }
  }

  lemma AskedStaysAsked(st: State, a: Action, w: WorkerId)
    requires Possible(st, a)
    ensures ReplyOf(Next(st, a), w).Unasked? ==> ReplyOf(st, w).Unasked? && a != Poll(w)
  {
    match a
    case Tick => TakingKeepsAsked(st.(queue := []), st.queue, w);
    case Start => DroppingKeepsAsked(st, st.queue, w);
    case _ =>
  }

  /** A worker makes at most one offer in its life, and none once it has asked. */
  lemma {:induction false} AtMostOneOffer(st: State, actions: seq<Action>, w: WorkerId)
    requires CanRun(st, actions)
    ensures OffersMade(st, actions, w) <= if ReplyOf(st, w).Unasked? then 1 else 0
    decreases |actions|
  {
    hide Next, Possible, ReplyOf;
    if actions != [] {
      AskedStaysAsked(st, actions[0], w);
      AtMostOneOffer(Next(st, actions[0]), actions[1..], w);
    }
  }

  // ------------------------------------------------------------------
  // A worker that ends without its answer

  /** No click, no stop, and no news that a service has stopped. */
  predicate Unattended(actions: seq<Action>) {
    forall i :: 0 <= i < |actions| ==> !actions[i].Click? && !actions[i].Stop? && !actions[i].ServiceStops?
  }

  lemma {:induction false} TakingRefuses(st: State, events: seq<Event>, w: WorkerId)
    requires st.pending.Some? && Stopped !in events
    ensures TakeEvents(st, events).pending == st.pending && TakeEvents(st, events).dead == st.dead
    ensures Holds(events, w) || ReplyOf(st, w) == Answered(false) ==> ReplyOf(TakeEvents(st, events), w) == Answered(false)
    decreases |events|
  {
    if events != [] {
      HoldsHead(events);
      TakingRefuses(TakeEvent(st, events[0]), events[1..], w);
      hide Holds;
    }
  }

  lemma {:induction false} DroppingKeepsTheSlot(st: State, events: seq<Event>)
    ensures DropEvents(st, events).pending == st.pending && DropEvents(st, events).dead == st.dead
    decreases |events|
  {
    if events != [] {
      DroppingKeepsTheSlot(match events[0] { case Offer(v) => Drop(st, v) case Stopped => st }, events[1..]);
    }
  }

  lemma UnattendedStep(st: State, a: Action, w: WorkerId)
    requires Possible(st, a) && Unattended([a]) && st.pending == Some(w) && Stopped !in st.queue
    ensures var next := Next(st, a);
            next.pending == Some(w) && Stopped !in next.queue && st.dead <= next.dead
  {
    assert !a.Click? && !a.Stop? && !a.ServiceStops? by { assert [a][0] == a; }
    match a
    case Tick =>
      TakingRefuses(st.(queue := []), st.queue, w);
      TakeAllKeepQueue(st.(queue := []), st.queue);
    case Start => DroppingKeepsTheSlot(st, st.queue);
    case _ =>
  }

  lemma {:induction false} TakeAllKeepQueue(st: State, events: seq<Event>)
    ensures TakeEvents(st, events).queue == st.queue
    decreases |events|
  {
    if events != [] {
      TakeAllKeepQueue(TakeEvent(st, events[0]), events[1..]);
    }
  }

  /** The window does not learn that a worker has died: until the user clicks, or the service is stopped, its offer
      stays in the slot, and every look at the events refuses whatever else has been offered. */
  lemma {:induction false} DeadWorkerKeepsTheSlot(st: State, actions: seq<Action>, w: WorkerId, other: WorkerId)
    requires st.pending == Some(w) && w in st.dead && Stopped !in st.queue
    requires CanRun(st, actions) && Unattended(actions)
    ensures var end := After(st, actions);
            && end.pending == Some(w) && w in end.dead
            && (Holds(end.queue, other) ==> ReplyOf(Next(end, Tick), other) == Answered(false))
    decreases |actions|
  {
    if actions == [] {
      TakingRefuses(st.(queue := []), st.queue, other);
    } else {
      UnattendedStep(st, actions[0], w);
      hide Next, Possible, Holds, ReplyOf;
      DeadWorkerKeepsTheSlot(Next(st, actions[0]), actions[1..], w, other);
    }
  }

  // ------------------------------------------------------------------
  // What a look at the events shows

  /** With nothing in the slot the first offer that waits is shown and stays open; all others are refused. */
  lemma FirstOfferIsShown(st: State, w: WorkerId, others: seq<Event>)
    requires Invariant(st) && st.pending.None? && st.queue == [Offer(w)] + others && Stopped !in others
    ensures var seen := Next(st, Tick);
            && seen.pending == Some(w) && ReplyOf(seen, w).Open?
            && forall v: WorkerId :: Offer(v) in others ==> ReplyOf(seen, v) == Answered(false)
  {
    TakeAllKeeps(st.(queue := []), st.queue);
    assert st.queue[0] == Offer(w) && st.queue[1..] == others;
    var start := TakeEvent(st.(queue := []), Offer(w));
    forall v: WorkerId
      ensures start.pending == TakeEvents(start, others).pending
      ensures Offer(v) in others ==> ReplyOf(TakeEvents(start, others), v) == Answered(false)
    {
      TakingRefuses(start, others, v);
      assert Offer(v) in others ==> Holds(others, v);
    }
    hide Holds, NoOfferTwice, ReplyOf;
  }

  lemma TakeSplit(st: State, before: seq<Event>, after: seq<Event>)
    ensures TakeEvents(st, before + after) == TakeEvents(TakeEvents(st, before), after)
    decreases |before|
  {
    if before == [] {
      assert before + after == after;
    } else {
      assert (before + after)[0] == before[0] && (before + after)[1..] == before[1..] + after;
      TakeSplit(TakeEvent(st, before[0]), before[1..], after);
    }
  }

  /** The news that the service has stopped empties the slot: nobody is left waiting, and nobody has been accepted. */
  lemma StoppedIsSeen(st: State, before: seq<Event>)
    requires Invariant(st) && st.queue == before + [Stopped]
    ensures var seen := Next(st, Tick);
            && !seen.running && seen.pending.None?
            && forall w: WorkerId :: !ReplyOf(seen, w).Open? && (Accepted(seen, w) ==> Accepted(st, w))
  {
    var start := st.(queue := []);
    TakeSplit(start, before, [Stopped]);
    TakeAllKeeps(start, st.queue);
    forall w: WorkerId
      ensures Accepted(Next(st, Tick), w) ==> Accepted(st, w)
    {
      TakingNeverAccepts(start, st.queue, w);
    }
    assert [Stopped][1..] == [];
    assert Next(st, Tick) == TakeEvent(TakeEvents(start, before), Stopped);
    hide TakeEvents, NoOfferTwice;
  }

  // ------------------------------------------------------------------
  // A service that has been replaced

  lemma {:induction false} TakingKeepsRunning(st: State, events: seq<Event>)
    requires Stopped !in events
    ensures TakeEvents(st, events).running == st.running && TakeEvents(st, events).current == st.current
    decreases |events|
  {
    if events != [] {
      TakingKeepsRunning(TakeEvent(st, events[0]), events[1..]);
    }
  }

  /** The window goes on while the service it has started last goes on, whatever older ones report. */
  lemma {:induction false} OldServicesAreNotHeard(st: State, actions: seq<Action>, instance: Instance)
    requires st.running && st.current == Some(instance) && Stopped !in st.queue
    requires CanRun(st, actions) && ServiceStops(instance) !in actions
    ensures var end := After(st, actions); end.running && end.current == Some(instance) && Stopped !in end.queue
    decreases |actions|
  {
    if actions != [] {
      match actions[0] {
        case Tick =>
          TakingKeepsRunning(st.(queue := []), st.queue);
          TakeAllKeepQueue(st.(queue := []), st.queue);
        case _ =>
      }
      assert actions[0] in actions;
      OldServicesAreNotHeard(Next(st, actions[0]), actions[1..], instance);
    }
  }

  /** `w` belongs to a service that has been replaced, and it has not been shown. */
  ghost predicate Replaced(st: State, w: WorkerId) {
    && w in st.instanceOf && st.current.Some? && st.instanceOf[w] < st.current.value <= st.instances
    && (ReplyOf(st, w).Unasked? || ReplyOf(st, w).Closed?)
    && (w in st.returned ==> !st.returned[w])
  }

  lemma {:induction false} TakingKeepsReply(st: State, events: seq<Event>, w: WorkerId)
    requires !Holds(events, w) && st.pending != Some(w)
    ensures ReplyOf(TakeEvents(st, events), w) == ReplyOf(st, w)
    ensures var end := TakeEvents(st, events);
            end.instanceOf == st.instanceOf && end.current == st.current && end.instances == st.instances && end.returned == st.returned
    decreases |events|
  {
    if events != [] {
      HoldsHead(events);
      hide Holds, NoOfferTwice;
      TakingKeepsReply(TakeEvent(st, events[0]), events[1..], w);
    }
  }

  lemma {:induction false} DroppingKeepsReply(st: State, events: seq<Event>, w: WorkerId)
    requires !Holds(events, w)
    ensures ReplyOf(DropEvents(st, events), w) == ReplyOf(st, w)
    ensures var end := DropEvents(st, events);
            end.instanceOf == st.instanceOf && end.current == st.current && end.instances == st.instances && end.returned == st.returned
    decreases |events|
  {
    if events != [] {
      HoldsHead(events);
      hide Holds, NoOfferTwice;
      DroppingKeepsReply(match events[0] { case Offer(v) => Drop(st, v) case Stopped => st }, events[1..], w);
    }
  }

  lemma ReplacedIsNotOffered(st: State, w: WorkerId)
    requires Invariant(st) && Replaced(st, w)
    ensures !Holds(st.queue, w) && st.pending != Some(w)
  {
    hide Holds, NoOfferTwice;
  }

  lemma ReplacedPoll(st: State, v: WorkerId, w: WorkerId)
    requires Replaced(st, w) && Possible(st, Poll(v))
    ensures Replaced(PollWorker(st, v), w)
    ensures v == w ==> w in PollWorker(st, v).returned
  {
  }

  lemma ReplacedStep(st: State, a: Action, w: WorkerId)
    requires Invariant(st) && Replaced(st, w) && Possible(st, a)
    ensures Replaced(Next(st, a), w)
    ensures a == Poll(w) ==> w in Next(st, a).returned
  {
    hide Holds, Invariant, TakeEvents, DropEvents, PollWorker;
    ReplacedIsNotOffered(st, w);
    match a
    case Poll(v) => ReplacedPoll(st, v, w);
    case Tick => TakingKeepsReply(st.(queue := []), st.queue, w);
    case Start => DroppingKeepsReply(st, st.queue, w);
    case _ =>
  }

  /** A worker that has made no offer before its service was replaced never makes one: it is never shown, and its
      first question is answered with a refusal. */
  lemma {:induction false} ReplacedWorkersAreRefused(st: State, actions: seq<Action>, w: WorkerId)
    requires Invariant(st) && Replaced(st, w) && CanRun(st, actions)
    ensures var end := After(st, actions);
            && end.pending != Some(w) && !Holds(end.queue, w)
            && (w in end.returned ==> !end.returned[w])
            && (Poll(w) in actions ==> w in end.returned)
    decreases |actions|
  {
    if actions == [] {
      hide Holds, NoOfferTwice;
    } else {
      StepKeeps(st, actions[0]);
      ReplacedStep(st, actions[0], w);
      hide Invariant, Next, Possible;
      ReplacedWorkersAreRefused(Next(st, actions[0]), actions[1..], w);
      if actions[0] == Poll(w) {
        ReturnedStays(Next(st, Poll(w)), actions[1..], w);
      }
    }
  }

  lemma {:induction false} ReturnedStays(st: State, actions: seq<Action>, w: WorkerId)
    requires w in st.returned && CanRun(st, actions)
    ensures w in After(st, actions).returned
    decreases |actions|
  {
    if actions != [] {
      match actions[0] {
        case Tick => TakingKeepsReturned(st.(queue := []), st.queue);
        case Start => DroppingKeepsReturned(st, st.queue);
        case _ =>
      }
      ReturnedStays(Next(st, actions[0]), actions[1..], w);
    }
  }

  lemma {:induction false} TakingKeepsReturned(st: State, events: seq<Event>)
    ensures TakeEvents(st, events).returned == st.returned
    decreases |events|
  {
    if events != [] {
      TakingKeepsReturned(TakeEvent(st, events[0]), events[1..]);
    }
  }

  lemma {:induction false} DroppingKeepsReturned(st: State, events: seq<Event>)
    ensures DropEvents(st, events).returned == st.returned
    decreases |events|
  {
    if events != [] {
      DroppingKeepsReturned(match events[0] { case Offer(v) => Drop(st, v) case Stopped => st }, events[1..]);
    }
  }
}
