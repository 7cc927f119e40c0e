/** The request queue: submitters, session fences, the commit thread, and starting and stopping, interleaved. */
module RequestQueue {
  import opened Foundation

  const MAX_PENDING: nat := 4096

  /** A mutation carries the number of the submitter that waits for it. */
  datatype Item = Mutation(ticket: nat) | Fence(boot: Id) | Halt

  /** How a submit comes back. */
  datatype Answer = Processed | ShuttingDown | NotRunning | QueueFull

  /** What became of an item that left the queue. */
  datatype Handled = Handled(item: Item, applied: bool)

  datatype Thread = Gone | Idle | Busy(item: Item)

  /** Where the owner stands in start or stop; Off and On are outside both. */
  datatype Phase = Off | Opening | Launched | Running | On | Failing | Flagged | Closed | Posted | Joined

  datatype Queue = Queue(
    running: bool, stopping: bool, phase: Phase, thread: Thread, items: seq<Item>,
    next: nat, answers: map<nat, Answer>, pushed: seq<Item>, log: seq<Handled>)

  datatype Action =
    | Submit | RequestFence(boot: Id)
    | Take | Finish
    | Open | Launch | Publish | Listen(ok: bool) | JoinFailed
    | Flag | Close | Post | Join | Drain

  const EMPTY := Queue(false, false, Off, Gone, [], 0, map[], [], [])

  function Push(q: Queue, item: Item): Queue { q.(items := q.items + [item], pushed := q.pushed + [item]) }

  /** Each submit is one critical section; a refusal answers on the spot. */
  function Submitted(q: Queue): Queue {
    var answered := q.(next := q.next + 1);
    if !q.running then answered.(answers := q.answers[q.next := if q.stopping then ShuttingDown else NotRunning])
    else if q.stopping then answered.(answers := q.answers[q.next := ShuttingDown])
    else if |q.items| >= MAX_PENDING then answered.(answers := q.answers[q.next := QueueFull])
    else Push(answered, Mutation(q.next))
  }

  /** The commit loop: an empty queue ends the thread only while stopping. */
  function Taken(q: Queue): Queue {
    if q.items == [] then if q.stopping then q.(thread := Gone) else q
    else if q.items[0].Halt? then q.(thread := Gone, items := q.items[1..])
    else q.(thread := Busy(q.items[0]), items := q.items[1..])
  }

  function Finished(q: Queue): Queue
    requires q.thread.Busy?
  {
    var item := q.thread.item;
    q.(thread := Idle, log := q.log + [Handled(item, true)],
       answers := if item.Mutation? then q.answers[item.ticket := Processed] else q.answers)
  }

  /** The leftovers after the join: waiting slots are told, everything else is forgotten. */
  function Drained(q: Queue): Queue
    decreases |q.items|
  {
    if q.items == [] then q.(phase := Off)
    else
      var item, rest := q.items[0], q.(items := q.items[1..]);
      Drained(match item
              case Mutation(t) => rest.(answers := q.answers[t := ShuttingDown], log := q.log + [Handled(item, false)])
              case Fence(_) => rest.(log := q.log + [Handled(item, false)])
              case Halt => rest)
  }

  predicate Enabled(q: Queue, a: Action) {
    match a
    case Submit => true
    case RequestFence(_) => true
    case Take => q.thread.Idle?
    case Finish => q.thread.Busy?
    case Open => q.phase.Off?
    case Launch => q.phase.Opening?
    case Publish => q.phase.Launched?
    case Listen(_) => q.phase.Running?
    case JoinFailed => q.phase.Failing? && q.thread.Gone?
    case Flag => q.phase.On? || q.phase.Off?
    case Close => q.phase.Flagged?
    case Post => q.phase.Closed?
    case Join => q.phase.Posted? && q.thread.Gone?
    case Drain => q.phase.Joined?
  }

  function Act(q: Queue, a: Action): Queue
    requires Enabled(q, a)
  {
    match a
    case Submit => Submitted(q)
    case RequestFence(boot) => if q.stopping then q else Push(q, Fence(boot))
    case Take => Taken(q)
    case Finish => Finished(q)
    case Open => q.(phase := Opening, stopping := false)
    case Launch => q.(phase := Launched, thread := Idle)
    case Publish => q.(phase := Running, running := true)
    case Listen(ok) => if ok then q.(phase := On) else q.(phase := Failing, stopping := true, items := q.items + [Halt])
    case JoinFailed => q.(phase := Off)
    case Flag => q.(phase := Flagged, stopping := true)
    case Close => q.(phase := Closed, running := false)
    case Post => q.(phase := Posted, stopping := true, items := q.items + [Halt])
    case Join => q.(phase := Joined)
    case Drain => Drained(q)
  }

  // ---- the invariant ---------------------------------------------------------------------

  predicate Plain(items: seq<Item>) { forall i | 0 <= i < |items| :: !items[i].Halt? }

  /** Operations followed by one stop marker. */
  predicate Marked(items: seq<Item>) { items != [] && items[|items| - 1].Halt? && Plain(items[..|items| - 1]) }

  function Operations(items: seq<Item>): seq<Item> {
    if items == [] then []
    else Operations(items[..|items| - 1]) + if items[|items| - 1].Halt? then [] else [items[|items| - 1]]
  }

  function InHand(t: Thread): seq<Item> { if t.Busy? then [t.item] else [] }

  function Left(log: seq<Handled>): seq<Item> { seq(|log|, i requires 0 <= i < |log| => log[i].item) }

  /** The operations that are still to be carried out, in order. */
  function Outstanding(q: Queue): seq<Item> { InHand(q.thread) + Operations(q.items) }

  predicate NoMutations(items: seq<Item>) { forall i | 0 <= i < |items| :: !items[i].Mutation? }

  /** Fences may be queued before the first start; nothing else waits without a thread to serve it. */
  predicate PhaseHolds(q: Queue) {
    match q.phase
    case Off =>
      q.thread.Gone? && Plain(q.items) && NoMutations(q.items)
      && (if q.stopping then q.items == [] else !q.running)
    case Opening => q.thread.Gone? && !q.stopping && Plain(q.items)
    case Launched => !q.thread.Gone? && !q.stopping && Plain(q.items)
    case Running => !q.thread.Gone? && !q.stopping && Plain(q.items) && q.running
    case On => !q.thread.Gone? && !q.stopping && Plain(q.items) && q.running
    case Failing => q.stopping && (if q.thread.Gone? then q.items == [] else Marked(q.items))
    case Flagged => q.stopping && Plain(q.items) && (q.thread.Gone? ==> NoMutations(q.items))
    case Closed => q.stopping && !q.running && Plain(q.items) && (q.thread.Gone? ==> NoMutations(q.items))
    case Posted => q.stopping && !q.running && (if q.thread.Gone? then NoMutations(q.items) else Marked(q.items))
    case Joined => q.stopping && !q.running && q.thread.Gone? && NoMutations(q.items)
  }

  predicate IsWaiting(q: Queue, t: nat) { Mutation(t) in Outstanding(q) }

  /** Every ticket was pushed at most once. */
  predicate Distinct(q: Queue) {
    && (forall i, j | 0 <= i < j < |q.pushed| && q.pushed[i].Mutation? :: q.pushed[i] != q.pushed[j])
    && (forall i | 0 <= i < |q.pushed| :: !q.pushed[i].Halt? && (q.pushed[i].Mutation? ==> q.pushed[i].ticket < q.next))
  }

  /** A ticket that was given out either waits or has its answer, never both. */
  ghost predicate Answered(q: Queue) {
    forall t: nat :: t in q.answers <==> t < q.next && !IsWaiting(q, t)
  }

  /** Real results belong exactly to the mutations that were carried out; nothing else ever left the queue. */
  predicate Honest(q: Queue) {
    && (forall h | h in q.log && h.item.Mutation? :: h.applied)
    && (forall t | t in q.answers :: q.answers[t].Processed? <==> Handled(Mutation(t), true) in q.log)
  }

  /** Whatever was pushed has left in order, is in hand, or waits in order. */
  ghost predicate Conserved(q: Queue) {
    q.pushed == Left(q.log) + Outstanding(q) && Distinct(q) && Answered(q) && Honest(q)
  }

  ghost predicate QueueInv(q: Queue) { PhaseHolds(q) && Conserved(q) }

  // ---- every action keeps it -------------------------------------------------------------

  lemma OperationsPushed(items: seq<Item>, x: Item)
    ensures Operations(items + [x]) == Operations(items) + if x.Halt? then [] else [x]
  {
    assert (items + [x])[..|items|] == items;
  }

  lemma {:induction false} OperationsPopped(items: seq<Item>)
    requires items != []
    ensures Operations(items) == (if items[0].Halt? then [] else [items[0]]) + Operations(items[1..])
  {
    var head := if items[0].Halt? then [] else [items[0]];
    var front, last := items[..|items| - 1], items[|items| - 1];
    var end := if last.Halt? then [] else [last];
    if |items| == 1 {
      assert front == [] && items[1..] == [];
      assert Operations(front) == [] && Operations(items[1..]) == [];
    } else {
      OperationsPopped(front);
      var tail := items[1..];
      assert tail[..|tail| - 1] == front[1..] && tail[|tail| - 1] == last;
      assert Operations(tail) == Operations(front[1..]) + end;
      assert Operations(items) == (head + Operations(front[1..])) + end;
      assert (head + Operations(front[1..])) + end == head + (Operations(front[1..]) + end);
    }
  }

  /** Neither the owner's flags nor a stop marker touch what is conserved. */
  lemma SameOperationsConserve(q: Queue, r: Queue)
    requires Conserved(q) && Outstanding(r) == Outstanding(q)
    requires r.pushed == q.pushed && r.log == q.log && r.answers == q.answers && r.next == q.next
    ensures Conserved(r)
  {
    assert forall t: nat :: IsWaiting(r, t) == IsWaiting(q, t);
  }

  lemma NewTicket(q: Queue)
    requires Conserved(q)
    ensures !IsWaiting(q, q.next) && Handled(Mutation(q.next), true) !in q.log && q.next !in q.answers
  {
    forall i | 0 <= i < |Outstanding(q)| ensures Outstanding(q)[i] != Mutation(q.next) {
      assert q.pushed[|Left(q.log)| + i] == Outstanding(q)[i];
    }
    forall i | 0 <= i < |q.log| ensures q.log[i] != Handled(Mutation(q.next), true) {
      assert q.pushed[i] == Left(q.log)[i];
    }
  }

  lemma RefusalConserves(q: Queue, answer: Answer)
    requires Conserved(q) && !answer.Processed?
    ensures Conserved(q.(next := q.next + 1, answers := q.answers[q.next := answer]))
  {
    var r := q.(next := q.next + 1, answers := q.answers[q.next := answer]);
    NewTicket(q);
    assert forall t: nat :: IsWaiting(r, t) == IsWaiting(q, t);
  }

  lemma PushConserves(q: Queue, item: Item, next: nat)
    requires Conserved(q) && !item.Halt?
    requires if item.Mutation? then item.ticket == q.next && next == q.next + 1 else next == q.next
    ensures Conserved(Push(q.(next := next), item))
  {
    hide Left; hide Honest; hide Distinct; hide Operations;
    var r := Push(q.(next := next), item);
    OperationsPushed(q.items, item);
    assert Outstanding(r) == Outstanding(q) + [item];
    hide Outstanding;
    NewTicket(q);
    PushKeepsHonest(q, item, next);
    PushKeepsDistinct(q, item, next);
    forall t: nat ensures t in r.answers <==> t < r.next && !IsWaiting(r, t) {
      assert IsWaiting(r, t) <==> IsWaiting(q, t) || item == Mutation(t);
    }
  }

  lemma PushKeepsDistinct(q: Queue, item: Item, next: nat)
    requires Distinct(q) && !item.Halt?
    requires if item.Mutation? then item.ticket == q.next && next == q.next + 1 else next == q.next
    ensures Distinct(Push(q.(next := next), item))
  {}

  lemma PushKeepsHonest(q: Queue, item: Item, next: nat)
    requires Honest(q)
    ensures Honest(Push(q.(next := next), item))
  {}

  lemma SubmitKeeps(q: Queue)
    requires QueueInv(q)
    ensures QueueInv(Submitted(q))
  {
    hide Conserved;
    if !q.running { RefusalConserves(q, if q.stopping then ShuttingDown else NotRunning); }
    else if q.stopping { RefusalConserves(q, ShuttingDown); }
    else if |q.items| >= MAX_PENDING { RefusalConserves(q, QueueFull); }
    else { PushConserves(q, Mutation(q.next), q.next + 1); }
  }

  lemma FenceKeeps(q: Queue, boot: Id)
    requires QueueInv(q) && !q.stopping
    ensures QueueInv(Push(q, Fence(boot)))
  {
    hide Conserved;
    PushConserves(q, Fence(boot), q.next);
    assert q.(next := q.next) == q;
  }

  lemma TakeKeeps(q: Queue)
    requires QueueInv(q) && q.thread.Idle?
    ensures QueueInv(Taken(q))
  {
    hide Conserved;
    var r := Taken(q);
    if q.items != [] {
      OperationsPopped(q.items);
      assert Outstanding(r) == Outstanding(q);
      assert q.phase.Posted? || q.phase.Failing? ==> Marked(q.items);
      TailStaysMarked(q.items);
    }
    SameOperationsConserve(q, r);
  }

  lemma TailStaysMarked(items: seq<Item>)
    requires items != []
    ensures Plain(items) ==> Plain(items[1..])
    ensures Marked(items) ==> if items[0].Halt? then items[1..] == [] else Marked(items[1..])
  {
    if Marked(items) && !items[0].Halt? {
      assert items[1..][..|items| - 2] == items[..|items| - 1][1..];
    }
  }

  lemma FinishKeeps(q: Queue)
    requires QueueInv(q) && q.thread.Busy?
    ensures QueueInv(Finished(q))
  {
    hide Conserved;
    FinishConserves(q);
  }

  lemma FinishConserves(q: Queue)
    requires Conserved(q) && q.thread.Busy?
    ensures Conserved(Finished(q))
  {
    var r, item := Finished(q), q.thread.item;
    assert Outstanding(q) == [item] + Outstanding(r);
    assert Left(r.log) == Left(q.log) + [item];
    assert q.pushed == Left(r.log) + Outstanding(r) && q.pushed[|q.log|] == item;
    if item.Mutation? { HeadLeaves(q, r); }
    hide Left; hide Outstanding;
    assert Distinct(r);
    hide Distinct;
    forall t: nat ensures t in r.answers <==> t < r.next && !IsWaiting(r, t) {
      assert IsWaiting(q, t) <==> IsWaiting(r, t) || item == Mutation(t);
    }
    FinishIsHonest(q);
  }

  lemma FinishIsHonest(q: Queue)
    requires Honest(q) && q.thread.Busy?
    ensures Honest(Finished(q))
  {
    var r, item := Finished(q), q.thread.item;
    assert forall h :: h in r.log <==> h in q.log || h == Handled(item, true);
  }

  lemma HeadLeaves(q: Queue, r: Queue)
    requires Conserved(q) && q.thread.Busy? && q.thread.item.Mutation? && r.pushed == q.pushed
    requires Outstanding(q) == [q.thread.item] + Outstanding(r)
    ensures q.thread.item !in Outstanding(r)
  {
    var n := |Left(q.log)|;
    forall i | 0 <= i < |Outstanding(r)| ensures Outstanding(r)[i] != q.thread.item {
      assert q.pushed[n] == q.thread.item && q.pushed[n + 1 + i] == Outstanding(r)[i];
    }
  }

  lemma MarkerKeeps(q: Queue, r: Queue)
    requires Conserved(q) && r.items == q.items + [Halt] && r.thread == q.thread
    requires r.pushed == q.pushed && r.log == q.log && r.answers == q.answers && r.next == q.next
    ensures Conserved(r)
  {
    hide Conserved;
    OperationsPushed(q.items, Halt);
    SameOperationsConserve(q, r);
  }

  /** Only fences and stop markers are ever left to drain. */
  lemma {:induction false} DrainKeeps(q: Queue)
    requires Conserved(q) && q.stopping && q.thread.Gone? && NoMutations(q.items)
    ensures Conserved(Drained(q)) && PhaseHolds(Drained(q)) && Drained(q).answers == q.answers
    decreases |q.items|
  {
    if q.items == [] {
      SameOperationsConserve(q, q.(phase := Off));
    } else {
      OperationsPopped(q.items);
      var item, rest := q.items[0], q.(items := q.items[1..]);
      var r := if item.Halt? then rest else rest.(log := q.log + [Handled(item, false)]);
      assert Conserved(r) by {
        if item.Halt? { SameOperationsConserve(q, r); } else { DropConserves(q, r, item); }
      }
      DrainKeeps(r);
    }
  }

  lemma DropConserves(q: Queue, r: Queue, item: Item)
    requires Conserved(q) && item.Fence? && Outstanding(q) == [item] + Outstanding(r)
    requires r == q.(items := r.items, log := q.log + [Handled(item, false)])
    ensures Conserved(r)
  {
    assert Left(r.log) == Left(q.log) + [item];
    forall t: nat ensures IsWaiting(r, t) == IsWaiting(q, t) {}
    assert r.pushed == Left(r.log) + Outstanding(r);
    hide Outstanding; hide Left;
    assert Honest(r);
  }

  lemma ActKeeps(q: Queue, a: Action)
    requires QueueInv(q) && Enabled(q, a)
    ensures QueueInv(Act(q, a))
  {
    hide Conserved; hide Operations; hide Plain; hide Marked; hide NoMutations;
    var r := Act(q, a);
    match a
    case Submit => SubmitKeeps(q);
    case RequestFence(boot) => if !q.stopping { FenceKeeps(q, boot); }
    case Take => TakeKeeps(q);
    case Finish => FinishKeeps(q);
    case Listen(ok) => if ok { SameOperationsConserve(q, r); } else { MarkerKeeps(q, r); MarkedAtTheEnd(q.items); }
    case Post => MarkerKeeps(q, r); MarkedAtTheEnd(q.items);
    case Drain => DrainKeeps(q);
    case Flag => SameOperationsConserve(q, r);
    case _ => SameOperationsConserve(q, r); EmptyIsPlain(q.items);
  }

  lemma EmptyIsPlain(items: seq<Item>)
    ensures items == [] ==> Plain(items) && NoMutations(items)
  {}

  lemma MarkedAtTheEnd(items: seq<Item>)
    ensures Plain(items) ==> Marked(items + [Halt])
    ensures NoMutations(items) ==> NoMutations(items + [Halt])
  {
    assert (items + [Halt])[..|items|] == items;
  }

  // ---- runs ------------------------------------------------------------------------------

  /** Actions that are not enabled are passed over, so every list of actions is an interleaving. */
  function Play(q: Queue, actions: seq<Action>): Queue {
    if actions == [] then q
    else
      var before := Play(q, actions[..|actions| - 1]);
      if Enabled(before, actions[|actions| - 1]) then Act(before, actions[|actions| - 1]) else before
  }

  lemma {:induction false} PlayKeeps(actions: seq<Action>)
    ensures QueueInv(Play(EMPTY, actions))
  {
    hide QueueInv;
    if actions == [] {
      assert QueueInv(EMPTY) by { EmptyHolds(); }
    } else {
      PlayKeeps(actions[..|actions| - 1]);
      var before := Play(EMPTY, actions[..|actions| - 1]);
      if Enabled(before, actions[|actions| - 1]) { ActKeeps(before, actions[|actions| - 1]); }
    }
  }

  lemma EmptyHolds()
    ensures QueueInv(EMPTY)
  {
    assert Left(EMPTY.log) + Outstanding(EMPTY) == [];
  }

  /**
   * Over every interleaving: items leave in the order they were pushed; a mutation that was queued is carried out,
   * exactly once, and its submitter gets that result; and when no start or stop is under way and no thread runs,
   * nobody waits.
   */
  lemma EverySubmitIsAnswered(actions: seq<Action>)
    ensures var q := Play(EMPTY, actions);
      && q.pushed == Left(q.log) + Outstanding(q)
      && Distinct(q) && HandledOnce(q)
      && (forall h | h in q.log && h.item.Mutation? :: h.applied)
      && (forall t: nat :: t in q.answers <==> t < q.next && !IsWaiting(q, t))
      && (forall t | t in q.answers :: q.answers[t].Processed? <==> Mutation(t) in q.pushed)
      && (q.phase.Off? ==> forall t: nat | t < q.next :: t in q.answers)
  {
    var q := Play(EMPTY, actions);
    PlayKeeps(actions);
    hide Play;
    ResultsMatchPushes(q);
    LeavingOnce(q);
    if q.phase.Off? {
      NothingLeft(q.items);
      assert Outstanding(q) == Operations(q.items);
    }
  }

  /** No ticket leaves the queue twice. */
  predicate HandledOnce(q: Queue) {
    forall i, j | 0 <= i < j < |q.log| && q.log[i].item.Mutation? :: q.log[i].item != q.log[j].item
  }

  lemma LeavingOnce(q: Queue)
    requires q.pushed == Left(q.log) + Outstanding(q) && Distinct(q)
    ensures HandledOnce(q)
  {
    forall i, j | 0 <= i < j < |q.log| && q.log[i].item.Mutation? ensures q.log[i].item != q.log[j].item {
      assert q.pushed[i] == q.log[i].item && q.pushed[j] == q.log[j].item;
    }
  }

  lemma {:induction false} NothingLeft(items: seq<Item>)
    requires NoMutations(items)
    ensures forall t: nat :: Mutation(t) !in Operations(items)
  {
    if items != [] { NothingLeft(items[..|items| - 1]); }
  }

  lemma ResultsMatchPushes(q: Queue)
    requires Conserved(q)
    ensures forall t | t in q.answers :: q.answers[t].Processed? <==> Mutation(t) in q.pushed
  {
    forall t | t in q.answers ensures Handled(Mutation(t), true) in q.log <==> Mutation(t) in q.pushed {
      if Handled(Mutation(t), true) in q.log {
        var i :| 0 <= i < |q.log| && q.log[i] == Handled(Mutation(t), true);
        assert Left(q.log)[i] == Mutation(t);
      }
      if Mutation(t) in q.pushed {
        assert !IsWaiting(q, t) && Mutation(t) in Left(q.log);
        var i :| 0 <= i < |q.log| && Left(q.log)[i] == Mutation(t);
        assert q.log[i] in q.log && q.log[i] == Handled(Mutation(t), true);
      }
    }
  }

  // ---- nobody waits forever --------------------------------------------------------------

  /** The next step of the commit thread, or of an owner in the middle of start or stop. */
  function NextStep(q: Queue): Action {
    if q.thread.Busy? then Finish
    else if q.thread.Idle? then Take
    else
      match q.phase
      case Opening => Launch
      case Flagged => Close
      case Closed => Post
      case Posted => Join
      case Joined => Drain
      case _ => JoinFailed
  }

  /** How many items stand before the first occurrence of x. */
  function First(items: seq<Item>, x: Item): nat {
    if items == [] || items[0] == x then 0 else 1 + First(items[1..], x)
  }

  /** Steps of the coordinator itself until the ticket is answered: what comes behind it does not count. */
  function Ahead(q: Queue, t: nat): nat {
    (if q.thread.Gone? then 1 else 0) + (if q.thread.Busy? then 1 else 0)
    + if Mutation(t) in q.items then 2 * (First(q.items, Mutation(t)) + 1) else 0
  }

  lemma {:induction false} FirstIgnoresTheEnd(items: seq<Item>, x: Item, y: Item)
    requires x in items
    ensures x in items + [y] && First(items + [y], x) == First(items, x)
  {
    if items[0] != x {
      assert items == [items[0]] + items[1..];
      FirstIgnoresTheEnd(items[1..], x, y);
      assert (items + [y])[1..] == items[1..] + [y];
    }
  }

  lemma {:induction false} MutationsAreOperations(items: seq<Item>, t: nat)
    ensures Mutation(t) in Operations(items) <==> Mutation(t) in items
  {
    if items != [] {
      MutationsAreOperations(items[..|items| - 1], t);
      assert items == items[..|items| - 1] + [items[|items| - 1]];
    }
  }

  lemma WaitingPlace(q: Queue, t: nat)
    ensures IsWaiting(q, t) <==> q.thread == Busy(Mutation(t)) || Mutation(t) in q.items
  {
    MutationsAreOperations(q.items, t);
  }

  lemma NothingLeftWithoutThread(q: Queue, t: nat)
    requires PhaseHolds(q) && q.thread.Gone? && !q.phase.Opening?
    ensures !IsWaiting(q, t)
  {
    NothingLeft(q.items);
  }

  /** What the thread has in hand is not queued as well. */
  lemma NotQueuedTwice(q: Queue, t: nat)
    requires Conserved(q) && q.thread == Busy(Mutation(t))
    ensures Mutation(t) !in q.items
  {
    assert Outstanding(q) == [q.thread.item] + Outstanding(Finished(q));
    HeadLeaves(q, Finished(q));
    MutationsAreOperations(q.items, t);
  }

  /** A waiting ticket has a thread, or is about to get one, and no stop marker stands before it. */
  lemma WaitingIsServed(q: Queue, t: nat)
    requires QueueInv(q) && IsWaiting(q, t)
    ensures q.thread.Gone? ==> q.phase.Opening?
    ensures q.thread.Idle? ==> q.items != [] && !q.items[0].Halt?
    ensures !q.phase.Joined? && !q.phase.Off?
  {
    WaitingPlace(q, t);
    hide Conserved; hide Operations; hide IsWaiting;
    if q.thread.Gone? && !q.phase.Opening? { NothingLeftWithoutThread(q, t); }
  }

  /** Nothing anybody does moves a waiting ticket back. */
  lemma NoStepMovesBack(q: Queue, a: Action, t: nat)
    requires QueueInv(q) && Enabled(q, a) && IsWaiting(q, t) && IsWaiting(Act(q, a), t)
    ensures Ahead(Act(q, a), t) <= Ahead(q, t)
  {
    hide Conserved; hide Operations; hide PhaseHolds; hide IsWaiting;
    var x := Mutation(t);
    ActKeeps(q, a);
    WaitingPlace(q, t);
    WaitingPlace(Act(q, a), t);
    WaitingIsServed(q, t);
    assert t < q.next by { WaitingIsPushed(q, t); }
    if x in q.items { forall y { FirstIgnoresTheEnd(q.items, x, y); } }
    if a.Take? {
      assert q.items == [q.items[0]] + q.items[1..];
      if q.items[0] == x { NotQueuedTwice(Act(q, a), t); }
    }
  }

  /** As long as a submitter waits, the coordinator can take a step of its own, and it brings the answer closer. */
  lemma WaitingMakesProgress(q: Queue, t: nat)
    requires QueueInv(q) && IsWaiting(q, t)
    ensures Enabled(q, NextStep(q)) && Ahead(q, t) > 0
    ensures IsWaiting(Act(q, NextStep(q)), t) ==> Ahead(Act(q, NextStep(q)), t) < Ahead(q, t)
  {
    hide Conserved; hide Operations; hide PhaseHolds; hide IsWaiting;
    WaitingPlace(q, t);
    WaitingIsServed(q, t);
    var a := NextStep(q);
    ActKeeps(q, a);
    WaitingPlace(Act(q, a), t);
    if a.Take? {
      assert q.items == [q.items[0]] + q.items[1..];
      if q.items[0] == Mutation(t) { NotQueuedTwice(Act(q, a), t); }
    }
  }

  /** Steps of a play that the coordinator itself took next. */
  function OwnSteps(q: Queue, actions: seq<Action>): nat {
    if actions == [] then 0
    else
      var front, last := actions[..|actions| - 1], actions[|actions| - 1];
      OwnSteps(q, front) + if Enabled(Play(q, front), last) && last == NextStep(Play(q, front)) then 1 else 0
  }

  predicate Queued(q: Queue, t: nat) { Mutation(t) in q.pushed }

  lemma StaysQueued(q: Queue, a: Action, t: nat)
    requires Enabled(q, a) && Queued(q, t)
    ensures Queued(Act(q, a), t)
  {
    if a.Drain? { DrainKeepsTickets(q); }
    hide Drained;
  }

  lemma WaitingIsPushed(q: Queue, t: nat)
    requires Conserved(q) && IsWaiting(q, t)
    ensures Queued(q, t) && t < q.next
  {}

  lemma PushedIsKnown(q: Queue, t: nat)
    requires Conserved(q) && Queued(q, t) && !IsWaiting(q, t)
    ensures t in q.answers && q.answers[t].Processed?
  {
    var i :| 0 <= i < |q.pushed| && q.pushed[i] == Mutation(t);
    assert t < q.next;
    ResultsMatchPushes(q);
  }

  /** A ticket that stops waiting never waits again. */
  lemma AnsweredStays(q: Queue, a: Action, t: nat)
    requires QueueInv(q) && Enabled(q, a) && t < q.next && !IsWaiting(q, t)
    ensures !IsWaiting(Act(q, a), t)
  {
    hide Conserved; hide Operations; hide PhaseHolds; hide IsWaiting; hide Drained;
    WaitingPlace(q, t);
    WaitingPlace(Act(q, a), t);
    if a.Drain? { DrainKeepsTickets(q); }
    if a.Take? && q.items != [] { assert q.items == [q.items[0]] + q.items[1..]; }
  }

  /**
   * However other submitters, fences and stops interleave: once the coordinator has taken as many steps of its own as
   * the ticket had ahead, the ticket has been carried out and its submitter knows.
   */
  lemma {:induction false} WaitIsBounded(q: Queue, actions: seq<Action>, t: nat)
    requires QueueInv(q) && IsWaiting(q, t)
    ensures var r := Play(q, actions);
      && QueueInv(r) && Queued(r, t) && t < r.next
      && (IsWaiting(r, t) ==> Ahead(r, t) + OwnSteps(q, actions) <= Ahead(q, t))
      && (OwnSteps(q, actions) >= Ahead(q, t) ==> t in r.answers && r.answers[t].Processed?)
  {
    hide PhaseHolds; hide Ahead; hide Conserved; hide IsWaiting; hide Act; hide Enabled; hide NextStep;
    var r := Play(q, actions);
    if actions == [] {
      WaitingIsPushed(q, t);
      WaitingMakesProgress(q, t);
    } else {
      var front, last := actions[..|actions| - 1], actions[|actions| - 1];
      WaitIsBounded(q, front, t);
      var before := Play(q, front);
      if Enabled(before, last) {
        ActKeeps(before, last);
        StaysQueued(before, last, t);
        TicketsGrow(before, last);
        if !IsWaiting(before, t) { AnsweredStays(before, last, t); }
        else if IsWaiting(r, t) {
          NoStepMovesBack(before, last, t);
          if last == NextStep(before) { WaitingMakesProgress(before, t); }
        }
      }
      if IsWaiting(r, t) { WaitingMakesProgress(r, t); } else { PushedIsKnown(r, t); }
    }
  }

  lemma TicketsGrow(q: Queue, a: Action)
    requires Enabled(q, a)
    ensures q.next <= Act(q, a).next
  {
    if a.Drain? { DrainKeepsTickets(q); }
    hide Drained;
  }

  lemma {:induction false} DrainKeepsTickets(q: Queue)
    ensures Drained(q).next == q.next && Drained(q).pushed == q.pushed
    ensures Drained(q).items == [] && Drained(q).thread == q.thread
    decreases |q.items|
  {
    if q.items != [] {
      var item, rest := q.items[0], q.(items := q.items[1..]);
      DrainKeepsTickets(
        match item
        case Mutation(t) => rest.(answers := q.answers[t := ShuttingDown], log := q.log + [Handled(item, false)])
        case Fence(_) => rest.(log := q.log + [Handled(item, false)])
        case Halt => rest);
    }
  }

  // ---- who is let in ---------------------------------------------------------------------

  /** A submit is queued exactly if the coordinator runs, does not stop and has room; otherwise it learns why. */
  lemma SubmitExactly(q: Queue)
    ensures var r, t := Act(q, Submit), q.next;
      && r.next == t + 1 && r.thread == q.thread && r.phase == q.phase && r.log == q.log
      && (if q.running && !q.stopping && |q.items| < 4096 then
            && r.pushed == q.pushed + [Mutation(t)] && r.items == q.items + [Mutation(t)] && r.answers == q.answers
          else
            && r.pushed == q.pushed && r.items == q.items
            && r.answers == q.answers[t := if q.stopping then ShuttingDown else if q.running then QueueFull
                                           else NotRunning])
  {}

  // ---- nothing queued is forgotten while there is a thread -------------------------------

  /** A commit thread runs or is about to be launched. */
  predicate Serving(q: Queue) { !q.thread.Gone? || q.phase.Opening? }

  /** Steps of the coordinator itself until the item pushed at place p has been carried out. */
  function Distance(q: Queue, p: nat): nat
    requires |q.log| <= p
  {
    2 * (p - |q.log| + 1) + (if q.thread.Gone? then 1 else 0) - (if q.thread.Busy? then 1 else 0)
  }

  /** The item pushed at place p has not left the queue. */
  predicate Pending(q: Queue, p: nat) { |q.log| <= p < |q.pushed| }

  lemma PendingIsServed(q: Queue, p: nat)
    requires QueueInv(q) && Serving(q) && Pending(q, p)
    ensures q.thread.Idle? ==> q.items != [] && !q.items[0].Halt?
    ensures q.thread.Busy? ==> q.pushed[|q.log|] == q.thread.item
    ensures !q.phase.Joined?
  {
    assert |Left(q.log)| == |q.log| && |Outstanding(q)| > 0;
    assert Outstanding(q)[0] == q.pushed[|q.log|];
    if q.thread.Idle? && q.items != [] && q.items[0].Halt? {
      OperationsPopped(q.items);
      TailStaysMarked(q.items);
    }
  }

  lemma {:induction false} DrainKeepsLog(q: Queue)
    ensures q.log <= Drained(q).log
    decreases |q.items|
  {
    if q.items != [] {
      var item, rest := q.items[0], q.(items := q.items[1..]);
      DrainKeepsLog(
        match item
        case Mutation(t) => rest.(answers := q.answers[t := ShuttingDown], log := q.log + [Handled(item, false)])
        case Fence(_) => rest.(log := q.log + [Handled(item, false)])
        case Halt => rest);
    }
  }

  /** Nothing that was pushed or has left is ever rewritten. */
  lemma HistoryGrows(q: Queue, a: Action)
    requires Enabled(q, a)
    ensures q.pushed <= Act(q, a).pushed && q.log <= Act(q, a).log
  {
    if a.Drain? { DrainKeepsTickets(q); DrainKeepsLog(q); }
    hide Drained;
  }

  /** One action either carries the item out, or leaves it pending, served and no further away. */
  lemma PendingAdvances(q: Queue, a: Action, p: nat)
    requires QueueInv(q) && Serving(q) && Pending(q, p) && Enabled(q, a)
    ensures var r := Act(q, a);
      if Pending(r, p) then
        Serving(r) && Distance(r, p) + (if a == NextStep(q) then 1 else 0) <= Distance(q, p)
      else p < |r.log| && r.log[p] == Handled(q.pushed[p], true)
  {
    PendingIsServed(q, p);
    HistoryGrows(q, a);
    hide QueueInv; hide Drained;
  }

  /**
   * However requests interleave with starting and stopping: whatever was queued while a thread served the queue, a
   * fence as well as a mutation, is carried out at its place in the order, after a bounded number of own steps.
   */
  lemma {:induction false} PendingIsBounded(q: Queue, actions: seq<Action>, p: nat)
    requires QueueInv(q) && Serving(q) && Pending(q, p)
    ensures var r := Play(q, actions);
      && QueueInv(r) && q.pushed <= r.pushed
      && (Pending(r, p) ==> Serving(r) && Distance(r, p) + OwnSteps(q, actions) <= Distance(q, p))
      && (!Pending(r, p) ==> p < |r.log| && r.log[p] == Handled(q.pushed[p], true))
      && (OwnSteps(q, actions) >= Distance(q, p) ==> !Pending(r, p))
  {
    hide QueueInv; hide Act; hide Enabled; hide NextStep; hide Distance; hide Serving;
    if actions != [] {
      var front, last := actions[..|actions| - 1], actions[|actions| - 1];
      PendingIsBounded(q, front, p);
      var before := Play(q, front);
      if Enabled(before, last) {
        ActKeeps(before, last);
        HistoryGrows(before, last);
        if Pending(before, p) { PendingAdvances(before, last, p); }
      }
    }
    if Pending(Play(q, actions), p) { DistanceIsPositive(Play(q, actions), p); }
  }

  lemma DistanceIsPositive(q: Queue, p: nat)
    requires Pending(q, p)
    ensures Distance(q, p) > 0
  {}

  /** A fence asked for while nothing stops takes the next place in the order; while stopping it is dropped. */
  lemma RequestedFenceIsQueued(q: Queue, boot: Id)
    ensures var r := Act(q, RequestFence(boot));
      && (q.stopping ==> r == q)
      && (!q.stopping ==> r == q.(items := q.items + [Fence(boot)], pushed := q.pushed + [Fence(boot)]))
  {}

  /** A fence asked for while a thread serves the queue and nothing stops is carried out, exactly at its place. */
  lemma RequestedFenceIsHandled(q: Queue, boot: Id, actions: seq<Action>)
    requires QueueInv(q) && Serving(q) && !q.stopping
    ensures var f, p := Act(q, RequestFence(boot)), |q.pushed|; var r := Play(f, actions);
      && Pending(f, p) && f.pushed[p] == Fence(boot)
      && (OwnSteps(f, actions) >= Distance(f, p) ==> p < |r.log| && r.log[p] == Handled(Fence(boot), true))
  {
    ActKeeps(q, RequestFence(boot));
    assert |q.log| <= |q.pushed| by { assert |Left(q.log)| == |q.log|; }
    PendingIsBounded(Act(q, RequestFence(boot)), actions, |q.pushed|);
    hide QueueInv; hide Play; hide OwnSteps;
  }
}
