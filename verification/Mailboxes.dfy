/** Mailboxes: a queue of messages and the threads that wait for one. Puts do not block. */
module Mailboxes {
  import opened CircularIndex
  import opened KeyedLists
  import opened LinkedChains
  import opened Memory
  import opened Sequences
  import opened WaitOrder
  import opened Windows

  datatype Msg = Msg(sender: nat, content: int)

  /** A message and the thread that got it. */
  datatype Letter = Letter(to: nat, msg: Msg)

  /** The mailbox with its history: `readers` wait in order of arrival, `accepted` are all messages put
      successfully and `letters` all those handed out. */
  datatype Box = Box(queue: seq<Msg>, readers: seq<nat>, accepted: seq<Msg>, letters: seq<Letter>)

  datatype Result = Received(msg: Msg) | Waiting | Nothing

  function Messages(letters: seq<Letter>): (m: seq<Msg>)
    ensures |m| == |letters| && forall i :: 0 <= i < |m| ==> m[i] == letters[i].msg
  {
    seq(|letters|, i requires 0 <= i < |letters| => letters[i].msg)
  }

  /** _mbox_put, non-blocking, by thread `me`: a waiting reader gets the message at once; otherwise it is
      marked with its sender and queued, unless the queue is full. */
  function Put(b: Box, prio: seq<nat>, capacity: nat, me: nat, m: Msg): (Box, bool)
    requires InTable(prio, b.readers)
  {
    if b.readers != [] then
      var k := Best(prio, b.readers);
      (Box(b.queue, Without(b.readers, k), b.accepted + [m], b.letters + [Letter(b.readers[k], m)]), true)
    else if |b.queue| >= capacity then (b, false)
    else (b.(queue := b.queue + [Msg(me, m.content)], accepted := b.accepted + [Msg(me, m.content)]), true)
  }

  /** _mbox_get by thread `me` */
  function Get(b: Box, me: nat, blocking: bool): (Box, Result) {
    if b.queue != [] then (b.(queue := b.queue[1..], letters := b.letters + [Letter(me, b.queue[0])]), Received(b.queue[0]))
    else if blocking then (b.(readers := b.readers + [me]), Waiting)
    else (b, Nothing)
  }

  /** Every message accepted was handed out or is queued, in order; readers wait only for an empty queue. */
  ghost predicate Sound(b: Box, prio: seq<nat>, capacity: nat) {
    && b.accepted == Messages(b.letters) + b.queue && |b.queue| <= capacity
    && (b.readers != [] ==> b.queue == [])
    && InTable(prio, b.readers) && Distinct(b.readers) && 0 !in b.readers
  }

  lemma PutSound(b: Box, prio: seq<nat>, capacity: nat, me: nat, m: Msg)
    requires Sound(b, prio, capacity)
    ensures Sound(Put(b, prio, capacity, me, m).0, prio, capacity)
    ensures Put(b, prio, capacity, me, m).1 <==> b.readers != [] || |b.queue| < capacity
  {
  }

  lemma GetSound(b: Box, prio: seq<nat>, capacity: nat, me: nat, blocking: bool)
    requires Sound(b, prio, capacity) && 0 < me < |prio| && me !in b.readers
    ensures Sound(Get(b, me, blocking).0, prio, capacity)
  {
  }

  /** Where the message of a put is afterwards. The foremost reader has it, as it was put, and no longer
      waits; with no reader it is the last of the queue, marked with its sender; and nothing has changed
      when there is no room. */
  lemma PutDelivers(b: Box, prio: seq<nat>, capacity: nat, me: nat, m: Msg)
    requires InTable(prio, b.readers)
    ensures var (r, done) := Put(b, prio, capacity, me, m);
            && (done <==> b.readers != [] || |b.queue| < capacity)
            && (!done ==> r == b)
            && (done ==> r.accepted == b.accepted + [if b.readers != [] then m else Msg(me, m.content)])
            && (done && b.readers == [] ==> r == b.(queue := b.queue + [Msg(me, m.content)], accepted := r.accepted))
            && (b.readers != [] ==>
                  exists k: nat :: Foremost(prio, b.readers, k) &&
                    r == Box(b.queue, b.readers[..k] + b.readers[k + 1..], r.accepted, b.letters + [Letter(b.readers[k], m)]))
  {
    if b.readers != [] {
      var k := Best(prio, b.readers);
      assert Foremost(prio, b.readers, k);
    }
  }

  /** A get takes the oldest message accepted that nobody has got yet. Without one a blocking get queues up
      behind all other readers, and another one changes nothing. */
  lemma GetTakesOldest(b: Box, prio: seq<nat>, capacity: nat, me: nat, blocking: bool)
    requires Sound(b, prio, capacity)
    ensures |b.letters| <= |b.accepted|
    ensures var ((t, r), n) := (Get(b, me, blocking), |b.letters|);
            if n < |b.accepted| then
              && r == Received(b.accepted[n])
              && t == b.(queue := b.accepted[n + 1..], letters := b.letters + [Letter(me, b.accepted[n])])
            else if blocking then r == Waiting && t == b.(readers := b.readers + [me])
            else r == Nothing && t == b
  {
    assert b.queue == b.accepted[|b.letters|..];
  }

  // ---------------------------------------------------------------- runs

  datatype Op = TryPut(me: nat, m: Msg) | Fetch(me: nat, blocking: bool)

  /** A thread that waits in the mailbox does not run, so it makes no calls. */
  predicate Legal(b: Box, prio: seq<nat>, op: Op) {
    op.Fetch? ==> 0 < op.me < |prio| && op.me !in b.readers
  }

  ghost function Step(b: Box, prio: seq<nat>, capacity: nat, op: Op): (r: Box)
    requires Sound(b, prio, capacity) && Legal(b, prio, op)
    ensures Sound(r, prio, capacity)
  {
    match op
    case TryPut(me, m) => PutSound(b, prio, capacity, me, m); Put(b, prio, capacity, me, m).0
    case Fetch(me, blocking) => GetSound(b, prio, capacity, me, blocking); Get(b, me, blocking).0
  }

  ghost predicate LegalRun(b: Box, prio: seq<nat>, capacity: nat, ops: seq<Op>)
    requires Sound(b, prio, capacity)
    decreases |ops|
  {
    ops == [] || (Legal(b, prio, ops[0]) && LegalRun(Step(b, prio, capacity, ops[0]), prio, capacity, ops[1..]))
  }

  ghost function Run(b: Box, prio: seq<nat>, capacity: nat, ops: seq<Op>): (r: Box)
    requires Sound(b, prio, capacity) && LegalRun(b, prio, capacity, ops)
    ensures Sound(r, prio, capacity)
    decreases |ops|
  {
    if ops == [] then b else Run(Step(b, prio, capacity, ops[0]), prio, capacity, ops[1..])
  }

  /** Nothing accepted or handed out is taken back. */
  lemma StepGrows(b: Box, prio: seq<nat>, capacity: nat, op: Op)
    requires Sound(b, prio, capacity) && Legal(b, prio, op)
    ensures b.accepted <= Step(b, prio, capacity, op).accepted && b.letters <= Step(b, prio, capacity, op).letters
  {
  }

  lemma {:induction false} RunGrows(b: Box, prio: seq<nat>, capacity: nat, ops: seq<Op>)
    requires Sound(b, prio, capacity) && LegalRun(b, prio, capacity, ops)
    ensures var r := Run(b, prio, capacity, ops); b.accepted <= r.accepted && b.letters <= r.letters
    decreases |ops|
  {
    if ops != [] {
      StepGrows(b, prio, capacity, ops[0]);
      RunGrows(Step(b, prio, capacity, ops[0]), prio, capacity, ops[1..]);
    }
  }

  /** The contents of the puts of a run that find a reader or room, in order. */
  ghost function Sent(b: Box, prio: seq<nat>, capacity: nat, ops: seq<Op>): seq<int>
    requires Sound(b, prio, capacity) && LegalRun(b, prio, capacity, ops)
    decreases |ops|
  {
    if ops == [] then []
    else
      var rest := Sent(Step(b, prio, capacity, ops[0]), prio, capacity, ops[1..]);
      if ops[0].TryPut? && (b.readers != [] || |b.queue| < capacity) then [ops[0].m.content] + rest else rest
  }

  function Contents(l: seq<Msg>): (c: seq<int>)
    ensures |c| == |l| && forall i :: 0 <= i < |c| ==> c[i] == l[i].content
  {
    seq(|l|, i requires 0 <= i < |l| => l[i].content)
  }

  /** What a run adds to the messages accepted are the contents put, unchanged and in order. */
  lemma {:induction false} RunAccepts(b: Box, prio: seq<nat>, capacity: nat, ops: seq<Op>)
    requires Sound(b, prio, capacity) && LegalRun(b, prio, capacity, ops)
    ensures Contents(Run(b, prio, capacity, ops).accepted) == Contents(b.accepted) + Sent(b, prio, capacity, ops)
    decreases |ops|
  {
    if ops != [] {
      var op, t := ops[0], Step(b, prio, capacity, ops[0]);
      RunAccepts(t, prio, capacity, ops[1..]);
      StepAccepts(b, prio, capacity, op);
    }
  }

  lemma StepAccepts(b: Box, prio: seq<nat>, capacity: nat, op: Op)
    requires Sound(b, prio, capacity) && Legal(b, prio, op)
    ensures Contents(Step(b, prio, capacity, op).accepted)
            == Contents(b.accepted) + if op.TryPut? && (b.readers != [] || |b.queue| < capacity) then [op.m.content] else []
  {
    match op
    case TryPut(me, m) => PutDelivers(b, prio, capacity, me, m);
    case Fetch(me, blocking) => GetTakesOldest(b, prio, capacity, me, blocking);
  }

  /** Who gets a message in a step: the foremost reader that of a put, the thread that fetches the oldest
      one nobody has got yet. */
  lemma StepLetters(b: Box, prio: seq<nat>, capacity: nat, op: Op)
    requires Sound(b, prio, capacity) && Legal(b, prio, op)
    ensures var l, n := Step(b, prio, capacity, op).letters, |b.letters|;
            match op
            case TryPut(me, m) =>
              if b.readers == [] then l == b.letters
              else exists k: nat :: Foremost(prio, b.readers, k) && l == b.letters + [Letter(b.readers[k], m)]
            case Fetch(me, blocking) =>
              l == b.letters + if n < |b.accepted| then [Letter(me, b.accepted[n])] else []
  {
    match op
    case TryPut(me, m) => PutDelivers(b, prio, capacity, me, m);
    case Fetch(me, blocking) => GetTakesOldest(b, prio, capacity, me, blocking);
  }

  /** From an empty mailbox, whatever is put and fetched: the messages handed out followed by those queued
      are the messages accepted, in order, and their contents are those put, unchanged; nobody waits
      while a message is queued. */
  lemma RunConserves(b: Box, prio: seq<nat>, capacity: nat, ops: seq<Op>)
    requires Sound(b, prio, capacity) && LegalRun(b, prio, capacity, ops)
    ensures var r := Run(b, prio, capacity, ops);
            && Messages(r.letters) + r.queue == r.accepted && b.accepted <= r.accepted && b.letters <= r.letters
            && |r.queue| <= capacity && (r.readers != [] ==> r.queue == [])
            && Contents(r.accepted) == Contents(b.accepted) + Sent(b, prio, capacity, ops)
  {
    RunGrows(b, prio, capacity, ops);
    RunAccepts(b, prio, capacity, ops);
  }

  // ---------------------------------------------------------------- the mailbox

  /** mbox_t, with the priorities of the threads and the places their `wait_data` points to */
  class Mailbox {
    const priority: seq<nat>
    const cib: Cib
    const msgArray: array<Msg>
    // the links of the threads and the head of the readers list, 0 for NULL
    var link: seq<nat>
    var readers: nat
    var waitData: map<nat, Msg>
    ghost var box: Box

    ghost predicate Wired()
      reads this, cib
    {
      cib.Valid() && cib.size == msgArray.Length
    }

    /** The messages between the counters. */
    ghost function Queued(): seq<Msg>
      reads this, cib, msgArray
      requires Wired()
    {
      if cib.size == 0 then [] else Window(msgArray[..], cib.First(), cib.Avail())
    }

    ghost predicate Valid()
      reads this, cib, msgArray
    {
      && Wired() && Sound(box, priority, cib.size)
      && box.queue == Queued() && |link| == |priority|
      && readers == First(ByPrio(priority, box.readers)) && Linked(link, ByPrio(priority, box.readers))
    }

    /** mbox_init */
    constructor (priority: seq<nat>, queue: array<Msg>)
      requires queue.Length <= MAX_SIZE && (queue.Length > 0 ==> And(queue.Length, queue.Length - 1) == 0)
      ensures Valid() && fresh(cib) && msgArray == queue && this.priority == priority
      ensures box == Box([], [], [], [])
    {
      this.priority, msgArray, waitData := priority, queue, map[];
      link, readers := seq(|priority|, i => 0), 0;
      cib := new Cib(queue.Length);
      box := Box([], [], [], []);
    }

    /** The message goes to the first waiting reader, which list_remove_head takes off the list. */
    method HandOver(m: Msg)
      requires Valid() && readers != 0
      modifies this`readers, this`waitData, this`box
      ensures Valid() && box == Put(old(box), priority, cib.size, 0, m).0
      ensures old(box).readers != [] && old(readers) == old(box).readers[Best(priority, old(box).readers)]
      ensures waitData == old(waitData)[old(readers) := m]
    {
      ghost var r := Put(box, priority, cib.size, 0, m).0;
      PutSound(box, priority, cib.size, 0, m);
      FirstIsBest(priority, box.readers);
      LinkedRest(link, ByPrio(priority, box.readers));
      var next := readers;
      readers := link[next];
      waitData := waitData[next := m];
      box := r;
    }

    /** The head of the readers list is NULL exactly when nobody waits. */
    lemma HeadMeans()
      requires Valid()
      ensures readers == 0 <==> box.readers == []
    {
      if box.readers != [] {
        LinkedRest(link, ByPrio(priority, box.readers));
      }
    }

    method Store(m: Msg)
      requires Wired() && cib.Avail() < cib.size
      modifies cib`writeCount, msgArray
      ensures Wired() && Queued() == old(Queued()) + [m]
    {
      ghost var b := msgArray[..];
      WindowPush(b, cib.First(), cib.Avail(), m);
      var i := cib.PutUnsafe();
      msgArray[i] := m;
      assert msgArray[..] == b[i := m];
    }

    /** _mbox_put, non-blocking */
    method TryPut(me: nat, m: Msg) returns (done: bool)
      requires Valid()
      modifies this`readers, this`waitData, this`box, cib`writeCount, msgArray
      ensures Valid() && (box, done) == Put(old(box), priority, cib.size, me, m)
      ensures old(box).readers != [] ==>
                waitData == old(waitData)[old(box).readers[Best(priority, old(box).readers)] := m]
      ensures old(box).readers == [] ==> waitData == old(waitData)
      ensures done <==> old(box).readers != [] || |old(box).queue| < cib.size
      ensures if done then box.accepted == old(box).accepted + [if old(box).readers != [] then m else Msg(me, m.content)]
              else box == old(box)
      ensures done && old(box).readers == [] ==> box.queue == old(box).queue + [Msg(me, m.content)]
    {
      PutSound(box, priority, cib.size, me, m);
      HeadMeans();
      if readers != 0 {
        HandOver(m);
        return true;
      }
      cib.FullMeans();
      if cib.Full() {
        return false;
      }
      ghost var r := Put(box, priority, cib.size, me, m).0;
      Store(Msg(me, m.content));
      box := r;
      return true;
    }

    method Load() returns (m: Msg)
      requires Wired() && cib.Avail() > 0
      modifies cib`readCount
      ensures Wired() && old(Queued()) != [] && m == old(Queued())[0] && Queued() == old(Queued())[1..]
    {
      WindowPop(msgArray[..], cib.First(), cib.Avail(), 1);
      var i := cib.GetUnsafe();
      m := msgArray[i];
    }

    /** The calling thread joins the readers list. */
    method Wait(me: nat)
      requires Valid() && box.queue == [] && 0 < me < |priority| && me !in box.readers
      modifies this`link, this`readers, this`box
      ensures Valid() && box == Get(old(box), me, true).0
    {
      ghost var t := Get(box, me, true).0;
      GetSound(box, priority, cib.size, me, true);
      ByPrioDistinct(priority, box.readers);
      ByPrioIn(priority, box.readers);
      link, readers := AddToList(link, readers, NotAfter(priority, me), me, priority, ByPrio(priority, box.readers));
      ByPrioEnter(priority, box.readers, me);
      box := t;
    }

    /** _mbox_get; a thread that has to wait gets its message from the put that wakes it */
    method Fetch(me: nat, blocking: bool) returns (r: Result)
      requires Valid() && 0 < me < |priority| && me !in box.readers
      modifies this`link, this`readers, this`box, cib`readCount
      ensures Valid() && (box, r) == Get(old(box), me, blocking)
      ensures old(box).queue != [] ==> r == Received(old(box).queue[0]) && box.queue == old(box).queue[1..]
      ensures old(box).queue == [] ==> r == if blocking then Waiting else Nothing
      ensures box.readers == old(box).readers + if r == Waiting then [me] else []
    {
      if cib.Avail() > 0 {
        ghost var t := Get(box, me, blocking).0;
        GetSound(box, priority, cib.size, me, blocking);
        var m := Load();
        box := t;
        return Received(m);
      } else if blocking {
        Wait(me);
        return Waiting;
      } else {
        return Nothing;
      }
    }
  }
}
