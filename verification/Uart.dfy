/** The receive buffer shared by the interrupt routine and one reader: every access to the shared
    variables is a step, and the steps of the two interleave in any way. */
module Uart {
  import opened Memory
  import opened Windows

  /** RX_BUFFER_SIZE; one element stays unused */
  const N := 128

  /** What the interrupt routine has read so far: the byte and the head it saw, then that there is room,
      then that the byte is stored. */
  datatype Isr = NoInterrupt | SawHead(b: byte, i: nat) | Room(b: byte, i: nat) | Put(b: byte, i: nat)

  /** The reader in uart_read_byte (the tail it saw, then that a byte is there, then the byte), or in
      uart_available (the head it saw). */
  datatype Reader = NotReading | SawTail(i: nat) | Ready(i: nat) | Got(i: nat, ret: byte) | Counting(h: nat)

  /** `accepted` are the bytes made visible to the reader, `taken` those it has read; `counted` is the
      last result of uart_available. */
  datatype State = State(buf: seq<byte>, head: nat, tail: nat, isr: Isr, reader: Reader,
                         accepted: seq<byte>, taken: seq<byte>, counted: nat)

  function After(i: nat): (r: nat)
    ensures r < N
  {
    (i + 1) % N
  }

  /** The number of bytes between two positions, as uart_available computes it. */
  function Between(tail: nat, head: nat): (n: nat)
    requires tail < N && head < N
    ensures n < N
  {
    if head >= tail then head - tail else N + head - tail
  }

  predicate Shape(s: State) {
    |s.buf| == N && s.head < N && s.tail < N
  }

  /** The bytes in the buffer that have not been read. */
  function Held(s: State): (w: seq<byte>)
    requires Shape(s)
    ensures |w| < N
  {
    Window(s.buf, s.tail, Between(s.tail, s.head))
  }

  predicate IsrSound(s: State)
    requires Shape(s)
  {
    match s.isr
    case NoInterrupt => true
    case SawHead(b, i) => i == s.head
    case Room(b, i) => i == s.head && After(i) != s.tail
    case Put(b, i) => i == s.head && After(i) != s.tail && s.buf[i] == b
  }

  predicate ReaderSound(s: State)
    requires Shape(s)
  {
    match s.reader
    case NotReading => true
    case SawTail(i) => i == s.tail
    case Ready(i) => i == s.tail && s.tail != s.head
    case Got(i, ret) => i == s.tail && s.tail != s.head && ret == s.buf[i]
    case Counting(h) => h < N && Between(s.tail, h) <= Between(s.tail, s.head)
  }

  /** What was accepted has been read or is in the buffer, in order. */
  predicate Sound(s: State) {
    Shape(s) && IsrSound(s) && ReaderSound(s) && s.accepted == s.taken + Held(s)
  }

  /** The single accesses: four of uart_append_byte, four of uart_read_byte, two of uart_available. */
  datatype Access = LoadHead(b: byte) | CheckRoom | StoreByte | StoreHead
                  | LoadTail | PollHead | LoadByte | StoreTail | CountHead | CountTail

  predicate Enabled(s: State, a: Access) {
    match a
    case LoadHead(_) => s.isr.NoInterrupt?
    case CheckRoom => s.isr.SawHead?
    case StoreByte => s.isr.Room?
    case StoreHead => s.isr.Put?
    case LoadTail => s.reader.NotReading?
    case PollHead => s.reader.SawTail?
    case LoadByte => s.reader.Ready?
    case StoreTail => s.reader.Got?
    case CountHead => s.reader.NotReading?
    case CountTail => s.reader.Counting?
  }

  function IsrTo(s: State, isr: Isr): State {
    s.(isr := isr)
  }

  function ReaderTo(s: State, reader: Reader): State {
    s.(reader := reader)
  }

  function Step(s: State, a: Access): State
    requires Sound(s) && Enabled(s, a)
  {
    match a
    case LoadHead(b) => IsrTo(s, SawHead(b, s.head))
    case CheckRoom => IsrTo(s, if After(s.isr.i) != s.tail then Room(s.isr.b, s.isr.i) else NoInterrupt)
    case StoreByte =>
      s.(buf := s.buf[s.isr.i := s.isr.b], isr := Put(s.isr.b, s.isr.i))
    case StoreHead =>
      s.(head := After(s.isr.i), isr := NoInterrupt, accepted := s.accepted + [s.isr.b])
    case LoadTail => ReaderTo(s, SawTail(s.tail))
    case PollHead => if s.reader.i == s.head then s else ReaderTo(s, Ready(s.reader.i))
    case LoadByte => ReaderTo(s, Got(s.reader.i, s.buf[s.reader.i]))
    case StoreTail =>
      s.(tail := After(s.reader.i), reader := NotReading, taken := s.taken + [s.reader.ret])
    case CountHead => ReaderTo(s, Counting(s.head))
    case CountTail =>
      s.(reader := NotReading, counted := Between(s.tail, s.reader.h))
  }

  /** Storing into the free element changes no byte that is still to be read. */
  lemma StoreByteSound(s: State)
    requires Sound(s) && s.isr.Room?
    ensures Sound(Step(s, StoreByte)) && Held(Step(s, StoreByte)) == Held(s)
  {
  }

  lemma StoreHeadSound(s: State)
    requires Sound(s) && s.isr.Put?
    ensures Sound(Step(s, StoreHead)) && Held(Step(s, StoreHead)) == Held(s) + [s.isr.b]
  {
    var n := Between(s.tail, s.head);
    WindowPush(s.buf, s.tail, n, s.isr.b);
    assert s.buf[Wrap(s.tail + n, N) := s.isr.b] == s.buf;
    assert Between(s.tail, After(s.head)) == n + 1;
    assert s.accepted + [s.isr.b] == s.taken + (Held(s) + [s.isr.b]);
  }

  lemma TailMoves(b: seq<byte>, tail: nat, head: nat)
    requires |b| == N && tail < N && head < N && tail != head
    ensures var w, rest := Window(b, tail, Between(tail, head)), Window(b, After(tail), Between(After(tail), head));
            |w| > 0 && w[0] == b[tail] && rest == w[1..]
  {
  }

  lemma Move<T>(taken: seq<T>, held: seq<T>)
    requires held != []
    ensures taken + held == (taken + [held[0]]) + held[1..] && held == [held[0]] + held[1..]
  {
  }

  /** The byte read is the oldest one not read before. */
  lemma StoreTailSound(s: State)
    requires Sound(s) && s.reader.Got?
    ensures Sound(Step(s, StoreTail)) && Held(s) == [s.reader.ret] + Held(Step(s, StoreTail))
  {
    TailMoves(s.buf, s.tail, s.head);
    Move(s.taken, Held(s));
  }

  /** Every access keeps the invariant, whichever of the two makes it; a finished count does not
      overstate what there is to read. */
  lemma StepSound(s: State, a: Access)
    requires Sound(s) && Enabled(s, a)
    ensures Sound(Step(s, a))
    ensures a == CountTail ==> Step(s, a).counted <= |Held(Step(s, a))|
  {
    match a
    case StoreByte => StoreByteSound(s);
    case StoreHead => StoreHeadSound(s);
    case StoreTail => StoreTailSound(s);
    case _ =>
  }

  /** Each access told by the bytes held: a byte is dropped exactly when N - 1 are held when the tail is
      looked at, and otherwise comes to be held last; the reader goes on exactly when a byte is held when
      the head is looked at, and takes the first one. No access changes anything else. */
  lemma StepMeans(s: State, a: Access)
    requires Sound(s) && Enabled(s, a)
    ensures var t, held := Step(s, a), Held(s);
            Sound(t) &&
            match a
            case LoadHead(b) => t == s.(isr := t.isr) && t.isr.SawHead? && t.isr.b == b
            case CheckRoom =>
              t == s.(isr := t.isr) && if |held| < N - 1 then t.isr.Room? && t.isr.b == s.isr.b else t.isr.NoInterrupt?
            case StoreByte => t == s.(isr := t.isr, buf := t.buf) && t.isr.Put? && t.isr.b == s.isr.b && Held(t) == held
            case StoreHead =>
              && t == s.(isr := NoInterrupt, head := t.head, accepted := s.accepted + [s.isr.b])
              && Held(t) == held + [s.isr.b]
            case LoadTail => t == s.(reader := t.reader) && t.reader.SawTail?
            case PollHead => t == s.(reader := t.reader) && if held != [] then t.reader.Ready? else t.reader.SawTail?
            case LoadByte => t == s.(reader := t.reader) && t.reader.Got? && held != [] && t.reader.ret == held[0]
            case StoreTail =>
              && held != [] && t == s.(reader := NotReading, tail := t.tail, taken := s.taken + [held[0]])
              && Held(t) == held[1..]
            case CountHead => t == s.(reader := t.reader) && t.reader.Counting?
            case CountTail => t == s.(reader := NotReading, counted := t.counted) && t.counted <= |held|
  {
    StepSound(s, a);
    match a
    case StoreByte => StoreByteSound(s);
    case StoreHead => StoreHeadSound(s);
    case LoadByte => TailMoves(s.buf, s.tail, s.head);
    case StoreTail => StoreTailSound(s);
    case _ =>
  }

  ghost predicate LegalRun(s: State, run: seq<Access>)
    requires Sound(s)
    decreases |run|
  {
    run == [] || (Enabled(s, run[0]) && (StepSound(s, run[0]); LegalRun(Step(s, run[0]), run[1..])))
  }

  ghost function Run(s: State, run: seq<Access>): State
    requires Sound(s) && LegalRun(s, run)
    decreases |run|
  {
    if run == [] then s
    else
      StepSound(s, run[0]);
      Run(Step(s, run[0]), run[1..])
  }

  function Initial(buf: seq<byte>): State
    requires |buf| == N
  {
    State(buf, 0, 0, NoInterrupt, NotReading, [], [], 0)
  }

  /** For every interleaving: the bytes read are a prefix of the bytes accepted, the rest is in the buffer,
      and at most N - 1 bytes are. */
  lemma {:induction false} RunSafe(s: State, run: seq<Access>)
    requires Sound(s) && LegalRun(s, run)
    ensures var t := Run(s, run);
            && Sound(t) && t.taken <= t.accepted && t.accepted[|t.taken|..] == Held(t) && |Held(t)| <= N - 1
            && s.accepted <= t.accepted && s.taken <= t.taken
    decreases |run|
  {
    if run != [] {
      StepSound(s, run[0]);
      RunSafe(Step(s, run[0]), run[1..]);
    }
  }

  /** While a count is under way only the interrupt routine makes accesses, and the tail stays. */
  lemma {:induction false} CountStays(s: State, run: seq<Access>)
    requires Sound(s) && s.reader.Counting? && LegalRun(s, run) && CountTail !in run
    ensures Sound(Run(s, run)) && Run(s, run).reader == s.reader && Run(s, run).tail == s.tail
    decreases |run|
  {
    if run != [] {
      assert run[0] in run;
      StepSound(s, run[0]);
      CountStays(Step(s, run[0]), run[1..]);
    }
  }

  /** uart_available returns the number of bytes that were there when it looked at the head, however many the
      interrupt routine adds before it looks at the tail. */
  lemma CountExact(s: State, run: seq<Access>)
    requires Sound(s) && s.reader.NotReading? && Sound(Step(s, CountHead))
    requires LegalRun(Step(s, CountHead), run) && CountTail !in run
    ensures var u := Run(Step(s, CountHead), run);
            Sound(u) && Enabled(u, CountTail) && Step(u, CountTail).counted == |Held(s)| <= |Held(u)|
  {
    var u := Run(Step(s, CountHead), run);
    CountStays(Step(s, CountHead), run);
    StepSound(u, CountTail);
  }

  /** The shared variables. The methods are the accesses of the C code; arguments are the locals of the
      routine that makes them. */
  class Receiver {
    const rxBuffer: array<byte>
    var rxHead: nat
    var rxTail: nat
    ghost var state: State

    ghost predicate Valid()
      reads this, rxBuffer
    {
      && Sound(state) && rxBuffer.Length == N
      && rxBuffer[..] == state.buf && rxHead == state.head && rxTail == state.tail
    }

    /** uart_init */
    constructor (buffer: array<byte>)
      requires buffer.Length == N
      ensures Valid() && rxBuffer == buffer && state == Initial(buffer[..])
    {
      rxBuffer, rxHead, rxTail := buffer, 0, 0;
      state := Initial(buffer[..]);
    }

    method IsrLoadHead(b: byte) returns (i: nat)
      requires Valid() && state.isr.NoInterrupt?
      modifies this`state
      ensures Valid() && state == Step(old(state), LoadHead(b)) && state.isr == SawHead(b, i)
    {
      StepSound(state, LoadHead(b));
      i := rxHead;
      state := Step(state, LoadHead(b));
    }

    method IsrCheckRoom(b: byte, i: nat) returns (room: bool, nextHead: nat)
      requires Valid() && state.isr == SawHead(b, i)
      modifies this`state
      ensures Valid() && state == Step(old(state), CheckRoom)
      ensures nextHead == After(i) && (room <==> state.isr == Room(b, i)) && (!room <==> state.isr == NoInterrupt)
    {
      StepSound(state, CheckRoom);
      nextHead := (i + 1) % N;
      room := nextHead != rxTail;
      state := Step(state, CheckRoom);
    }

    method IsrStoreByte(b: byte, i: nat)
      requires Valid() && state.isr == Room(b, i)
      modifies this`state, rxBuffer
      ensures Valid() && state == Step(old(state), StoreByte)
    {
      StepSound(state, StoreByte);
      rxBuffer[i] := b;
      state := Step(state, StoreByte);
    }

    method IsrStoreHead(b: byte, i: nat, nextHead: nat)
      requires Valid() && state.isr == Put(b, i) && nextHead == After(i)
      modifies this`rxHead, this`state
      ensures Valid() && state == Step(old(state), StoreHead)
    {
      StepSound(state, StoreHead);
      rxHead := nextHead;
      state := Step(state, StoreHead);
    }

    /** uart_append_byte without interruption: the byte is accepted unless N - 1 are waiting */
    method AppendByte(b: byte)
      requires Valid() && state.isr.NoInterrupt?
      modifies this`rxHead, this`state, rxBuffer
      ensures Valid() && state.isr.NoInterrupt? && state.taken == old(state.taken)
      ensures state.accepted == old(state.accepted) + if |Held(old(state))| < N - 1 then [b] else []
    {
      var i := IsrLoadHead(b);
      var room, nextHead := IsrCheckRoom(b, i);
      if room {
        IsrStoreByte(b, i);
        IsrStoreHead(b, i, nextHead);
      }
    }

    method ReadLoadTail() returns (i: nat)
      requires Valid() && state.reader.NotReading?
      modifies this`state
      ensures Valid() && state == Step(old(state), LoadTail) && state.reader == SawTail(i)
    {
      StepSound(state, LoadTail);
      i := rxTail;
      state := Step(state, LoadTail);
    }

    /** One turn of the waiting loop of uart_read_byte. */
    method ReadPollHead(i: nat) returns (ready: bool)
      requires Valid() && state.reader == SawTail(i)
      modifies this`state
      ensures Valid() && state == Step(old(state), PollHead)
      ensures state.reader == if ready then Ready(i) else SawTail(i)
      ensures ready <==> Held(state) != []
    {
      StepSound(state, PollHead);
      ready := i != rxHead;
      state := Step(state, PollHead);
    }

    method ReadLoadByte(i: nat) returns (ret: byte)
      requires Valid() && state.reader == Ready(i)
      modifies this`state
      ensures Valid() && state == Step(old(state), LoadByte) && state.reader == Got(i, ret)
    {
      StepSound(state, LoadByte);
      ret := rxBuffer[i];
      state := Step(state, LoadByte);
    }

    method ReadStoreTail(i: nat, ret: byte)
      requires Valid() && state.reader == Got(i, ret)
      modifies this`rxTail, this`state
      ensures Valid() && state == Step(old(state), StoreTail)
    {
      StepSound(state, StoreTail);
      rxTail := (i + 1) % N;
      state := Step(state, StoreTail);
    }

    method AvailableLoadHead() returns (head: nat)
      requires Valid() && state.reader.NotReading?
      modifies this`state
      ensures Valid() && state == Step(old(state), CountHead) && state.reader == Counting(head)
    {
      StepSound(state, CountHead);
      head := rxHead;
      state := Step(state, CountHead);
    }

    method AvailableLoadTail(head: nat) returns (n: nat)
      requires Valid() && state.reader == Counting(head)
      modifies this`state
      ensures Valid() && state == Step(old(state), CountTail) && n == state.counted <= |Held(state)|
    {
      StepSound(state, CountTail);
      var tail := rxTail;
      n := if head >= tail then head - tail else N + head - tail;
      state := Step(state, CountTail);
    }
  }
}
