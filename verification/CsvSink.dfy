/** The asynchronous CSV sink: one producer thread, one consumer thread, a lock-free ring between
    them and a flush/stop handshake on top. Each atomic load or store, each slot access and each
    file operation is one step; a schedule says which thread moves next, so a statement about all
    schedules is a statement about all interleavings. */
module CsvSink {
  import opened MarketTypes
  import opened RingIndex

  type Record = string

  /** What the producer thread is asked to do, in order. */
  datatype Command = Write(rec: Record) | Flush | Close

  datatype Producer =
    | Ready
    | WriteLoad(rec: Record)
    | WriteCheck(rec: Record, t: nat, next: nat)
    | WriteSlot(rec: Record, t: nat, next: nat)
    | WritePublish(rec: Record, t: nat, next: nat)
    | FlushRequest
    | FlushWait
    | CloseStop
    | CloseJoin

  datatype Consumer =
    | DrainHead
    | DrainTail(h: nat)
    | DrainCopy(h: nat, end: nat, n: nat)
    | DrainFree(h: nat, n: nat)
    | FlushCheck(n: nat)
    | FlushHead(n: nat)
    | FlushTail(h: nat, n: nat)
    | FlushFile(n: nat)
    | FlushAck(n: nat)
    | IdleCheck(n: nat)
    | StopCheck
    | StopHead
    | StopTail(h: nat)
    | Exited

  /** `done`, `pushed`, `freed` and `seen` are history: the finished commands, the published
      records, how many of them the consumer has freed, and how many were published when it last
      loaded the tail. No step branches on them. */
  datatype Sink = Sink(
    slots: seq<Record>, head: nat, tail: nat, flushReq: bool, stop: bool,
    open: bool, file: seq<Record>, flushed: nat,
    producer: Producer, consumer: Consumer, todo: seq<Command>,
    done: seq<Command>, pushed: seq<Record>, freed: nat, seen: nat)

  function Opened(slots: seq<Record>, program: seq<Command>): Sink {
    Sink(slots, 0, 0, false, false, true, [], 0, Ready, DrainHead, program, [], [], 0, 0)
  }

  function Next(s: Sink, i: nat): nat {
    if |s.slots| == 0 then 0 else BitAnd(i + 1, |s.slots| - 1)
  }

  // ---- The producer thread ----

  function Finish(s: Sink, c: Command): Sink {
    s.(producer := Ready, done := s.done + [c])
  }

  function Begin(s: Sink): Sink {
    if s.todo == [] then s
    else
      var c, t := s.todo[0], s.(todo := s.todo[1..]);
      if !s.open then Finish(t, c)
      else
        match c
        case Write(rec) => t.(producer := WriteLoad(rec))
        case Flush => t.(producer := FlushRequest)
        case Close => t.(producer := CloseStop)
  }

  function ProducerStep(s: Sink): Sink {
    match s.producer
    case Ready => Begin(s)
    case WriteLoad(rec) => s.(producer := WriteCheck(rec, s.tail, Next(s, s.tail)))
    case WriteCheck(rec, t, next) =>
      if next == s.head then s.(producer := WriteLoad(rec)) else s.(producer := WriteSlot(rec, t, next))
    case WriteSlot(rec, t, next) =>
      s.(slots := if t < |s.slots| then s.slots[t := rec] else s.slots, producer := WritePublish(rec, t, next))
    case WritePublish(rec, t, next) => Finish(s.(tail := next, pushed := s.pushed + [rec]), Write(rec))
    case FlushRequest => s.(flushReq := true, producer := FlushWait)
    case FlushWait => if s.flushReq then s else Finish(s, Flush)
    case CloseStop => s.(stop := true, producer := CloseJoin)
    case CloseJoin => if s.consumer.Exited? then Finish(s.(flushed := |s.file|, open := false), Close) else s
  }

  // ---- The consumer thread ----

  function ConsumerStep(s: Sink): Sink {
    match s.consumer
    case DrainHead => s.(consumer := DrainTail(s.head))
    case DrainTail(h) => s.(consumer := DrainCopy(h, s.tail, 0), seen := |s.pushed|)
    case DrainCopy(h, end, n) =>
      if h != end then
        s.(file := s.file + [if h < |s.slots| then s.slots[h] else ""], consumer := DrainCopy(Next(s, h), end, n + 1))
      else
        s.(consumer := if n > 0 then DrainFree(h, n) else FlushCheck(n))
    case DrainFree(h, n) => s.(head := h, freed := s.freed + n, consumer := FlushCheck(n))
    case FlushCheck(n) => s.(consumer := if s.flushReq then FlushHead(n) else IdleCheck(n))
    case FlushHead(n) => s.(consumer := FlushTail(s.head, n))
    case FlushTail(h, n) => s.(consumer := if h == s.tail then FlushFile(n) else IdleCheck(n))
    case FlushFile(n) => s.(flushed := |s.file|, consumer := FlushAck(n))
    case FlushAck(n) => s.(flushReq := false, consumer := IdleCheck(n))
    case IdleCheck(n) => s.(consumer := if n > 0 then DrainHead else StopCheck)
    case StopCheck => s.(consumer := if s.stop then StopHead else DrainHead)
    case StopHead => s.(consumer := StopTail(s.head))
    case StopTail(h) => s.(consumer := if h == s.tail then Exited else DrainHead)
    case Exited => s
  }

  datatype Thread = ProducerThread | ConsumerThread

  function Move(s: Sink, who: Thread): Sink {
    if who.ProducerThread? then ProducerStep(s) else ConsumerStep(s)
  }

  function Run(s: Sink, schedule: seq<Thread>): Sink {
    if schedule == [] then s
    else Move(Run(s, schedule[..|schedule| - 1]), schedule[|schedule| - 1])
  }

  // ---- The invariant ----

  /** Records of the writes finished before the sink was closed. */
  function Accepted(cmds: seq<Command>): seq<Record> {
    if cmds == [] then []
    else
      var front, c := cmds[..|cmds| - 1], cmds[|cmds| - 1];
      Accepted(front) + if c.Write? && Close !in front then [c.rec] else []
  }

  /** The published records the consumer has not freed sit in consecutive slots, fewer than the
      capacity, and the file is a prefix of the published records. */
  ghost predicate Ring(slots: seq<Record>, head: nat, tail: nat, pushed: seq<Record>, freed: nat, file: seq<Record>) {
    var cap := |slots|;
    && cap > 0
    && head == Slot(freed, cap)
    && tail == Slot(|pushed|, cap)
    && freed <= |file| <= |pushed| < freed + cap
    && file == pushed[..|file|]
    && Holds(slots, pushed, freed)
  }

  ghost predicate Holds(slots: seq<Record>, pushed: seq<Record>, freed: nat)
    requires |slots| > 0
  {
    forall k :: freed <= k < |pushed| ==> slots[Slot(k, |slots|)] == pushed[k]
  }

  ghost predicate ProducerAt(p: Producer, slots: seq<Record>, n: nat, freed: nat)
    requires |slots| > 0
  {
    var cap := |slots|;
    match p
    case WriteCheck(rec, t, next) => t == Slot(n, cap) && next == Slot(n + 1, cap)
    case WriteSlot(rec, t, next) => t == Slot(n, cap) && next == Slot(n + 1, cap) && n + 1 < freed + cap
    case WritePublish(rec, t, next) =>
      t == Slot(n, cap) && next == Slot(n + 1, cap) && n + 1 < freed + cap && slots[t] == rec
    case _ => true
  }

  /** `n` records are in the file, `pushed` are published, `freed` of them are freed. */
  ghost predicate ConsumerAt(c: Consumer, cap: nat, head: nat, n: nat, pushed: nat, freed: nat, seen: nat)
    requires cap > 0
  {
    match c
    case DrainTail(h) => h == head && freed == n
    case DrainCopy(h, end, k) => h == Slot(n, cap) && end == Slot(seen, cap) && n <= seen <= pushed && freed + k == n
    case DrainFree(h, k) => h == Slot(n, cap) && freed + k == n
    case FlushTail(h, _) => freed == n && h == head
    case FlushFile(_) => freed == n == pushed
    case FlushAck(_) => freed == n == pushed
    case StopTail(h) => freed == n && h == head
    case Exited => freed == n == pushed
    case _ => freed == n
  }

  predicate Flushing(c: Consumer) {
    c.FlushHead? || c.FlushTail? || c.FlushFile? || c.FlushAck?
  }

  predicate Stopping(c: Consumer) {
    c.StopHead? || c.StopTail? || c.Exited?
  }

  ghost predicate FlushHandshake(flushReq: bool, p: Producer, c: Consumer, n: nat, pushed: nat, flushed: nat) {
    && (flushReq ==> p.FlushWait?)
    && (Flushing(c) ==> flushReq)
    && (c.FlushAck? ==> flushed == n)
    && (p.FlushWait? && !flushReq ==> flushed == n == pushed)
  }

  ghost predicate StopHandshake(stop: bool, open: bool, p: Producer, c: Consumer, n: nat, pushed: nat, flushed: nat) {
    && (stop ==> p.CloseJoin? || !open)
    && (p.CloseJoin? ==> stop)
    && (Stopping(c) ==> stop)
    && (p != Ready ==> open)
    && (!open ==> stop && c.Exited? && flushed == n == pushed)
  }

  ghost predicate Recorded(open: bool, done: seq<Command>, pushed: seq<Record>) {
    (open <==> Close !in done) && pushed == Accepted(done)
  }

  ghost predicate Inv(s: Sink) {
    && Ring(s.slots, s.head, s.tail, s.pushed, s.freed, s.file)
    && ProducerAt(s.producer, s.slots, |s.pushed|, s.freed)
    && ConsumerAt(s.consumer, |s.slots|, s.head, |s.file|, |s.pushed|, s.freed, s.seen)
    && FlushHandshake(s.flushReq, s.producer, s.consumer, |s.file|, |s.pushed|, s.flushed)
    && StopHandshake(s.stop, s.open, s.producer, s.consumer, |s.file|, |s.pushed|, s.flushed)
    && Recorded(s.open, s.done, s.pushed)
  }

  lemma OpenedInv(slots: seq<Record>, program: seq<Command>)
    requires IsPow2(|slots|)
    ensures Inv(Opened(slots, program))
  {
  }

  lemma AcceptedSnoc(cmds: seq<Command>, c: Command)
    ensures Accepted(cmds + [c]) == Accepted(cmds) + if c.Write? && Close !in cmds then [c.rec] else []
  {
    assert (cmds + [c])[..|cmds|] == cmds;
  }

  lemma ProducerKeepsInv(s: Sink)
    requires Inv(s) && IsPow2(|s.slots|)
    ensures Inv(ProducerStep(s))
  {
    match s.producer {
      case Ready => BeginKeepsInv(s);
      case WriteLoad(_) => LoadKeepsInv(s);
      case WriteCheck(_, _, _) => CheckKeepsInv(s);
      case WriteSlot(_, _, _) => SlotWriteIsInvisible(s);
      case WritePublish(_, _, _) => PublishKeepsInv(s);
      case FlushRequest => FlushCallKeepsInv(s);
      case FlushWait => FlushCallKeepsInv(s);
      case CloseStop => CloseCallKeepsInv(s);
      case CloseJoin => CloseCallKeepsInv(s);
    }
  }

  lemma BeginKeepsInv(s: Sink)
    requires Inv(s) && s.producer.Ready?
    ensures Inv(ProducerStep(s))
  {
    if s.todo != [] {
      if s.open {
        BeginOpenKeepsInv(s);
      } else {
        AfterCloseKeepsInv(s);
      }
    }
  }

  lemma BeginOpenKeepsInv(s: Sink)
    requires Inv(s) && s.producer.Ready? && s.todo != [] && s.open
    ensures Inv(ProducerStep(s))
  {
    match s.todo[0] {
      case Write(rec) => CallKeepsInv(s, WriteLoad(rec), s.todo[1..]);
      case Flush => CallKeepsInv(s, FlushRequest, s.todo[1..]);
      case Close => CallKeepsInv(s, CloseStop, s.todo[1..]);
    }
  }

  lemma CallKeepsInv(s: Sink, p: Producer, todo: seq<Command>)
    requires Inv(s) && s.producer.Ready? && s.open
    requires p.WriteLoad? || p.FlushRequest? || p.CloseStop?
    ensures Inv(s.(producer := p, todo := todo))
  {
  }

  lemma AfterCloseKeepsInv(s: Sink)
    requires Inv(s) && s.producer.Ready? && s.todo != [] && !s.open
    ensures Inv(ProducerStep(s))
  {
    AcceptedSnoc(s.done, s.todo[0]);
  }

  lemma LoadKeepsInv(s: Sink)
    requires Inv(s) && IsPow2(|s.slots|) && s.producer.WriteLoad?
    ensures Inv(ProducerStep(s))
  {
    NextSlot(s, |s.pushed|);
  }

  lemma NextSlot(s: Sink, k: nat)
    requires |s.slots| > 0 && IsPow2(|s.slots|)
    ensures Next(s, Slot(k, |s.slots|)) == Slot(k + 1, |s.slots|)
  {
    MaskedNext(k, |s.slots|);
  }

  lemma CheckKeepsInv(s: Sink)
    requires Inv(s) && s.producer.WriteCheck?
    ensures Inv(ProducerStep(s))
  {
    RoomBehindHead(s.freed, |s.pushed|, |s.slots|);
  }

  lemma FlushCallKeepsInv(s: Sink)
    requires Inv(s) && (s.producer.FlushRequest? || s.producer.FlushWait?)
    ensures Inv(ProducerStep(s))
  {
    AcceptedSnoc(s.done, Flush);
  }

  lemma CloseCallKeepsInv(s: Sink)
    requires Inv(s) && (s.producer.CloseStop? || s.producer.CloseJoin?)
    ensures Inv(ProducerStep(s))
  {
    AcceptedSnoc(s.done, Close);
  }

  lemma RoomBehindHead(freed: nat, n: nat, cap: nat)
    requires cap > 0 && freed <= n < freed + cap
    ensures Slot(n + 1, cap) != Slot(freed, cap) ==> n + 1 < freed + cap
  {
    if n + 1 == freed + cap {
      assert Slot(n + 1, cap) == Slot(freed, cap);
    }
  }

  /** The slot being written is outside the window of published records. */
  lemma SlotWriteIsInvisible(s: Sink)
    requires Inv(s) && s.producer.WriteSlot?
    ensures Inv(ProducerStep(s))
  {
    var cap, t := |s.slots|, ProducerStep(s);
    forall k | s.freed <= k < |s.pushed|
      ensures t.slots[Slot(k, cap)] == s.pushed[k]
    {
      SlotsDiffer(k, |s.pushed|, cap);
    }
  }

  lemma PublishKeepsInv(s: Sink)
    requires Inv(s) && s.producer.WritePublish?
    ensures Inv(ProducerStep(s))
  {
    AcceptedSnoc(s.done, Write(s.producer.rec));
    var t := ProducerStep(s);
    assert t.pushed[..|s.file|] == s.pushed[..|s.file|];
  }

  lemma ConsumerKeepsInv(s: Sink)
    requires Inv(s) && IsPow2(|s.slots|)
    ensures Inv(ConsumerStep(s))
  {
    match s.consumer {
      case DrainHead => DrainEndsKeepInv(s);
      case DrainTail(_) => DrainEndsKeepInv(s);
      case DrainFree(_, _) => DrainEndsKeepInv(s);
      case DrainCopy(_, _, _) => CopyKeepsInv(s);
      case FlushTail(_, _) => EmptyCheckKeepsInv(s);
      case StopTail(_) => EmptyCheckKeepsInv(s);
      case FlushFile(_) => FlushKeepsInv(s);
      case FlushAck(_) => FlushKeepsInv(s);
      case _ => ChecksKeepInv(s);
    }
  }

  lemma DrainEndsKeepInv(s: Sink)
    requires Inv(s) && (s.consumer.DrainHead? || s.consumer.DrainTail? || s.consumer.DrainFree?)
    ensures Inv(ConsumerStep(s))
  {
  }

  lemma EmptyCheckKeepsInv(s: Sink)
    requires Inv(s) && (s.consumer.FlushTail? || s.consumer.StopTail?)
    ensures Inv(ConsumerStep(s))
  {
    EmptyMeansDrained(s.freed, |s.pushed|, |s.slots|);
  }

  lemma FlushKeepsInv(s: Sink)
    requires Inv(s) && (s.consumer.FlushFile? || s.consumer.FlushAck?)
    ensures Inv(ConsumerStep(s))
  {
  }

  lemma ChecksKeepInv(s: Sink)
    requires Inv(s)
    requires match s.consumer
             case FlushCheck(_) => true case FlushHead(_) => true case IdleCheck(_) => true
             case StopCheck => true case StopHead => true case Exited => true
             case _ => false
    ensures Inv(ConsumerStep(s))
  {
  }

  lemma EmptyMeansDrained(freed: nat, n: nat, cap: nat)
    requires cap > 0 && freed <= n < freed + cap
    ensures Slot(freed, cap) == Slot(n, cap) ==> freed == n
  {
    if freed < n {
      SlotsDiffer(freed, n, cap);
    }
  }

  lemma CopyKeepsInv(s: Sink)
    requires Inv(s) && IsPow2(|s.slots|) && s.consumer.DrainCopy?
    ensures Inv(ConsumerStep(s))
  {
    EmptyMeansDrained(|s.file|, s.seen, |s.slots|);
    if s.consumer.h != s.consumer.end {
      CopyOneKeepsInv(s);
    }
  }

  lemma CopyOneKeepsInv(s: Sink)
    requires Inv(s) && IsPow2(|s.slots|) && s.consumer.DrainCopy? && s.consumer.h != s.consumer.end
    requires |s.file| < s.seen
    ensures Inv(ConsumerStep(s))
  {
    NextSlot(s, |s.file|);
    CopyExtendsPrefix(s.slots, s.head, s.tail, s.pushed, s.freed, s.file);
  }

  lemma CopyExtendsPrefix(slots: seq<Record>, head: nat, tail: nat, pushed: seq<Record>, freed: nat, file: seq<Record>)
    requires Ring(slots, head, tail, pushed, freed, file) && |file| < |pushed|
    ensures Ring(slots, head, tail, pushed, freed, file + [slots[Slot(|file|, |slots|)]])
  {
    assert slots[Slot(|file|, |slots|)] == pushed[|file|];
    SnocPrefix(file, pushed);
  }

  lemma {:induction false} RunKeepsInv(s: Sink, schedule: seq<Thread>)
    requires Inv(s) && IsPow2(|s.slots|)
    ensures Inv(Run(s, schedule))
  {
    if schedule != [] {
      CapacityIsFixed(s, schedule[..|schedule| - 1]);
      RunKeepsInv(s, schedule[..|schedule| - 1]);
      var t := Run(s, schedule[..|schedule| - 1]);
      ProducerKeepsInv(t);
      ConsumerKeepsInv(t);
    }
  }

  // ---- What holds on every interleaving ----

  /** Nothing is lost, repeated or reordered: the file is a prefix of the records accepted so far,
      and the rest sits in consecutive slots, in order, with one slot always free. */
  lemma RingIsFifo(slots: seq<Record>, program: seq<Command>, schedule: seq<Thread>)
    requires IsPow2(|slots|)
    ensures var s := Run(Opened(slots, program), schedule);
            var all := Accepted(s.done);
      && s.freed <= |s.file| <= |all| && s.file == all[..|s.file|]
      && |all| - s.freed < |slots| == |s.slots|
      && forall k :: s.freed <= k < |all| ==> s.slots[k % |slots|] == all[k]
  {
    OpenedInv(slots, program);
    RunKeepsInv(Opened(slots, program), schedule);
    CapacityIsFixed(Opened(slots, program), schedule);
    var s := Run(Opened(slots, program), schedule);
    forall k | s.freed <= k < |s.pushed|
      ensures s.slots[k % |slots|] == s.pushed[k]
    {
      SlotIsMod(k, |slots|);
    }
  }

  lemma ProducerKeepsCapacity(s: Sink)
    ensures |ProducerStep(s).slots| == |s.slots|
  {
  }

  lemma ConsumerKeepsSlots(s: Sink)
    ensures ConsumerStep(s).slots == s.slots
  {
  }

  lemma {:induction false} CapacityIsFixed(s: Sink, schedule: seq<Thread>)
    ensures |Run(s, schedule).slots| == |s.slots|
  {
    if schedule != [] {
      CapacityIsFixed(s, schedule[..|schedule| - 1]);
      ProducerKeepsCapacity(Run(s, schedule[..|schedule| - 1]));
      ConsumerKeepsSlots(Run(s, schedule[..|schedule| - 1]));
    }
  }

  /** The producer is not about to write a slot holding a record that is not freed, in particular
      not the one the consumer is about to read. */
  ghost predicate Exclusive(s: Sink)
    requires |s.slots| > 0
  {
    s.producer.WriteSlot? ==>
      && s.producer.t < |s.slots|
      && (forall k: nat :: s.freed <= k < |s.pushed| ==> s.producer.t != Slot(k, |s.slots|))
      && (s.consumer.DrainCopy? && s.consumer.h != s.consumer.end ==> s.consumer.h != s.producer.t)
  }

  lemma InvIsExclusive(s: Sink)
    requires Inv(s)
    ensures Exclusive(s)
  {
    if s.producer.WriteSlot? {
      forall k: nat | s.freed <= k < |s.pushed| ensures s.producer.t != Slot(k, |s.slots|) {
        SlotsDiffer(k, |s.pushed|, |s.slots|);
      }
    }
  }

  lemma SlotsAreExclusive(slots: seq<Record>, program: seq<Command>, schedule: seq<Thread>)
    requires IsPow2(|slots|)
    ensures var s := Run(Opened(slots, program), schedule); |s.slots| > 0 && Exclusive(s)
  {
    OpenedInv(slots, program);
    RunKeepsInv(Opened(slots, program), schedule);
    InvIsExclusive(Run(Opened(slots, program), schedule));
  }

  /** A flush that can return, and a close that has returned, leave every record written before
      them handed to the file in order and flushed; the consumer leaves only an empty ring. */
  lemma HandshakeDelivers(slots: seq<Record>, program: seq<Command>, schedule: seq<Thread>)
    requires IsPow2(|slots|)
    ensures var s := Run(Opened(slots, program), schedule);
      && (s.producer.FlushWait? && ProducerStep(s).producer.Ready? ==>
            s.file == Accepted(ProducerStep(s).done) && s.flushed == |s.file|)
      && (!s.open ==> s.file == Accepted(s.done) && s.flushed == |s.file|)
      && (s.consumer.Exited? ==> s.head == s.tail && s.file == s.pushed)
  {
    OpenedInv(slots, program);
    RunKeepsInv(Opened(slots, program), schedule);
    var s := Run(Opened(slots, program), schedule);
    AcceptedSnoc(s.done, Flush);
    assert |s.file| == |s.pushed| ==> s.file == s.pushed;
  }

  // ---- The same in terms of the commands finished ----

  /** Whichever move finishes a flush or a close of an open sink: every record written before it is by then
      in the file, in order, and flushed; and a finished write has published its record. */
  lemma FinishedCommandsDeliver(slots: seq<Record>, program: seq<Command>, schedule: seq<Thread>, who: Thread)
    requires IsPow2(|slots|)
    ensures var s := Run(Opened(slots, program), schedule);
            var t := Move(s, who);
      s.open ==> forall c :: t.done == s.done + [c] ==> Delivers(s, t, c)
  {
    OpenedInv(slots, program);
    RunKeepsInv(Opened(slots, program), schedule);
    CapacityIsFixed(Opened(slots, program), schedule);
    var s := Run(Opened(slots, program), schedule);
    if s.open {
      if who.ProducerThread? {
        ProducerDelivers(s);
      } else {
        ConsumerKeepsProducer(s);
      }
    }
  }

  predicate SameProducer(s: Sink, t: Sink) {
    t.producer == s.producer && t.done == s.done && t.pushed == s.pushed && t.todo == s.todo
  }

  lemma ConsumerKeepsProducer(s: Sink)
    ensures SameProducer(s, ConsumerStep(s))
  {
    if Flushing(s.consumer) {
      FlushKeepsProducer(s);
    } else if s.consumer.StopCheck? || Stopping(s.consumer) {
      StopKeepsProducer(s);
    } else {
      DrainKeepsProducer(s);
    }
  }

  lemma FlushKeepsProducer(s: Sink)
    requires Flushing(s.consumer)
    ensures SameProducer(s, ConsumerStep(s))
  {
  }

  lemma StopKeepsProducer(s: Sink)
    requires s.consumer.StopCheck? || Stopping(s.consumer)
    ensures SameProducer(s, ConsumerStep(s))
  {
  }

  lemma DrainKeepsProducer(s: Sink)
    requires !Flushing(s.consumer) && !s.consumer.StopCheck? && !Stopping(s.consumer)
    ensures SameProducer(s, ConsumerStep(s))
  {
  }

  /** What the producer is in the middle of. */
  function Current(p: Producer): seq<Command> {
    match p
    case Ready => []
    case WriteLoad(rec) => [Write(rec)]
    case WriteCheck(rec, _, _) => [Write(rec)]
    case WriteSlot(rec, _, _) => [Write(rec)]
    case WritePublish(rec, _, _) => [Write(rec)]
    case FlushRequest => [Flush]
    case FlushWait => [Flush]
    case CloseStop => [Close]
    case CloseJoin => [Close]
  }

  /** While the sink is open the producer only finishes what it was in the middle of. */
  lemma FinishesCurrent(s: Sink)
    requires s.open
    ensures ProducerStep(s).done == s.done || ProducerStep(s).done == s.done + Current(s.producer)
  {
  }

  /** What must hold when an open sink's producer finishes command `c` in the move from `s` to `t`. */
  ghost predicate Delivers(s: Sink, t: Sink, c: Command) {
    match c
    case Flush => s.file == Accepted(s.done) && s.flushed == |s.file|
    case Close => t.file == Accepted(s.done) && t.flushed == |t.file| && !t.open
    case Write(rec) => t.pushed == s.pushed + [rec]
  }

  lemma ProducerDelivers(s: Sink)
    requires Inv(s) && s.open
    ensures var t := ProducerStep(s); forall c :: t.done == s.done + [c] ==> Delivers(s, t, c)
  {
    var t := ProducerStep(s);
    FinishesCurrent(s);
    if t.done != s.done {
      OneFinished(s.done, Current(s.producer), t.done);
      assert |s.file| == |s.pushed| ==> s.file == s.pushed;
      if s.producer.FlushWait? {
        FlushDelivers(s);
      } else if s.producer.CloseJoin? {
        CloseDelivers(s);
      }
    }
  }

  lemma FlushDelivers(s: Sink)
    requires Inv(s) && s.producer.FlushWait? && ProducerStep(s).done != s.done
    ensures Delivers(s, ProducerStep(s), Flush)
  {
  }

  lemma CloseDelivers(s: Sink)
    requires Inv(s) && s.producer.CloseJoin? && ProducerStep(s).done != s.done
    ensures Delivers(s, ProducerStep(s), Close)
  {
  }

  lemma OneFinished(done: seq<Command>, current: seq<Command>, done': seq<Command>)
    requires done' == done + current && done' != done
    ensures forall c :: done' == done + [c] ==> current == [c]
  {
    forall c | done' == done + [c] ensures current == [c] {
      assert done'[|done|..] == [c] && done'[|done|..] == current;
    }
  }

  /** Commands are finished in the order they were given. */
  ghost predicate InOrder(program: seq<Command>, s: Sink) {
    s.done + Current(s.producer) + s.todo == program
  }

  lemma MoveKeepsOrder(program: seq<Command>, s: Sink, who: Thread)
    requires InOrder(program, s)
    ensures InOrder(program, Move(s, who))
  {
    if who.ProducerThread? {
      ProducerKeepsOrder(program, s);
    } else {
      ConsumerKeepsProducer(s);
    }
  }

  lemma ProducerKeepsOrder(program: seq<Command>, s: Sink)
    requires InOrder(program, s)
    ensures InOrder(program, ProducerStep(s))
  {
    var t := ProducerStep(s);
    if s.producer.Ready? {
      if s.todo != [] {
        assert s.done + [] + s.todo == s.done + [s.todo[0]] + s.todo[1..];
        assert s.done + [s.todo[0]] + [] + s.todo[1..] == s.done + [s.todo[0]] + s.todo[1..];
      }
    } else {
      ProducerAdvances(s);
      assert s.done + Current(s.producer) + [] + s.todo == s.done + Current(s.producer) + s.todo;
    }
  }

  /** A producer in the middle of a command stays in it or finishes it. */
  lemma ProducerAdvances(s: Sink)
    requires !s.producer.Ready?
    ensures var t := ProducerStep(s);
      && t.todo == s.todo
      && ((t.done == s.done && Current(t.producer) == Current(s.producer))
          || (t.done == s.done + Current(s.producer) && t.producer.Ready?))
  {
    if s.producer.FlushRequest? || s.producer.FlushWait? || s.producer.CloseStop? || s.producer.CloseJoin? {
      CallAdvances(s);
    }
  }

  lemma CallAdvances(s: Sink)
    requires s.producer.FlushRequest? || s.producer.FlushWait? || s.producer.CloseStop? || s.producer.CloseJoin?
    ensures var t := ProducerStep(s);
      && t.todo == s.todo
      && ((t.done == s.done && Current(t.producer) == Current(s.producer))
          || (t.done == s.done + Current(s.producer) && t.producer.Ready?))
  {
  }

  lemma {:induction false} CommandsStayInOrder(slots: seq<Record>, program: seq<Command>, schedule: seq<Thread>)
    ensures InOrder(program, Run(Opened(slots, program), schedule))
  {
    if schedule == [] {
      assert [] + [] + program == program;
    } else {
      CommandsStayInOrder(slots, program, schedule[..|schedule| - 1]);
      MoveKeepsOrder(program, Run(Opened(slots, program), schedule[..|schedule| - 1]), schedule[|schedule| - 1]);
    }
  }

  /** The finished commands are a prefix of the program. */
  lemma FinishedInOrder(slots: seq<Record>, program: seq<Command>, schedule: seq<Thread>)
    ensures var done := Run(Opened(slots, program), schedule).done;
      |done| <= |program| && done == program[..|done|]
  {
    CommandsStayInOrder(slots, program, schedule);
  }
}
