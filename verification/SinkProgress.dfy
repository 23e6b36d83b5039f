/** Progress of the sink: on every schedule that lets both threads move often enough, everything the
    producer was asked to do gets done. A ring of one slot is the exception. */
module SinkProgress {
  import opened MarketTypes
  import opened RingIndex
  import opened CsvSink

  lemma {:induction false} RunConcat(s: Sink, a: seq<Thread>, b: seq<Thread>)
    ensures Run(s, a + b) == Run(Run(s, a), b)
    decreases |b|
  {
    if b == [] {
      assert a + b == a;
    } else {
      var front, x := b[..|b| - 1], b[|b| - 1];
      RunConcat(s, a, front);
      SplitLast(a, b);
      assert (a + b)[..|a + b| - 1] == a + front;
    }
  }

  /** How often a thread moves. */
  function Moves(who: Thread, schedule: seq<Thread>): nat {
    if schedule == [] then 0
    else Moves(who, schedule[..|schedule| - 1]) + if schedule[|schedule| - 1] == who then 1 else 0
  }

  ghost predicate Sound(s: Sink) {
    Inv(s) && IsPow2(|s.slots|) && |s.slots| > 1
  }

  lemma MoveIsSound(s: Sink, who: Thread)
    requires Sound(s)
    ensures Sound(Move(s, who)) && |Move(s, who).slots| == |s.slots|
  {
    ProducerKeepsInv(s);
    ConsumerKeepsInv(s);
    ProducerKeepsCapacity(s);
    ConsumerKeepsSlots(s);
  }

  lemma {:induction false} RunIsSound(s: Sink, schedule: seq<Thread>)
    requires Sound(s)
    ensures Sound(Run(s, schedule)) && |Run(s, schedule).slots| == |s.slots|
  {
    if schedule != [] {
      RunIsSound(s, schedule[..|schedule| - 1]);
      MoveIsSound(Run(s, schedule[..|schedule| - 1]), schedule[|schedule| - 1]);
    }
  }

  lemma MoveFinishesMore(s: Sink, who: Thread)
    ensures |s.done| <= |Move(s, who).done|
  {
    if who.ProducerThread? {
      ProducerFinishesMore(s);
    } else {
      ConsumerKeepsProducer(s);
    }
  }

  lemma ProducerFinishesMore(s: Sink)
    ensures |s.done| <= |ProducerStep(s).done|
  {
  }

  lemma {:induction false} RunFinishesMore(s: Sink, schedule: seq<Thread>)
    ensures |s.done| <= |Run(s, schedule).done|
  {
    if schedule != [] {
      RunFinishesMore(s, schedule[..|schedule| - 1]);
      MoveFinishesMore(Run(s, schedule[..|schedule| - 1]), schedule[|schedule| - 1]);
    }
  }

  // ---- The consumer's loop ----

  predicate Home(c: Consumer) {
    c.DrainHead? || c.Exited?
  }

  /** Steps left, at most, before the consumer is back at the top of its loop or has left it. */
  function Rank(s: Sink): nat {
    match s.consumer
    case DrainHead => 0
    case DrainTail(_) => 12 + if |s.pushed| >= |s.file| then |s.pushed| - |s.file| else 0
    case DrainCopy(_, _, _) => 11 + if s.seen >= |s.file| then s.seen - |s.file| else 0
    case DrainFree(_, _) => 10
    case FlushCheck(_) => 9
    case FlushHead(_) => 8
    case FlushTail(_, _) => 7
    case FlushFile(_) => 6
    case FlushAck(_) => 5
    case IdleCheck(_) => 4
    case StopCheck => 3
    case StopHead => 2
    case StopTail(_) => 1
    case Exited => 0
  }

  lemma RankFalls(s: Sink)
    requires Inv(s) && !Home(s.consumer)
    ensures Rank(ConsumerStep(s)) < Rank(s)
  {
    if s.consumer.DrainCopy? {
      CopyRankFalls(s);
    } else {
      OtherRankFalls(s);
    }
  }

  lemma OtherRankFalls(s: Sink)
    requires !Home(s.consumer) && !s.consumer.DrainCopy?
    ensures Rank(ConsumerStep(s)) < Rank(s)
  {
    if Flushing(s.consumer) {
      FlushRankFalls(s);
    } else if s.consumer.StopCheck? || Stopping(s.consumer) {
      StopRankFalls(s);
    } else {
      DrainRankFalls(s);
    }
  }

  lemma StopRankFalls(s: Sink)
    requires !Home(s.consumer) && (s.consumer.StopCheck? || Stopping(s.consumer))
    ensures Rank(ConsumerStep(s)) < Rank(s)
  {
  }

  lemma DrainRankFalls(s: Sink)
    requires s.consumer.DrainTail? || s.consumer.DrainFree? || s.consumer.FlushCheck? || s.consumer.IdleCheck?
    ensures Rank(ConsumerStep(s)) < Rank(s)
  {
  }

  lemma FlushRankFalls(s: Sink)
    requires Flushing(s.consumer)
    ensures Rank(ConsumerStep(s)) < Rank(s)
  {
  }

  lemma CopyRankFalls(s: Sink)
    requires Inv(s) && s.consumer.DrainCopy?
    ensures Rank(ConsumerStep(s)) < Rank(s)
  {
    EmptyMeansDrained(|s.file|, s.seen, |s.slots|);
  }

  /** On the way round after the tail was loaded with the producer at rest: everything published
      gets freed and a pending flush gets acknowledged. */
  ghost predicate OnPass(s: Sink) {
    match s.consumer
    case DrainTail(_) => true
    case DrainCopy(_, _, _) => s.seen == |s.pushed|
    case DrainFree(_, _) => |s.file| == |s.pushed|
    case FlushCheck(_) => s.freed == |s.pushed|
    case FlushHead(_) => s.freed == |s.pushed|
    case FlushTail(_, _) => s.freed == |s.pushed|
    case FlushFile(_) => true
    case FlushAck(_) => true
    case _ => s.freed == |s.pushed| && !s.flushReq
  }

  lemma PassGoesOn(s: Sink)
    requires Inv(s) && OnPass(s) && !Home(s.consumer)
    ensures OnPass(ConsumerStep(s))
  {
    if s.consumer.DrainCopy? {
      EmptyMeansDrained(|s.file|, s.seen, |s.slots|);
    }
  }

  /** The consumer has caught up with the producer and owes it no answer. */
  ghost predicate Clear(s: Sink) {
    s.freed == |s.pushed| && !s.flushReq
  }

  /** Consumer moves, at most, until it has caught up with a producer that publishes nothing: the rest
      of a pass under way, or that and a whole pass. */
  ghost function Turns(s: Sink): nat {
    if OnPass(s) then Rank(s) else Rank(s) + 13 + |s.slots|
  }

  lemma TurnsFall(s: Sink)
    requires Inv(s) && !Clear(s) && !s.consumer.Exited?
    ensures Turns(ConsumerStep(s)) < Turns(s)
  {
    ConsumerKeepsSlots(s);
    if s.consumer.DrainHead? {
      assert OnPass(ConsumerStep(s));
    } else {
      RankFalls(s);
      if OnPass(s) {
        PassGoesOn(s);
      }
    }
  }

  lemma ClearStays(s: Sink)
    requires Inv(s) && Clear(s)
    ensures Clear(ConsumerStep(s))
  {
  }

  /** The pass after a stop was requested and the ring is empty: it copies nothing. */
  ghost predicate OnLastPass(s: Sink) {
    && s.stop && s.freed == |s.pushed| && !s.flushReq
    && match s.consumer
       case DrainHead => true
       case DrainTail(_) => true
       case DrainCopy(_, _, n) => n == 0 && s.seen == |s.pushed|
       case FlushCheck(n) => n == 0
       case IdleCheck(n) => n == 0
       case StopCheck => true
       case StopHead => true
       case StopTail(_) => true
       case Exited => true
       case _ => false
  }

  function LastRank(s: Sink): nat {
    if s.consumer.DrainHead? then 13 + (if |s.pushed| >= |s.file| then |s.pushed| - |s.file| else 0) else Rank(s)
  }

  /** Consumer moves, at most, until it leaves after a stop, once it has caught up. */
  ghost function LastTurns(s: Sink): nat {
    if OnLastPass(s) then LastRank(s) else Rank(s) + 14
  }

  lemma LastPassGoesOn(s: Sink)
    requires Inv(s) && OnLastPass(s) && !s.consumer.Exited?
    ensures OnLastPass(ConsumerStep(s)) && LastRank(ConsumerStep(s)) < LastRank(s)
  {
    if !s.consumer.DrainHead? {
      RankFalls(s);
    }
  }

  lemma LastTurnsFall(s: Sink)
    requires Inv(s) && s.stop && Clear(s) && !s.consumer.Exited?
    ensures LastTurns(ConsumerStep(s)) < LastTurns(s)
  {
    if OnLastPass(s) {
      LastPassGoesOn(s);
    } else {
      RankFalls(s);
    }
  }

  lemma FewLastTurns(s: Sink)
    requires Inv(s) && Clear(s)
    ensures LastTurns(s) <= 26
  {
  }

  // ---- What a waiting producer waits for ----

  predicate Writing(p: Producer) {
    p.WriteLoad? || p.WriteCheck? || p.WriteSlot? || p.WritePublish?
  }

  predicate Waiting(p: Producer) {
    Writing(p) || p.FlushWait? || p.CloseJoin?
  }

  /** Consumer moves, at most, until the producer can go on. */
  ghost function Need(s: Sink): nat {
    if s.producer.CloseJoin? then
      if s.consumer.Exited? then 0 else if Clear(s) then LastTurns(s) + 1 else Turns(s) + 28
    else if Clear(s) then 0 else Turns(s) + 1
  }

  /** A number of consumer moves that is always enough; it depends on the capacity alone. */
  function Enough(cap: nat): nat {
    53 + 2 * cap
  }

  lemma NeedIsBounded(s: Sink)
    requires Inv(s)
    ensures Need(s) <= Enough(|s.slots|)
  {
    if Clear(s) {
      FewLastTurns(s);
    } else {
      RankIsBounded(s);
    }
  }

  lemma RankIsBounded(s: Sink)
    requires Inv(s)
    ensures Rank(s) <= 11 + |s.slots|
  {
  }

  lemma NotExited(s: Sink)
    requires Inv(s) && Waiting(s.producer)
    ensures s.consumer.Exited? ==> s.producer.CloseJoin?
    ensures s.producer.CloseJoin? ==> s.stop
  {
  }

  lemma NeedFalls(s: Sink)
    requires Sound(s) && Waiting(s.producer) && Need(s) > 0
    ensures Need(ConsumerStep(s)) < Need(s)
  {
    NotExited(s);
    ConsumerKeepsProducer(s);
    if Clear(s) {
      ClearStays(s);
      LastTurnsFall(s);
    } else {
      TurnsFall(s);
      if Clear(ConsumerStep(s)) {
        NowClear(s);
      }
    }
  }

  lemma NowClear(s: Sink)
    requires Inv(s) && IsPow2(|s.slots|) && Clear(ConsumerStep(s))
    ensures LastTurns(ConsumerStep(s)) <= 26
  {
    ConsumerKeepsInv(s);
    FewLastTurns(ConsumerStep(s));
  }

  lemma NoNeedStays(s: Sink)
    requires Inv(s) && Waiting(s.producer) && Need(s) == 0
    ensures Need(ConsumerStep(s)) == 0
  {
    ConsumerKeepsProducer(s);
    NotExited(s);
    if Clear(s) {
      ClearStays(s);
    }
  }

  /** A producer that has not finished its command changes nothing the consumer goes by. */
  lemma ProducerKeepsNeed(s: Sink)
    requires Inv(s) && Waiting(s.producer) && |ProducerStep(s).done| == |s.done|
    ensures Waiting(ProducerStep(s).producer) && Need(ProducerStep(s)) == Need(s)
  {
    if Writing(s.producer) {
      WriterKeepsNeed(s);
    } else {
      assert ProducerStep(s) == s;
    }
  }

  lemma WriterKeepsNeed(s: Sink)
    requires Inv(s) && Writing(s.producer) && |ProducerStep(s).done| == |s.done|
    ensures Writing(ProducerStep(s).producer) && Need(ProducerStep(s)) == Need(s)
  {
    var t := ProducerStep(s);
    ProducerKeepsCapacity(s);
    assert t.consumer == s.consumer && t.pushed == s.pushed && t.file == s.file && t.freed == s.freed;
    assert t.flushReq == s.flushReq && t.seen == s.seen;
  }

  /** Over any schedule that does not finish the command, the need falls with every consumer move. */
  ghost predicate NeedFell(s: Sink, t: Sink, n: nat) {
    Waiting(t.producer) && (Need(t) == 0 || Need(t) + n <= Need(s))
  }

  lemma {:induction false} Serve(s: Sink, schedule: seq<Thread>)
    requires Sound(s) && Waiting(s.producer)
    requires |Run(s, schedule).done| == |s.done|
    ensures NeedFell(s, Run(s, schedule), Moves(ConsumerThread, schedule))
  {
    if schedule != [] {
      var front, who := schedule[..|schedule| - 1], schedule[|schedule| - 1];
      var t := Run(s, front);
      RunFinishesMore(s, front);
      MoveFinishesMore(t, who);
      Serve(s, front);
      RunIsSound(s, front);
      ServeStep(s, t, who, Moves(ConsumerThread, front));
    }
  }

  lemma ServeStep(s: Sink, t: Sink, who: Thread, n: nat)
    requires Sound(t) && NeedFell(s, t, n) && |Move(t, who).done| == |t.done|
    ensures NeedFell(s, Move(t, who), n + if who.ConsumerThread? then 1 else 0)
  {
    if who.ProducerThread? {
      ProducerKeepsNeed(t);
    } else if Need(t) == 0 {
      NoNeedStays(t);
      ConsumerKeepsProducer(t);
    } else {
      NeedFalls(t);
      ConsumerKeepsProducer(t);
    }
  }

  // ---- A producer that can go on ----

  /** The next producer moves finish the command. */
  ghost predicate Enabled(s: Sink) {
    match s.producer
    case FlushWait => !s.flushReq
    case CloseJoin => s.consumer.Exited?
    case _ => Writing(s.producer) && |s.pushed| + 1 < s.freed + |s.slots|
  }

  lemma NoNeedEnables(s: Sink)
    requires Sound(s) && Waiting(s.producer) && Need(s) == 0
    ensures Enabled(s)
  {
  }

  /** Producer moves until an enabled command is finished. */
  function Left(p: Producer): nat {
    match p
    case WriteLoad(_) => 4
    case WriteCheck(_, _, _) => 3
    case WriteSlot(_, _, _) => 2
    case _ => 1
  }

  lemma EnabledStays(s: Sink)
    requires Inv(s) && Enabled(s)
    ensures Enabled(ConsumerStep(s)) && ConsumerStep(s).producer == s.producer
  {
    ConsumerKeepsProducer(s);
    ConsumerKeepsSlots(s);
    ConsumerOnlyFrees(s);
  }

  lemma ConsumerOnlyFrees(s: Sink)
    ensures ConsumerStep(s).freed >= s.freed
    ensures !s.flushReq ==> !ConsumerStep(s).flushReq
  {
    if Flushing(s.consumer) {
      FlushOnlyAnswers(s);
    }
  }

  lemma FlushOnlyAnswers(s: Sink)
    requires Flushing(s.consumer)
    ensures ConsumerStep(s).freed == s.freed && (!s.flushReq ==> !ConsumerStep(s).flushReq)
  {
  }

  lemma EnabledGoesOn(s: Sink)
    requires Inv(s) && Enabled(s) && |ProducerStep(s).done| == |s.done|
    ensures Enabled(ProducerStep(s)) && Left(ProducerStep(s).producer) < Left(s.producer)
  {
    SlotsDiffer(s.freed, |s.pushed| + 1, |s.slots|);
  }

  lemma {:induction false} GoOn(s: Sink, schedule: seq<Thread>)
    requires Sound(s) && Enabled(s) && |Run(s, schedule).done| == |s.done|
    ensures var t := Run(s, schedule);
      Enabled(t) && Left(t.producer) + Moves(ProducerThread, schedule) <= Left(s.producer)
  {
    if schedule != [] {
      var front, who := schedule[..|schedule| - 1], schedule[|schedule| - 1];
      var t := Run(s, front);
      RunFinishesMore(s, front);
      MoveFinishesMore(t, who);
      GoOn(s, front);
      RunIsSound(s, front);
      if who.ProducerThread? {
        EnabledGoesOn(t);
      } else {
        EnabledStays(t);
      }
    }
  }

  // ---- A producer between commands ----

  predicate Finished(s: Sink) {
    s.producer.Ready? && s.todo == []
  }

  /** Producer moves until it waits for the consumer. */
  function Launch(p: Producer): nat {
    if p.Ready? then 2 else if p.FlushRequest? || p.CloseStop? then 1 else 0
  }

  lemma FinishedStays(s: Sink, who: Thread)
    requires Finished(s)
    ensures Finished(Move(s, who))
  {
    ConsumerKeepsProducer(s);
  }

  lemma {:induction false} StillFinished(s: Sink, schedule: seq<Thread>)
    requires Finished(s)
    ensures Finished(Run(s, schedule))
  {
    if schedule != [] {
      StillFinished(s, schedule[..|schedule| - 1]);
      FinishedStays(Run(s, schedule[..|schedule| - 1]), schedule[|schedule| - 1]);
    }
  }

  lemma LaunchFalls(s: Sink)
    requires |ProducerStep(s).done| == |s.done| && !Finished(s)
    ensures !Finished(ProducerStep(s))
    ensures Launch(ProducerStep(s).producer) < Launch(s.producer) ||
      Launch(s.producer) == 0 == Launch(ProducerStep(s).producer)
  {
    if s.producer.Ready? {
      BeginLaunches(s);
    } else if Writing(s.producer) {
      WriterGoesOn(s);
    }
  }

  lemma BeginLaunches(s: Sink)
    requires s.producer.Ready? && s.todo != [] && |ProducerStep(s).done| == |s.done|
    ensures !Finished(ProducerStep(s)) && Launch(ProducerStep(s).producer) < 2
  {
  }

  lemma WriterGoesOn(s: Sink)
    requires Writing(s.producer) && |ProducerStep(s).done| == |s.done|
    ensures Writing(ProducerStep(s).producer)
  {
  }

  lemma {:induction false} GetGoing(s: Sink, schedule: seq<Thread>)
    requires !Finished(s) && |Run(s, schedule).done| == |s.done|
    ensures var t, n := Run(s, schedule), Moves(ProducerThread, schedule);
      !Finished(t) && (Launch(t.producer) == 0 || Launch(t.producer) + n <= Launch(s.producer))
  {
    if schedule != [] {
      var front, who := schedule[..|schedule| - 1], schedule[|schedule| - 1];
      var t := Run(s, front);
      RunFinishesMore(s, front);
      MoveFinishesMore(t, who);
      GetGoing(s, front);
      if who.ProducerThread? {
        LaunchFalls(t);
      } else {
        ConsumerKeepsProducer(t);
      }
    }
  }

  // ---- Rounds ----

  /** A stretch of a schedule in three parts: the producer moves at least twice, then the consumer
      moves often enough, then the producer moves at least four times; in each part the other thread
      may move as often as it likes. Every schedule in which both threads keep moving is made of
      such rounds. */
  datatype Round = Round(first: seq<Thread>, second: seq<Thread>, third: seq<Thread>)

  predicate Fair(r: Round, cap: nat) {
    && Moves(ProducerThread, r.first) >= 2
    && Moves(ConsumerThread, r.second) >= Enough(cap)
    && Moves(ProducerThread, r.third) >= 4
  }

  function Stretch(r: Round): seq<Thread> {
    r.first + r.second + r.third
  }

  /** A fair round finishes a command, unless all are finished. */
  lemma RoundFinishesOne(s: Sink, r: Round)
    requires Sound(s) && Fair(r, |s.slots|)
    ensures var t := Run(s, Stretch(r)); |t.done| > |s.done| || Finished(t)
  {
    var t1 := Run(s, r.first);
    var t2 := Run(t1, r.second);
    var t3 := Run(t2, r.third);
    RunConcat(s, r.first, r.second);
    RunConcat(s, r.first + r.second, r.third);
    RunFinishesMore(s, r.first);
    RunFinishesMore(t1, r.second);
    RunFinishesMore(t2, r.third);
    if |t3.done| == |s.done| {
      RoundIsDone(s, r, t1, t2, t3);
    }
  }

  lemma RoundIsDone(s: Sink, r: Round, t1: Sink, t2: Sink, t3: Sink)
    requires Sound(s) && Fair(r, |s.slots|)
    requires t1 == Run(s, r.first) && t2 == Run(t1, r.second) && t3 == Run(t2, r.third)
    requires |s.done| == |t1.done| == |t2.done| == |t3.done|
    ensures Finished(t3)
  {
    if Finished(s) {
      StillFinished(s, r.first);
      StillFinished(t1, r.second);
      StillFinished(t2, r.third);
    } else {
      Started(s, r.first);
      RunIsSound(s, r.first);
      WaitIsOver(t1, r.second);
      RunIsSound(t1, r.second);
      Completes(t2, r.third);
    }
  }

  lemma Started(s: Sink, schedule: seq<Thread>)
    requires !Finished(s) && Moves(ProducerThread, schedule) >= 2 && |Run(s, schedule).done| == |s.done|
    ensures Waiting(Run(s, schedule).producer)
  {
    GetGoing(s, schedule);
  }

  lemma Completes(s: Sink, schedule: seq<Thread>)
    requires Sound(s) && Enabled(s) && Moves(ProducerThread, schedule) >= 4
    ensures |Run(s, schedule).done| > |s.done|
  {
    RunFinishesMore(s, schedule);
    if |Run(s, schedule).done| == |s.done| {
      GoOn(s, schedule);
    }
  }

  lemma WaitIsOver(s: Sink, schedule: seq<Thread>)
    requires Sound(s) && Waiting(s.producer) && Moves(ConsumerThread, schedule) >= Enough(|s.slots|)
    requires |Run(s, schedule).done| == |s.done|
    ensures Enabled(Run(s, schedule))
  {
    Serve(s, schedule);
    NeedIsBounded(s);
    RunIsSound(s, schedule);
    NoNeedEnables(Run(s, schedule));
  }

  function Joined(rounds: seq<Round>): seq<Thread> {
    if rounds == [] then [] else Joined(rounds[..|rounds| - 1]) + Stretch(rounds[|rounds| - 1])
  }

  lemma {:induction false} RoundsFinishMany(s: Sink, rounds: seq<Round>)
    requires Sound(s) && forall i :: 0 <= i < |rounds| ==> Fair(rounds[i], |s.slots|)
    ensures var t := Run(s, Joined(rounds)); |t.done| >= |s.done| + |rounds| || Finished(t)
  {
    if rounds != [] {
      var front, r := rounds[..|rounds| - 1], rounds[|rounds| - 1];
      var t := Run(s, Joined(front));
      RoundsFinishMany(s, front);
      RunIsSound(s, Joined(front));
      RunConcat(s, Joined(front), Stretch(r));
      RoundFinishesOne(t, r);
      if Finished(t) {
        StillFinished(t, Stretch(r));
      }
    }
  }

  // ---- Counting commands ----

  function Commands(s: Sink): nat {
    |s.done| + |s.todo| + if s.producer.Ready? then 0 else 1
  }

  lemma MoveKeepsCommands(s: Sink, who: Thread)
    ensures Commands(Move(s, who)) == Commands(s)
  {
    if who.ProducerThread? {
      ProducerKeepsCommands(s);
    } else {
      ConsumerKeepsProducer(s);
    }
  }

  lemma ProducerKeepsCommands(s: Sink)
    ensures Commands(ProducerStep(s)) == Commands(s)
  {
  }

  lemma {:induction false} RunKeepsCommands(s: Sink, schedule: seq<Thread>)
    ensures Commands(Run(s, schedule)) == Commands(s)
  {
    if schedule != [] {
      RunKeepsCommands(s, schedule[..|schedule| - 1]);
      MoveKeepsCommands(Run(s, schedule[..|schedule| - 1]), schedule[|schedule| - 1]);
    }
  }

  /** On every schedule, however it started, as many fair rounds as there are commands finish them
      all; and once a close is among them, all accepted records are in the file, flushed. */
  lemma FairSchedulesFinish(slots: seq<Record>, program: seq<Command>, schedule: seq<Thread>, rounds: seq<Round>)
    requires IsPow2(|slots|) && |slots| > 1
    requires |rounds| >= |program| && forall i :: 0 <= i < |rounds| ==> Fair(rounds[i], |slots|)
    ensures var t := Run(Opened(slots, program), schedule + Joined(rounds));
      && Finished(t) && |t.done| == |program|
      && (!t.open ==> t.file == Accepted(t.done) && t.flushed == |t.file|)
  {
    var s0 := Opened(slots, program);
    OpenedInv(slots, program);
    RunIsSound(s0, schedule);
    var s := Run(s0, schedule);
    RunConcat(s0, schedule, Joined(rounds));
    RoundsFinishMany(s, rounds);
    RunKeepsCommands(s0, schedule + Joined(rounds));
    HandshakeDelivers(slots, program, schedule + Joined(rounds));
  }

  // ---- Fair rounds exist ----

  function Times(who: Thread, n: nat): seq<Thread> {
    if n == 0 then [] else Times(who, n - 1) + [who]
  }

  lemma {:induction false} TimesMoves(who: Thread, n: nat)
    ensures Moves(who, Times(who, n)) == n
  {
    if n > 0 {
      TimesMoves(who, n - 1);
      assert Times(who, n)[..|Times(who, n)| - 1] == Times(who, n - 1);
    }
  }

  /** No interleaving can wedge a sink with at least two slots: some continuation finishes the whole
      program. */
  lemma SinkCanAlwaysFinish(slots: seq<Record>, program: seq<Command>, schedule: seq<Thread>)
    requires IsPow2(|slots|) && |slots| > 1
    ensures exists more: seq<Thread> :: var t := Run(Opened(slots, program), schedule + more);
      Finished(t) && (!t.open ==> t.file == Accepted(t.done) && t.flushed == |t.file|)
  {
    var r := Round(Times(ProducerThread, 2), Times(ConsumerThread, Enough(|slots|)), Times(ProducerThread, 4));
    TimesMoves(ProducerThread, 2);
    TimesMoves(ConsumerThread, Enough(|slots|));
    TimesMoves(ProducerThread, 4);
    var rounds := seq(|program|, _ => r);
    FairSchedulesFinish(slots, program, schedule, rounds);
  }

  /** With a single slot no write ever finishes: the ring looks full from the start. */
  lemma OneSlotAcceptsNothing(slots: seq<Record>, program: seq<Command>, schedule: seq<Thread>)
    requires |slots| == 1
    ensures Run(Opened(slots, program), schedule).pushed == []
    ensures Run(Opened(slots, program), schedule).file == []
  {
    assert Pow2(0) == 1;
    NothingPushed(slots, program, schedule);
    OpenedInv(slots, program);
    RunKeepsInv(Opened(slots, program), schedule);
  }

  lemma {:induction false} NothingPushed(slots: seq<Record>, program: seq<Command>, schedule: seq<Thread>)
    requires |slots| == 1 && IsPow2(1)
    ensures Run(Opened(slots, program), schedule).pushed == []
  {
    if schedule != [] {
      var front := schedule[..|schedule| - 1];
      NothingPushed(slots, program, front);
      OpenedInv(slots, program);
      RunKeepsInv(Opened(slots, program), front);
      CapacityIsFixed(Opened(slots, program), front);
      StillNothing(Run(Opened(slots, program), front), schedule[|schedule| - 1]);
    }
  }

  lemma StillNothing(s: Sink, who: Thread)
    requires Inv(s) && |s.slots| == 1 && s.pushed == []
    ensures Move(s, who).pushed == []
  {
    if who.ProducerThread? {
      WritesNothing(s);
    } else {
      ConsumerKeepsProducer(s);
    }
  }

  lemma WritesNothing(s: Sink)
    requires Inv(s) && |s.slots| == 1 && s.pushed == []
    ensures ProducerStep(s).pushed == []
  {
    assert !s.producer.WritePublish?;
  }
}
