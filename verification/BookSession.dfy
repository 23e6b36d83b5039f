/** The resync protocol: diffs are buffered until a snapshot seeds the book, stale ones dropped,
    the rest bridged, and a gap keeps the unprocessed suffix for the next snapshot. */
module Sessions {
  import opened MarketTypes
  import opened Books

  const MAX_BUFFER: nat := 65536

  datatype Outcome = Buffered | Applied | ResyncNeeded | Dropped

  datatype Session = Session(venue: Venue, book: Book, pending: bool, overflows: nat, buffer: seq<DepthEvent>)

  /** What is reported for one applied diff: the event and the book right after it. */
  datatype AppliedDiff = AppliedDiff(ev: DepthEvent, book: Book)

  datatype Step = Step(session: Session, applied: seq<AppliedDiff>)

  function NewSession(venue: Venue): Session {
    Session(venue, EmptyBook(), true, 0, [])
  }

  /** Fail closed: a session that is not waiting for a snapshot has a seeded book and no backlog. */
  ghost predicate SessionInv(s: Session) {
    && BookInv(s.book)
    && |s.buffer| <= MAX_BUFFER
    && (!s.pending ==> s.book.initialized && s.buffer == [])
  }

  // ---- Operations as values ----

  function OutcomeOf(r: ApplyResult): Outcome {
    match r
    case Applied => Outcome.Applied
    case IgnoredOld => Dropped
    case Gap => ResyncNeeded
    case NeedSnapshot => Buffered
  }

  ghost function ApplyOne(s: Session, ev: DepthEvent): Session {
    s.(book := ApplyDiff(s.venue, s.book, ev),
       pending := s.pending || Classify(s.venue, s.book, ev) in {Gap, NeedSnapshot})
  }

  function BufferEvent(s: Session, ev: DepthEvent): Session {
    if |s.buffer| >= MAX_BUFFER
    then s.(overflows := s.overflows + 1, buffer := [ev], pending := true, book := EmptyBook())
    else s.(buffer := s.buffer + [ev])
  }

  predicate MustBuffer(s: Session) {
    s.pending || !s.book.initialized
  }

  function DiffOutcome(s: Session, ev: DepthEvent): Outcome {
    if MustBuffer(s) then Buffered else OutcomeOf(Classify(s.venue, s.book, ev))
  }

  ghost function OnDiff(s: Session, ev: DepthEvent): Step {
    if MustBuffer(s) then Step(BufferEvent(s, ev), [])
    else
      var t := ApplyOne(s, ev);
      match DiffOutcome(s, ev)
      case Applied => Step(t, [AppliedDiff(ev, t.book)])
      case ResyncNeeded => Step(BufferEvent(t, ev), [])
      case _ => Step(t, [])
  }

  /** Consumes the buffer from the front until it is empty or a gap shows. */
  ghost function Drain(s: Session, snapshotId: Uint64): Step
    decreases |s.buffer|
  {
    if s.buffer == [] then Step(s, [])
    else
      var ev, rest := s.buffer[0], s.buffer[1..];
      if ev.finalId <= snapshotId then Drain(s.(buffer := rest), snapshotId)
      else
        var t := ApplyOne(s, ev);
        match Classify(s.venue, s.book, ev)
        case Gap => Step(t, [])
        case Applied =>
          var r := Drain(t.(buffer := rest), snapshotId);
          Step(r.session, [AppliedDiff(ev, t.book)] + r.applied)
        case _ => Drain(t.(buffer := rest), snapshotId)
  }

  ghost function Reseed(s: Session, bids: seq<Level>, asks: seq<Level>, id: Uint64): Session {
    s.(book := SetSnapshot(bids, asks, id), pending := false)
  }

  ghost function OnSnapshot(s: Session, bids: seq<Level>, asks: seq<Level>, id: Uint64): Step {
    Drain(Reseed(s, bids, asks, id), id)
  }

  function RequestResync(s: Session): Session {
    s.(pending := true, book := EmptyBook(), buffer := [])
  }

  // ---- Runs ----

  datatype Op = Diff(ev: DepthEvent) | Snapshot(bids: seq<Level>, asks: seq<Level>, id: Uint64) | Reconnect

  ghost function Perform(s: Session, op: Op): Step {
    match op
    case Diff(ev) => OnDiff(s, ev)
    case Snapshot(bids, asks, id) => OnSnapshot(s, bids, asks, id)
    case Reconnect => Step(RequestResync(s), [])
  }

  ghost function Run(s: Session, ops: seq<Op>): Step {
    if ops == [] then Step(s, [])
    else
      var r := Run(s, ops[..|ops| - 1]);
      var t := Perform(r.session, ops[|ops| - 1]);
      Step(t.session, r.applied + t.applied)
  }

  lemma RunSnoc(s: Session, ops: seq<Op>, op: Op)
    ensures var r := Run(s, ops);
            var t := Perform(r.session, op);
      Run(s, ops + [op]) == Step(t.session, r.applied + t.applied)
  {
    assert (ops + [op])[..|ops|] == ops;
  }

  ghost predicate Splits(s: Session, ops: seq<Op>, more: seq<Op>) {
    var r, t := Run(s, ops), Run(Run(s, ops).session, more);
    Run(s, ops + more) == Step(t.session, r.applied + t.applied)
  }

  lemma SplitsStep(s: Session, ops: seq<Op>, front: seq<Op>, op: Op)
    requires Splits(s, ops, front)
    ensures Splits(s, ops, front + [op])
  {
    var r := Run(s, ops);
    var f := Run(r.session, front);
    var t := Perform(f.session, op);
    RunSnoc(s, ops + front, op);
    RunSnoc(r.session, front, op);
    Assoc(ops, front, [op]);
    Assoc(r.applied, f.applied, t.applied);
  }

  lemma {:induction false} RunSplits(s: Session, ops: seq<Op>, more: seq<Op>)
    ensures Splits(s, ops, more)
  {
    if more == [] {
      assert ops + more == ops;
      assert Run(s, ops).applied + [] == Run(s, ops).applied;
    } else {
      RunSplits(s, ops, more[..|more| - 1]);
      SplitLast(ops, more);
      SplitsStep(s, ops, more[..|more| - 1], more[|more| - 1]);
    }
  }

  // ---- The session invariant over all runs ----

  lemma EmptyBookInv()
    ensures BookInv(EmptyBook())
  {
  }

  /** A reported diff comes with a seeded book that ends at the diff's final id. */
  ghost predicate FaithfulReport(a: AppliedDiff) {
    BookInv(a.book) && a.book.initialized && a.book.started && a.book.lastId == a.ev.finalId
  }

  /** A drain ends pending exactly when it leaves a backlog, a suffix of what it found. */
  lemma {:induction false} DrainLeavesSuffix(s: Session, id: Uint64)
    requires s.book.initialized && !s.pending
    ensures var t := Drain(s, id).session;
      && t.book.initialized
      && (t.pending <==> t.buffer != [])
      && |t.buffer| <= |s.buffer| && t.buffer == s.buffer[|s.buffer| - |t.buffer|..]
      && t.venue == s.venue && t.overflows == s.overflows
    decreases |s.buffer|
  {
    if s.buffer != [] {
      var ev, rest := s.buffer[0], s.buffer[1..];
      var t := if ev.finalId <= id then s else ApplyOne(s, ev);
      if ev.finalId <= id || Classify(s.venue, s.book, ev) != Gap {
        DrainLeavesSuffix(t.(buffer := rest), id);
        assert forall n :: 0 <= n <= |rest| ==> rest[n..] == s.buffer[n + 1..];
      }
    }
  }

  lemma {:induction false} DrainKeepsBookInv(s: Session, id: Uint64)
    requires BookInv(s.book)
    ensures BookInv(Drain(s, id).session.book)
    ensures forall i :: 0 <= i < |Drain(s, id).applied| ==> FaithfulReport(Drain(s, id).applied[i])
    decreases |s.buffer|
  {
    if s.buffer != [] {
      var ev, rest := s.buffer[0], s.buffer[1..];
      DiffKeepsInv(s.venue, s.book, ev);
      var t := if ev.finalId <= id then s else ApplyOne(s, ev);
      DrainKeepsBookInv(t.(buffer := rest), id);
    }
  }

  lemma DiffStepKeepsInv(s: Session, ev: DepthEvent)
    requires SessionInv(s)
    ensures SessionInv(OnDiff(s, ev).session)
    ensures forall i :: 0 <= i < |OnDiff(s, ev).applied| ==> FaithfulReport(OnDiff(s, ev).applied[i])
  {
    EmptyBookInv();
    DiffKeepsInv(s.venue, s.book, ev);
  }

  lemma SnapshotStepKeepsInv(s: Session, bids: seq<Level>, asks: seq<Level>, id: Uint64)
    requires SessionInv(s)
    ensures SessionInv(OnSnapshot(s, bids, asks, id).session)
    ensures var t := OnSnapshot(s, bids, asks, id).session; t.pending <==> t.buffer != []
    ensures var a := OnSnapshot(s, bids, asks, id).applied; forall i :: 0 <= i < |a| ==> FaithfulReport(a[i])
  {
    SnapshotKeepsInv(bids, asks, id);
    DrainLeavesSuffix(Reseed(s, bids, asks, id), id);
    DrainKeepsBookInv(Reseed(s, bids, asks, id), id);
  }

  /** Over every run: the backlog is bounded, a live session is seeded with no backlog, and every
      reported book is seeded, ends at its diff's final id and satisfies the cache invariant. */
  lemma {:induction false} RunKeepsInv(s: Session, ops: seq<Op>)
    requires SessionInv(s)
    ensures SessionInv(Run(s, ops).session)
    ensures forall i :: 0 <= i < |Run(s, ops).applied| ==> FaithfulReport(Run(s, ops).applied[i])
  {
    if ops != [] {
      var front, op := ops[..|ops| - 1], ops[|ops| - 1];
      RunKeepsInv(s, front);
      var t := Run(s, front).session;
      match op {
        case Diff(ev) => DiffStepKeepsInv(t, ev);
        case Snapshot(bids, asks, id) => SnapshotStepKeepsInv(t, bids, asks, id);
        case Reconnect => EmptyBookInv();
      }
    }
  }

  // ---- A late snapshot equals an early one ----

  /** Draining one more buffered diff is draining without it and then feeding it live. */
  lemma {:induction false} DrainThenFeed(s: Session, id: Uint64, ev: DepthEvent)
    requires s.book.initialized && !s.pending
    requires id <= s.book.lastId
    requires |s.buffer| < MAX_BUFFER
    ensures var r := Drain(s, id);
            var d := OnDiff(r.session, ev);
      Drain(s.(buffer := s.buffer + [ev]), id) == Step(d.session, r.applied + d.applied)
    decreases |s.buffer|
  {
    var long := s.(buffer := s.buffer + [ev]);
    if s.buffer == [] {
      assert long.buffer == [ev] && long.buffer[1..] == [];
      assert long.(buffer := []) == s;
    } else {
      var head, rest := s.buffer[0], s.buffer[1..];
      assert long.buffer[0] == head && long.buffer[1..] == rest + [ev];
      if head.finalId <= id {
        DrainThenFeed(s.(buffer := rest), id, ev);
      } else if Classify(s.venue, s.book, head) != Gap {
        DrainThenFeed(ApplyOne(s, head).(buffer := rest), id, ev);
      }
    }
  }

  function Diffs(evs: seq<DepthEvent>): seq<Op> {
    seq(|evs|, i requires 0 <= i < |evs| => Diff(evs[i]))
  }

  /** A waiting session with room for `evs` just appends them. */
  lemma {:induction false} WaitingBuffers(s: Session, evs: seq<DepthEvent>)
    requires MustBuffer(s)
    requires |s.buffer| + |evs| <= MAX_BUFFER
    ensures Run(s, Diffs(evs)) == Step(s.(buffer := s.buffer + evs), [])
  {
    if evs == [] {
      assert s.buffer + evs == s.buffer;
    } else {
      var front := evs[..|evs| - 1];
      WaitingBuffers(s, front);
      assert Diffs(evs)[..|evs| - 1] == Diffs(front);
      assert s.buffer + front + [evs[|evs| - 1]] == s.buffer + evs;
    }
  }

  /** Buffering diffs and then taking the snapshot gives the same session and the same applied
      diffs as taking the snapshot first and feeding the diffs live, gaps included. */
  lemma {:induction false} LateSnapshotEqualsEarly(
      s: Session, evs: seq<DepthEvent>, bids: seq<Level>, asks: seq<Level>, id: Uint64)
    requires SessionInv(s) && MustBuffer(s)
    requires |s.buffer| + |evs| <= MAX_BUFFER
    ensures Run(s, Diffs(evs) + [Snapshot(bids, asks, id)]) == Run(s, [Snapshot(bids, asks, id)] + Diffs(evs))
  {
    var snap := [Snapshot(bids, asks, id)];
    RunSplits(s, Diffs(evs), snap);
    RunSplits(s, snap, Diffs(evs));
    WaitingBuffers(s, evs);
    OneSnapshot(s, bids, asks, id);
    OneSnapshot(s.(buffer := s.buffer + evs), bids, asks, id);
    DrainThenFeedAll(Reseed(s, bids, asks, id), id, evs);
  }

  lemma OneSnapshot(s: Session, bids: seq<Level>, asks: seq<Level>, id: Uint64)
    ensures Run(s, [Snapshot(bids, asks, id)]) == OnSnapshot(s, bids, asks, id)
  {
    var op := Snapshot(bids, asks, id);
    assert [op][..0] == [];
    assert Run(s, [op]) == Step(Perform(Run(s, []).session, op).session, [] + Perform(s, op).applied);
  }

  lemma {:induction false} DrainThenFeedAll(s: Session, id: Uint64, evs: seq<DepthEvent>)
    requires s.book.initialized && !s.pending
    requires id <= s.book.lastId
    requires |s.buffer| + |evs| <= MAX_BUFFER
    ensures var r := Drain(s, id);
            var d := Run(r.session, Diffs(evs));
      Drain(s.(buffer := s.buffer + evs), id) == Step(d.session, r.applied + d.applied)
    decreases |evs|
  {
    if evs == [] {
      assert s.buffer + evs == s.buffer;
    } else {
      var front, ev := evs[..|evs| - 1], evs[|evs| - 1];
      SplitLast(s.buffer, evs);
      DrainThenFeedAll(s, id, front);
      DrainThenFeed(s.(buffer := s.buffer + front), id, ev);
      var r := Drain(s, id);
      assert Diffs(evs) == Diffs(front) + [Diff(ev)];
      RunSnoc(r.session, Diffs(front), Diff(ev));
      Assoc(r.applied, Run(r.session, Diffs(front)).applied, OnDiff(Run(r.session, Diffs(front)).session, ev).applied);
    }
  }

  // ---- The session as an object ----

  class BookSession {
    const venue: Venue
    const book: OrderBook
    var pending: bool
    var overflows: nat
    var buffer: seq<DepthEvent>

    ghost function Repr(): set<object> {
      {this} + book.Repr()
    }

    /** The state is well formed; inside an operation the protocol invariant may be broken. */
    ghost predicate Shaped()
      reads Repr()
    {
      this !in book.Repr() && book.Valid()
    }

    ghost predicate Valid()
      reads Repr()
    {
      Shaped() && SessionInv(State())
    }

    function State(): Session
      requires Shaped()
      reads Repr()
    {
      Session(venue, book.State(), pending, overflows, buffer)
    }

    constructor (id: int, venue: Venue)
      ensures Valid() && fresh(Repr())
      ensures book.id == id && State() == NewSession(venue)
    {
      this.venue := venue;
      book := new OrderBook(id);
      pending, overflows, buffer := true, 0, [];
      new;
      EmptyBookInv();
    }

    method Sequence(ev: DepthEvent) returns (o: Outcome)
      requires Shaped()
      modifies Repr()
      ensures Shaped()
      ensures State() == ApplyOne(old(State()), ev)
      ensures o == OutcomeOf(Classify(venue, old(State()).book, ev))
    {
      var r;
      if venue == Usdm {
        r := book.ApplyDiffUsdm(ev);
      } else {
        r := book.ApplyDiffSpot(ev);
      }
      match r {
        case Applied => o := Outcome.Applied;
        case IgnoredOld => o := Dropped;
        case Gap => pending := true; o := ResyncNeeded;
        case NeedSnapshot => pending := true; o := Buffered;
      }
    }

    method Enqueue(ev: DepthEvent)
      requires Shaped()
      modifies Repr()
      ensures Shaped()
      ensures State() == BufferEvent(old(State()), ev)
    {
      if |buffer| >= MAX_BUFFER {
        overflows := overflows + 1;
        buffer := [];
        pending := true;
        book.Reset();
      }
      buffer := buffer + [ev];
    }

    method Feed(ev: DepthEvent) returns (o: Outcome)
      requires Valid()
      modifies Repr()
      ensures Valid()
      ensures State() == OnDiff(old(State()), ev).session
      ensures o == DiffOutcome(old(State()), ev)
    {
      DiffStepKeepsInv(State(), ev);
      if pending || !book.initialized {
        Enqueue(ev);
        return Buffered;
      }
      o := Sequence(ev);
      if o == ResyncNeeded {
        Enqueue(ev);
      }
    }

    /** One turn of the snapshot loop; `applied` is what it hands to the callback, if anything. */
    method TakeFront(snapshotId: Uint64) returns (gap: bool, applied: seq<AppliedDiff>)
      requires Shaped() && buffer != []
      modifies Repr()
      ensures Shaped()
      ensures gap ==> Drain(old(State()), snapshotId) == Step(State(), applied)
      ensures !gap ==> |buffer| < |old(buffer)|
      ensures !gap ==> var r := Drain(State(), snapshotId);
                Drain(old(State()), snapshotId) == Step(r.session, applied + r.applied)
    {
      var ev := buffer[0];
      if ev.finalId <= snapshotId {
        buffer := buffer[1..];
        return false, [];
      }
      var o := Sequence(ev);
      if o == ResyncNeeded {
        return true, [];
      }
      applied := if o == Outcome.Applied then [AppliedDiff(ev, book.State())] else [];
      buffer := buffer[1..];
      return false, applied;
    }

    /** `applied` lists what the callback is given, in order: each event with the book it left. */
    method Seed(bids: seq<Level>, asks: seq<Level>, snapshotId: Uint64) returns (applied: seq<AppliedDiff>)
      requires Valid()
      modifies Repr()
      ensures Valid()
      ensures OnSnapshot(old(State()), bids, asks, snapshotId) == Step(State(), applied)
    {
      SnapshotStepKeepsInv(State(), bids, asks, snapshotId);
      book.Load(bids, asks, snapshotId);
      pending := false;
      applied := DrainBuffer(snapshotId);
    }

    method DrainBuffer(snapshotId: Uint64) returns (applied: seq<AppliedDiff>)
      requires Shaped()
      modifies Repr()
      ensures Shaped()
      ensures Drain(old(State()), snapshotId) == Step(State(), applied)
    {
      applied := [];
      while buffer != []
        invariant Shaped()
        invariant var r := Drain(State(), snapshotId);
          Drain(old(State()), snapshotId) == Step(r.session, applied + r.applied)
        decreases |buffer|
      {
        var gap, now := TakeFront(snapshotId);
        Assoc(applied, now, Drain(State(), snapshotId).applied);
        applied := applied + now;
        if gap {
          return;
        }
      }
    }

    method Invalidate()
      requires Valid()
      modifies Repr()
      ensures Valid()
      ensures State() == RequestResync(old(State()))
    {
      pending := true;
      book.Reset();
      buffer := [];
    }
  }
}
