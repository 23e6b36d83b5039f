/** What whole runs of a session do with the ids and the diffs they are given: within one snapshot
    era no update id is skipped, and every received diff is accounted for exactly once. */
module SessionHistory {
  import opened MarketTypes
  import opened Books
  import opened Sessions

  function Events(applied: seq<AppliedDiff>): seq<DepthEvent> {
    seq(|applied|, i requires 0 <= i < |applied| => applied[i].ev)
  }

  // ---- Coverage within one snapshot era ----

  /** The last snapshot taken and the diffs applied since. */
  datatype Era = Era(snapshotId: Uint64, applied: seq<DepthEvent>)

  function IdBefore(e: Era, i: nat): Uint64
    requires i <= |e.applied|
  {
    if i == 0 then e.snapshotId else e.applied[i - 1].finalId
  }

  predicate InRange(ev: DepthEvent, n: int) {
    ev.firstId <= n <= ev.finalId
  }

  ghost predicate Increasing(e: Era) {
    forall i :: 0 <= i < |e.applied| ==> IdBefore(e, i) < e.applied[i].finalId
  }

  /** Spot: no id since the snapshot is skipped. */
  ghost predicate NoneSkipped(e: Era) {
    forall n :: e.snapshotId < n <= IdBefore(e, |e.applied|) ==> Covered(e.applied, n)
  }

  /** USD-M: the first diff brackets the snapshot and the others form an unbroken pu chain. */
  ghost predicate Chained(e: Era) {
    forall i :: 0 <= i < |e.applied| ==>
      if i == 0 then e.applied[i].firstId <= e.snapshotId else e.applied[i].prevId == IdBefore(e, i)
  }

  ghost predicate Contiguous(venue: Venue, e: Era) {
    Increasing(e) && if venue.Spot? then NoneSkipped(e) else Chained(e)
  }

  ghost predicate Covered(evs: seq<DepthEvent>, n: int) {
    exists i :: 0 <= i < |evs| && InRange(evs[i], n)
  }

  /** The book is where the era ends. */
  ghost predicate Tracks(venue: Venue, e: Era, b: Book) {
    b.initialized ==>
      && Contiguous(venue, e)
      && b.lastId == IdBefore(e, |e.applied|)
      && (b.started <==> e.applied != [])
  }

  function Extend(e: Era, ev: DepthEvent): Era {
    Era(e.snapshotId, e.applied + [ev])
  }

  lemma ExtendShape(e: Era, ev: DepthEvent)
    ensures var x, n := Extend(e, ev), |e.applied|;
      && |x.applied| == n + 1 && x.applied[n] == ev
      && (forall i :: 0 <= i < n ==> x.applied[i] == e.applied[i])
      && (forall i :: 0 <= i <= n ==> IdBefore(x, i) == IdBefore(e, i))
  {
  }

  lemma ExtendNoneSkipped(e: Era, ev: DepthEvent)
    requires NoneSkipped(e) && ev.firstId <= IdBefore(e, |e.applied|) + 1
    ensures NoneSkipped(Extend(e, ev))
  {
    var x, n := Extend(e, ev), |e.applied|;
    forall k | e.snapshotId < k <= ev.finalId ensures Covered(x.applied, k) {
      if k <= IdBefore(e, n) {
        assert Covered(e.applied, k);
        var i :| 0 <= i < n && InRange(e.applied[i], k);
        assert InRange(x.applied[i], k);
      } else {
        assert InRange(x.applied[n], k);
      }
    }
  }

  lemma ExtendAt(e: Era, ev: DepthEvent, i: nat)
    requires i <= |e.applied|
    ensures |Extend(e, ev).applied| == |e.applied| + 1 && IdBefore(Extend(e, ev), i) == IdBefore(e, i)
    ensures Extend(e, ev).applied[i] == if i < |e.applied| then e.applied[i] else ev
  {
  }

  lemma ExtendIncreasing(e: Era, ev: DepthEvent)
    requires Increasing(e) && IdBefore(e, |e.applied|) < ev.finalId
    ensures Increasing(Extend(e, ev))
  {
    var x := Extend(e, ev);
    forall i | 0 <= i < |x.applied| ensures IdBefore(x, i) < x.applied[i].finalId {
      ExtendAt(e, ev, i);
    }
  }

  lemma ExtendChained(e: Era, ev: DepthEvent)
    requires Chained(e)
    requires if e.applied == [] then ev.firstId <= e.snapshotId else ev.prevId == IdBefore(e, |e.applied|)
    ensures Chained(Extend(e, ev))
  {
    ExtendShape(e, ev);
  }

  lemma AppliedExtendsEra(venue: Venue, e: Era, b: Book, ev: DepthEvent)
    requires b.initialized && Tracks(venue, e, b)
    requires Classify(venue, b, ev).Applied?
    ensures Tracks(venue, Extend(e, ev), ApplyEvent(b, ev))
  {
    ExtendIncreasing(e, ev);
    if venue.Spot? {
      SuccessorNeverWraps(venue, b, ev);
      ExtendNoneSkipped(e, ev);
    } else {
      ExtendChained(e, ev);
    }
  }

  function ExtendAll(e: Era, applied: seq<AppliedDiff>): Era {
    Era(e.snapshotId, e.applied + Events(applied))
  }

  lemma {:induction false} DrainExtendsEra(s: Session, id: Uint64, e: Era)
    requires s.book.initialized && Tracks(s.venue, e, s.book)
    ensures Tracks(s.venue, ExtendAll(e, Drain(s, id).applied), Drain(s, id).session.book)
    decreases |s.buffer|
  {
    if s.buffer == [] {
      assert e.applied + Events([]) == e.applied;
    } else {
      var ev, rest := s.buffer[0], s.buffer[1..];
      if ev.finalId <= id {
        DrainExtendsEra(s.(buffer := rest), id, e);
      } else {
        var t := ApplyOne(s, ev);
        match Classify(s.venue, s.book, ev) {
          case Gap =>
            assert e.applied + Events([]) == e.applied;
          case Applied =>
            AppliedExtendsEra(s.venue, e, s.book, ev);
            var r := Drain(t.(buffer := rest), id);
            DrainExtendsEra(t.(buffer := rest), id, Extend(e, ev));
            EventsCons(e, ev, t.book, r.applied);
          case IgnoredOld =>
            DrainExtendsEra(t.(buffer := rest), id, e);
        }
      }
    }
  }

  lemma EventsCons(e: Era, ev: DepthEvent, b: Book, applied: seq<AppliedDiff>)
    ensures ExtendAll(e, [AppliedDiff(ev, b)] + applied) == ExtendAll(Extend(e, ev), applied)
  {
    assert Events([AppliedDiff(ev, b)] + applied) == [ev] + Events(applied);
    assert e.applied + ([ev] + Events(applied)) == e.applied + [ev] + Events(applied);
  }

  ghost function NextEra(e: Era, s: Session, op: Op): Era {
    ExtendAll(if op.Snapshot? then Era(op.id, []) else e, Perform(s, op).applied)
  }

  ghost function EraAfter(s: Session, ops: seq<Op>): Era {
    if ops == [] then Era(0, [])
    else NextEra(EraAfter(s, ops[..|ops| - 1]), Run(s, ops[..|ops| - 1]).session, ops[|ops| - 1])
  }

  lemma StepTracksEra(s: Session, e: Era, op: Op)
    requires Tracks(s.venue, e, s.book)
    ensures Tracks(s.venue, NextEra(e, s, op), Perform(s, op).session.book)
  {
    match op {
      case Diff(ev) => DiffTracksEra(s, e, ev);
      case Snapshot(bids, asks, id) => DrainExtendsEra(Reseed(s, bids, asks, id), id, Era(id, []));
      case Reconnect => ExtendByNone(e);
    }
  }

  lemma ExtendByNone(e: Era)
    ensures ExtendAll(e, []) == e
  {
    assert e.applied + Events([]) == e.applied;
  }

  lemma ExtendByOne(e: Era, ev: DepthEvent, b: Book)
    ensures ExtendAll(e, [AppliedDiff(ev, b)]) == Extend(e, ev)
  {
    assert Events([AppliedDiff(ev, b)]) == [ev];
  }

  lemma DiffTracksEra(s: Session, e: Era, ev: DepthEvent)
    requires Tracks(s.venue, e, s.book)
    ensures Tracks(s.venue, ExtendAll(e, OnDiff(s, ev).applied), OnDiff(s, ev).session.book)
  {
    ExtendByNone(e);
    if !MustBuffer(s) && Classify(s.venue, s.book, ev).Applied? {
      AppliedExtendsEra(s.venue, e, s.book, ev);
      ExtendByOne(e, ev, ApplyEvent(s.book, ev));
    }
  }

  lemma {:induction false} RunTracksEra(venue: Venue, ops: seq<Op>)
    ensures var s := Run(NewSession(venue), ops).session;
      s.venue == venue && Tracks(venue, EraAfter(NewSession(venue), ops), s.book)
  {
    if ops != [] {
      var front, op := ops[..|ops| - 1], ops[|ops| - 1];
      RunTracksEra(venue, front);
      var s := Run(NewSession(venue), front).session;
      StepTracksEra(s, EraAfter(NewSession(venue), front), op);
      if op.Snapshot? {
        DrainLeavesSuffix(Reseed(s, op.bids, op.asks, op.id), op.id);
      }
    }
  }

  // ---- Conservation of diffs ----

  /** How a received diff left the session. A stale one was at or below `bound`, the id of the
      book or of the snapshot it was checked against. */
  datatype Fate = WasApplied | WasStale(bound: Uint64) | WasDiscarded

  function Discarded(n: nat): seq<Fate> {
    seq(n, i => WasDiscarded)
  }

  function Received(ops: seq<Op>): seq<DepthEvent> {
    if ops == [] then []
    else
      var front, op := Received(ops[..|ops| - 1]), ops[|ops| - 1];
      if op.Diff? then front + [op.ev] else front
  }

  /** Fates of the diffs a drain takes off the front of the buffer. */
  ghost function DrainFates(s: Session, id: Uint64): seq<Fate>
    decreases |s.buffer|
  {
    if s.buffer == [] then []
    else
      var ev, rest := s.buffer[0], s.buffer[1..];
      if ev.finalId <= id then [WasStale(id)] + DrainFates(s.(buffer := rest), id)
      else
        var t := ApplyOne(s, ev);
        match Classify(s.venue, s.book, ev)
        case Gap => []
        case Applied => [WasApplied] + DrainFates(t.(buffer := rest), id)
        case IgnoredOld => [WasStale(s.book.lastId)] + DrainFates(t.(buffer := rest), id)
        case NeedSnapshot => [WasDiscarded] + DrainFates(t.(buffer := rest), id)
  }

  ghost function StepFates(s: Session, op: Op): seq<Fate> {
    match op
    case Diff(ev) =>
      if MustBuffer(s) then (if |s.buffer| >= MAX_BUFFER then Discarded(|s.buffer|) else [])
      else
        (match DiffOutcome(s, ev)
         case Applied => [WasApplied]
         case Dropped => [WasStale(s.book.lastId)]
         case _ => [])
    case Snapshot(bids, asks, id) => DrainFates(Reseed(s, bids, asks, id), id)
    case Reconnect => Discarded(|s.buffer|)
  }

  ghost function Fates(s: Session, ops: seq<Op>): seq<Fate> {
    if ops == [] then []
    else Fates(s, ops[..|ops| - 1]) + StepFates(Run(s, ops[..|ops| - 1]).session, ops[|ops| - 1])
  }

  /** The diffs whose fate was to be applied, in arrival order. */
  function Survivors(evs: seq<DepthEvent>, fates: seq<Fate>): seq<DepthEvent>
    requires |fates| <= |evs|
  {
    if fates == [] then []
    else
      var n := |fates| - 1;
      Survivors(evs, fates[..n]) + if fates[n].WasApplied? then [evs[n]] else []
  }

  ghost predicate StaleIsOld(evs: seq<DepthEvent>, fates: seq<Fate>)
    requires |fates| <= |evs|
  {
    forall i :: 0 <= i < |fates| && fates[i].WasStale? ==> evs[i].finalId <= fates[i].bound
  }

  /** The buffer is the suffix without a fate, and the applied diffs are those fated so. */
  ghost predicate Accounted(evs: seq<DepthEvent>, fates: seq<Fate>, buffer: seq<DepthEvent>, applied: seq<DepthEvent>) {
    && |fates| <= |evs|
    && buffer == evs[|fates|..]
    && applied == Survivors(evs, fates)
    && StaleIsOld(evs, fates)
  }

  lemma {:induction false} SurvivorsConcat(a: seq<DepthEvent>, b: seq<DepthEvent>, f: seq<Fate>, g: seq<Fate>)
    requires |f| == |a| && |g| <= |b|
    ensures Survivors(a + b, f + g) == Survivors(a, f) + Survivors(b, g)
    decreases |g|
  {
    if g == [] {
      assert f + g == f;
      SurvivorsOfPrefix(a, b, f);
    } else {
      var n := |g| - 1;
      SurvivorsConcat(a, b, f, g[..n]);
      assert (f + g)[..|f| + n] == f + g[..n];
      assert (a + b)[|a| + n] == b[n];
    }
  }

  lemma {:induction false} SurvivorsOfPrefix(a: seq<DepthEvent>, b: seq<DepthEvent>, f: seq<Fate>)
    requires |f| <= |a|
    ensures Survivors(a + b, f) == Survivors(a, f)
  {
    if f != [] {
      SurvivorsOfPrefix(a, b, f[..|f| - 1]);
    }
  }

  ghost predicate DrainAccounted(s: Session, id: Uint64) {
    var r := Drain(s, id);
    Accounted(s.buffer, DrainFates(s, id), r.session.buffer, Events(r.applied)) && WasDiscarded !in DrainFates(s, id)
  }

  lemma {:induction false} DrainAccounts(s: Session, id: Uint64)
    requires s.book.initialized
    ensures DrainAccounted(s, id)
    decreases |s.buffer|
  {
    if s.buffer != [] {
      var ev, rest := s.buffer[0], s.buffer[1..];
      if ev.finalId <= id {
        DrainAccounts(s.(buffer := rest), id);
        TakenAccounts(s, id, s.(buffer := rest), WasStale(id));
      } else {
        var t := ApplyOne(s, ev).(buffer := rest);
        match Classify(s.venue, s.book, ev) {
          case Gap =>
          case Applied =>
            DrainAccounts(t, id);
            assert Events(Drain(s, id).applied) == [ev] + Events(Drain(t, id).applied);
            TakenAccounts(s, id, t, WasApplied);
          case IgnoredOld =>
            DrainAccounts(t, id);
            TakenAccounts(s, id, t, WasStale(s.book.lastId));
        }
      }
    }
  }

  lemma TakenAccounts(s: Session, id: Uint64, t: Session, f: Fate)
    requires s.buffer != [] && t.buffer == s.buffer[1..]
    requires DrainAccounted(t, id)
    requires DrainFates(s, id) == [f] + DrainFates(t, id) && f != WasDiscarded
    requires f.WasStale? ==> s.buffer[0].finalId <= f.bound
    requires Drain(s, id).session == Drain(t, id).session
    requires Events(Drain(s, id).applied) ==
             (if f.WasApplied? then [s.buffer[0]] else []) + Events(Drain(t, id).applied)
    ensures DrainAccounted(s, id)
  {
    FrontAccounted(s.buffer[0], t.buffer, f, DrainFates(t, id), Drain(t, id).session.buffer);
    assert s.buffer == [s.buffer[0]] + t.buffer;
  }

  lemma FrontAccounted(ev: DepthEvent, rest: seq<DepthEvent>, f: Fate, fates: seq<Fate>, buffer: seq<DepthEvent>)
    requires |fates| <= |rest| && buffer == rest[|fates|..] && StaleIsOld(rest, fates)
    requires f.WasStale? ==> ev.finalId <= f.bound
    ensures Accounted([ev] + rest, [f] + fates, buffer,
                      (if f.WasApplied? then [ev] else []) + Survivors(rest, fates))
  {
    SurvivorsConcat([ev], rest, [f], fates);
    OneSurvivor(ev, f);
    StaleCons(ev, rest, f, fates);
    DropCons(ev, rest, |fates|);
  }

  lemma DropCons(ev: DepthEvent, rest: seq<DepthEvent>, n: nat)
    requires n <= |rest|
    ensures ([ev] + rest)[1 + n..] == rest[n..]
  {
  }

  lemma OneSurvivor(ev: DepthEvent, f: Fate)
    ensures Survivors([ev], [f]) == if f.WasApplied? then [ev] else []
  {
    assert [f][..0] == [];
  }

  lemma StaleCons(ev: DepthEvent, rest: seq<DepthEvent>, f: Fate, fates: seq<Fate>)
    requires |fates| <= |rest| && StaleIsOld(rest, fates)
    requires f.WasStale? ==> ev.finalId <= f.bound
    ensures StaleIsOld([ev] + rest, [f] + fates)
  {
  }

  /** One step accounts for the backlog and the new diff, if the step brings one. */
  lemma StepAccounts(s: Session, op: Op)
    requires SessionInv(s)
    ensures var r := Perform(s, op);
      Accounted(s.buffer + (if op.Diff? then [op.ev] else []), StepFates(s, op), r.session.buffer, Events(r.applied))
    ensures WasDiscarded in StepFates(s, op) ==> op.Reconnect? || Perform(s, op).session.overflows > s.overflows
  {
    match op {
      case Diff(ev) =>
        if MustBuffer(s) {
          if |s.buffer| >= MAX_BUFFER {
            NoSurvivors(s.buffer + [ev], |s.buffer|);
          }
        } else {
          LiveDiffAccounts(s, ev);
        }
      case Snapshot(bids, asks, id) =>
        assert s.buffer + [] == s.buffer;
        DrainAccounts(Reseed(s, bids, asks, id), id);
      case Reconnect =>
        NoSurvivors(s.buffer + [], |s.buffer|);
    }
  }

  lemma LiveDiffAccounts(s: Session, ev: DepthEvent)
    requires SessionInv(s) && !MustBuffer(s)
    ensures var r := OnDiff(s, ev);
      Accounted(s.buffer + [ev], StepFates(s, Diff(ev)), r.session.buffer, Events(r.applied))
    ensures WasDiscarded !in StepFates(s, Diff(ev))
  {
    assert s.buffer + [ev] == [ev] + [];
    if StepFates(s, Diff(ev)) != [] {
      FrontAccounted(ev, [], StepFates(s, Diff(ev))[0], [], []);
    }
  }

  lemma {:induction false} NoSurvivors(evs: seq<DepthEvent>, n: nat)
    requires n <= |evs|
    ensures Survivors(evs, Discarded(n)) == []
  {
    if n > 0 {
      NoSurvivors(evs, n - 1);
      assert Discarded(n)[..n - 1] == Discarded(n - 1);
    }
  }

  /** Accounting composes: a step over the backlog and the new diffs extends the account. */
  lemma AccountsCompose(
      evs: seq<DepthEvent>, fates: seq<Fate>, buffer: seq<DepthEvent>, applied: seq<DepthEvent>,
      arrived: seq<DepthEvent>, fates': seq<Fate>, buffer': seq<DepthEvent>, applied': seq<DepthEvent>)
    requires Accounted(evs, fates, buffer, applied)
    requires Accounted(buffer + arrived, fates', buffer', applied')
    ensures Accounted(evs + arrived, fates + fates', buffer', applied + applied')
  {
    var done := evs[..|fates|];
    assert evs + arrived == done + (buffer + arrived);
    SurvivorsConcat(done, buffer + arrived, fates, fates');
    SurvivorsOfPrefix(done, buffer, fates);
    assert done + buffer == evs;
    assert (evs + arrived)[|fates + fates'|..] == buffer';
  }

  ghost predicate RunAccounted(venue: Venue, ops: seq<Op>) {
    var r := Run(NewSession(venue), ops);
    Accounted(Received(ops), Fates(NewSession(venue), ops), r.session.buffer, Events(r.applied))
  }

  lemma EventsConcat(a: seq<AppliedDiff>, b: seq<AppliedDiff>)
    ensures Events(a + b) == Events(a) + Events(b)
  {
  }

  lemma AccountGrows(venue: Venue, front: seq<Op>, op: Op)
    requires RunAccounted(venue, front) && SessionInv(Run(NewSession(venue), front).session)
    ensures RunAccounted(venue, front + [op])
  {
    var s0 := NewSession(venue);
    var r := Run(s0, front);
    var t := Perform(r.session, op);
    var arrived := if op.Diff? then [op.ev] else [];
    StepAccounts(r.session, op);
    AccountsCompose(Received(front), Fates(s0, front), r.session.buffer, Events(r.applied),
                    arrived, StepFates(r.session, op), t.session.buffer, Events(t.applied));
    HistorySnoc(s0, front, op);
    RunSnoc(s0, front, op);
    EventsConcat(r.applied, t.applied);
  }

  lemma HistorySnoc(s: Session, front: seq<Op>, op: Op)
    ensures Received(front + [op]) == Received(front) + if op.Diff? then [op.ev] else []
    ensures Fates(s, front + [op]) == Fates(s, front) + StepFates(Run(s, front).session, op)
  {
    assert (front + [op])[..|front|] == front;
  }

  /** Over every run from a new session: each received diff has at most one fate, given in arrival
      order; the buffer is exactly the suffix still without one; the applied diffs are the received
      ones fated so, each once and in order; and stale ones were at or below the id they were
      checked against. */
  lemma {:induction false} EveryDiffIsAccounted(venue: Venue, ops: seq<Op>)
    ensures var r := Run(NewSession(venue), ops);
      Accounted(Received(ops), Fates(NewSession(venue), ops), r.session.buffer, Events(r.applied))
  {
    AccountedFrom(venue, ops);
  }

  lemma {:induction false} AccountedFrom(venue: Venue, ops: seq<Op>)
    ensures RunAccounted(venue, ops)
  {
    if ops != [] {
      var front, op := ops[..|ops| - 1], ops[|ops| - 1];
      AccountedFrom(venue, front);
      EmptyBookInv();
      RunKeepsInv(NewSession(venue), front);
      AccountGrows(venue, front, op);
      SplitLast([], ops);
    }
  }

  // ---- Why a diff left ----

  /** A step that gave this fate had a reason to. A stale diff was checked against the id of the book
      it met: that of the session, of the snapshot just taken, or of a diff applied after that
      snapshot. A diff is discarded only by a reconnect or by the overflow it makes the step count. */
  ghost predicate Explains(s: Session, op: Op, f: Fate) {
    match f
    case WasApplied => op.Diff? || op.Snapshot?
    case WasStale(bound) =>
      (match op
       case Diff(_) => bound == s.book.lastId
       case Snapshot(_, _, id) => bound == id || IsAppliedId(Perform(s, op).applied, bound)
       case Reconnect => false)
    case WasDiscarded => op.Reconnect? || Perform(s, op).session.overflows > s.overflows
  }

  ghost predicate IsAppliedId(applied: seq<AppliedDiff>, id: Uint64) {
    exists i :: 0 <= i < |applied| && applied[i].ev.finalId == id
  }

  lemma AppliedIdLater(a: AppliedDiff, rest: seq<AppliedDiff>, id: Uint64)
    requires a.ev.finalId == id || IsAppliedId(rest, id)
    ensures IsAppliedId([a] + rest, id)
  {
    if a.ev.finalId == id {
      assert ([a] + rest)[0].ev.finalId == id;
    } else {
      var i :| 0 <= i < |rest| && rest[i].ev.finalId == id;
      assert ([a] + rest)[i + 1].ev.finalId == id;
    }
  }

  /** The bounds a drain checks against: the snapshot's id, the id the book starts with, and the final
      ids of the diffs it applies. */
  ghost predicate BoundIsKnown(s: Session, id: Uint64, f: Fate) {
    f.WasStale? ==> f.bound == id || f.bound == s.book.lastId || IsAppliedId(Drain(s, id).applied, f.bound)
  }

  lemma {:induction false} DrainBoundsAreKnown(s: Session, id: Uint64, i: nat)
    requires s.book.initialized && i < |DrainFates(s, id)|
    ensures BoundIsKnown(s, id, DrainFates(s, id)[i])
    decreases |s.buffer|
  {
    var ev, rest := s.buffer[0], s.buffer[1..];
    if i > 0 {
      if ev.finalId <= id {
        DrainBoundsAreKnown(s.(buffer := rest), id, i - 1);
      } else {
        var t := ApplyOne(s, ev).(buffer := rest);
        var f := DrainFates(s, id)[i];
        DrainBoundsAreKnown(t, id, i - 1);
        assert f == DrainFates(t, id)[i - 1];
        if Classify(s.venue, s.book, ev).Applied? && f.WasStale? && f.bound != id {
          AppliedIdLater(AppliedDiff(ev, t.book), Drain(t, id).applied, f.bound);
        }
      }
    }
  }

  lemma StepExplains(s: Session, op: Op, f: Fate)
    requires SessionInv(s) && f in StepFates(s, op)
    ensures Explains(s, op, f)
  {
    match op {
      case Diff(ev) => DiffExplains(s, ev, f);
      case Snapshot(bids, asks, id) => SnapshotExplains(s, bids, asks, id, f);
      case Reconnect =>
    }
  }

  lemma DiffExplains(s: Session, ev: DepthEvent, f: Fate)
    requires SessionInv(s) && f in StepFates(s, Diff(ev))
    ensures Explains(s, Diff(ev), f)
  {
  }

  lemma SnapshotExplains(s: Session, bids: seq<Level>, asks: seq<Level>, id: Uint64, f: Fate)
    requires f in StepFates(s, Snapshot(bids, asks, id))
    ensures Explains(s, Snapshot(bids, asks, id), f)
  {
    var r := Reseed(s, bids, asks, id);
    var i :| 0 <= i < |DrainFates(r, id)| && DrainFates(r, id)[i] == f;
    DrainAccounts(r, id);
    DrainBoundsAreKnown(r, id, i);
  }

  /** The `i`-th received diff got its fate in step `k`, and the step explains it. */
  ghost predicate ExplainedAt(s: Session, ops: seq<Op>, i: nat, k: nat) {
    && k < |ops| && |Fates(s, ops[..k])| <= i < |Fates(s, ops[..k + 1])|
    && i < |Fates(s, ops)| && Explains(Run(s, ops[..k]).session, ops[k], Fates(s, ops)[i])
  }

  lemma ExplainedLater(s: Session, front: seq<Op>, op: Op, i: nat, k: nat)
    requires ExplainedAt(s, front, i, k)
    ensures ExplainedAt(s, front + [op], i, k)
  {
    var ops := front + [op];
    assert ops[..k] == front[..k] && ops[..k + 1] == front[..k + 1];
    HistorySnoc(s, front, op);
  }

  lemma ExplainedNow(s: Session, front: seq<Op>, op: Op, i: nat)
    requires SessionInv(Run(s, front).session)
    requires |Fates(s, front)| <= i < |Fates(s, front + [op])|
    ensures ExplainedAt(s, front + [op], i, |front|)
  {
    SnocSlices(front, op);
    FateOfStep(s, front, op, i);
    StepExplains(Run(s, front).session, op, Fates(s, front + [op])[i]);
  }

  lemma FateOfStep(s: Session, front: seq<Op>, op: Op, i: nat)
    requires |Fates(s, front)| <= i < |Fates(s, front + [op])|
    ensures Fates(s, front + [op])[i] in StepFates(Run(s, front).session, op)
  {
    HistorySnoc(s, front, op);
  }

  lemma NextSession(s: Session, ops: seq<Op>, k: nat)
    requires k < |ops|
    ensures Run(s, ops[..k + 1]).session == Perform(Run(s, ops[..k]).session, ops[k]).session
  {
    PrefixSnoc(ops, k);
    RunSnoc(s, ops[..k], ops[k]);
  }

  /** Over every run, each fate was given in some step, and that step explains it. */
  lemma {:induction false} EveryFateIsExplained(venue: Venue, ops: seq<Op>, i: nat) returns (k: nat)
    requires i < |Fates(NewSession(venue), ops)|
    ensures ExplainedAt(NewSession(venue), ops, i, k)
    decreases |ops|
  {
    var s0, front, op := NewSession(venue), ops[..|ops| - 1], ops[|ops| - 1];
    SplitLast([], ops);
    if i < |Fates(s0, front)| {
      k := EveryFateIsExplained(venue, front, i);
      ExplainedLater(s0, front, op, i, k);
    } else {
      k := |front|;
      EmptyBookInv();
      RunKeepsInv(s0, front);
      ExplainedNow(s0, front, op, i);
    }
  }

  /** A diff is thrown away unread only in a step that is a reconnect or overflows the buffer. */
  lemma NothingIsDiscardedQuietly(venue: Venue, ops: seq<Op>, i: nat) returns (k: nat)
    requires i < |Fates(NewSession(venue), ops)| && Fates(NewSession(venue), ops)[i] == WasDiscarded
    ensures k < |ops| && |Fates(NewSession(venue), ops[..k])| <= i < |Fates(NewSession(venue), ops[..k + 1])|
    ensures ops[k].Reconnect? ||
      Run(NewSession(venue), ops[..k + 1]).session.overflows > Run(NewSession(venue), ops[..k]).session.overflows
  {
    k := EveryFateIsExplained(venue, ops, i);
    NextSession(NewSession(venue), ops, k);
  }
}
