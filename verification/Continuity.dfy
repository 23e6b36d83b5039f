/** Which diffs a session applies, drops and keeps, in terms of their ids alone: the laws that make it
    follow the stream and not merely stay safe. */
module Continuity {
  import opened MarketTypes
  import opened Books
  import opened Sessions
  import opened SessionHistory

  /** The book is seeded and no snapshot is awaited. */
  predicate IsLive(s: Session) {
    s.book.initialized && !s.pending
  }

  /** A diff may follow a book that ends at id `n`. Spot: it starts at `n + 1` or earlier. USD-M: the first
      after a snapshot starts at `n` or earlier, later ones name `n` as their predecessor. */
  predicate MayFollow(venue: Venue, n: int, started: bool, ev: DepthEvent) {
    match venue
    case Spot => ev.firstId <= n + 1
    case Usdm => if started then ev.prevId == n else ev.firstId <= n
  }

  // ---- One diff ----

  /** A live session drops a diff that does not reach past its book, applies one that does and may follow,
      and on any other keeps it and waits for a snapshot. */
  lemma LiveDiffIsDecided(s: Session, ev: DepthEvent)
    requires IsLive(s)
    ensures var r, n := OnDiff(s, ev), s.book.lastId;
      if ev.finalId <= n then r == Step(s, [])
      else if MayFollow(s.venue, n, s.book.started, ev) then
        && Events(r.applied) == [ev] && r.applied[0].book == r.session.book
        && IsLive(r.session) && r.session.book.lastId == ev.finalId && r.session.book.started
        && r.session.buffer == s.buffer && r.session.venue == s.venue
      else r.applied == [] && r.session.pending
    ensures var r, n := OnDiff(s, ev), s.book.lastId;
      n < ev.finalId && !MayFollow(s.venue, n, s.book.started, ev) && s.buffer == [] ==>
        r.session.buffer == [ev] && r.session.book == s.book
  {
    if s.book.lastId < ev.finalId && MayFollow(s.venue, s.book.lastId, s.book.started, ev) {
      assert Events([AppliedDiff(ev, ApplyEvent(s.book, ev))]) == [ev];
    }
  }

  /** The diff is applied exactly when its range reaches past the book and may follow it. */
  lemma LiveDiffIsAppliedIff(s: Session, ev: DepthEvent)
    requires IsLive(s)
    ensures OnDiff(s, ev).applied != [] <==>
      s.book.lastId < ev.finalId && MayFollow(s.venue, s.book.lastId, s.book.started, ev)
  {
    LiveDiffIsDecided(s, ev);
  }

  /** A session that waits keeps up to 65536 diffs in order; one more starts over with that diff alone, an
      empty book and the overflow counted. */
  lemma WaitingDiffIsKept(s: Session, ev: DepthEvent)
    requires !IsLive(s)
    ensures OnDiff(s, ev).applied == []
    ensures var r := OnDiff(s, ev);
      if |s.buffer| < 65536 then r.session == s.(buffer := s.buffer + [ev])
      else
        && r.session.buffer == [ev] && r.session.pending && r.session.overflows == s.overflows + 1
        && Unseeded(r.session.book) && r.session.venue == s.venue
  {
  }

  predicate Unseeded(b: Book) {
    && !b.initialized && !b.started && b.lastId == 0
    && b.bids.levels == map[] && b.asks.levels == map[] && b.bids.cache == [] && b.asks.cache == []
  }

  /** A reconnect leaves nothing of the book or the backlog. */
  lemma ReconnectStartsOver(s: Session)
    ensures var r := Perform(s, Reconnect);
      && r.applied == [] && r.session.pending && r.session.buffer == [] && Unseeded(r.session.book)
      && r.session.venue == s.venue && r.session.overflows == s.overflows
  {
  }

  // ---- A run of diffs ----

  /** The id before the `i`-th diff of a list that starts at `n`. */
  function Before(n: int, evs: seq<DepthEvent>, i: nat): int
    requires i <= |evs|
  {
    if i == 0 then n else evs[i - 1].finalId
  }

  /** An unbroken stream from id `n` on: every diff reaches past the one before it and may follow it. */
  ghost predicate Unbroken(venue: Venue, n: int, started: bool, evs: seq<DepthEvent>) {
    forall i :: 0 <= i < |evs| ==> ComesNext(venue, n, started, evs, i)
  }

  predicate ComesNext(venue: Venue, n: int, started: bool, evs: seq<DepthEvent>, i: nat)
    requires i < |evs|
  {
    Before(n, evs, i) < evs[i].finalId && MayFollow(venue, Before(n, evs, i), started || i > 0, evs[i])
  }

  lemma UnbrokenSnoc(venue: Venue, n: int, started: bool, front: seq<DepthEvent>, ev: DepthEvent)
    ensures Unbroken(venue, n, started, front + [ev]) <==>
      && Unbroken(venue, n, started, front)
      && Before(n, front, |front|) < ev.finalId
      && MayFollow(venue, Before(n, front, |front|), started || front != [], ev)
  {
    var evs := front + [ev];
    assert Before(n, evs, |front|) == Before(n, front, |front|) && evs[|front|] == ev;
    forall i | 0 <= i < |front| ensures ComesNext(venue, n, started, evs, i) == ComesNext(venue, n, started, front, i) {
      assert Before(n, evs, i) == Before(n, front, i) && evs[i] == front[i];
    }
    assert Unbroken(venue, n, started, evs) ==> ComesNext(venue, n, started, evs, |front|);
  }

  /** After following a whole stream the session is live at its end. */
  ghost predicate Followed(s: Session, evs: seq<DepthEvent>, r: Step) {
    && Events(r.applied) == evs
    && IsLive(r.session) && r.session.book.lastId == Before(s.book.lastId, evs, |evs|)
    && r.session.buffer == s.buffer && r.session.venue == s.venue
    && r.session.book.started == (s.book.started || evs != [])
  }

  /** A live session applies every diff of a stream exactly when the stream is unbroken; otherwise it
      applies fewer. */
  lemma {:induction false} StreamIsFollowedIff(s: Session, evs: seq<DepthEvent>)
    requires IsLive(s)
    ensures var r := Run(s, Diffs(evs));
      if Unbroken(s.venue, s.book.lastId, s.book.started, evs) then Followed(s, evs, r) else |r.applied| < |evs|
  {
    if evs != [] {
      var front, ev := evs[..|evs| - 1], evs[|evs| - 1];
      StreamIsFollowedIff(s, front);
      SplitLast([], evs);
      UnbrokenSnoc(s.venue, s.book.lastId, s.book.started, front, ev);
      DiffsSnoc(front, ev);
      RunSnoc(s, Diffs(front), Diff(ev));
      OneMoreDiff(s, front, ev);
    }
  }

  lemma DiffsSnoc(front: seq<DepthEvent>, ev: DepthEvent)
    ensures Diffs(front + [ev]) == Diffs(front) + [Diff(ev)]
  {
  }

  lemma OneMoreDiff(s: Session, front: seq<DepthEvent>, ev: DepthEvent)
    requires var r := Run(s, Diffs(front));
      if Unbroken(s.venue, s.book.lastId, s.book.started, front) then Followed(s, front, r)
      else |r.applied| < |front|
    ensures var r := Run(s, Diffs(front));
            var d := OnDiff(r.session, ev);
            var n := Before(s.book.lastId, front, |front|);
      if Unbroken(s.venue, s.book.lastId, s.book.started, front) && n < ev.finalId
         && MayFollow(s.venue, n, s.book.started || front != [], ev)
      then Followed(s, front + [ev], Step(d.session, r.applied + d.applied))
      else |r.applied + d.applied| < |front| + 1
  {
    var r := Run(s, Diffs(front));
    var d := OnDiff(r.session, ev);
    OnlyOneApplied(r.session, ev);
    if Unbroken(s.venue, s.book.lastId, s.book.started, front) {
      LiveDiffIsDecided(r.session, ev);
      EventsConcat(r.applied, d.applied);
      assert |Events(r.applied)| == |front|;
    }
  }

  lemma OnlyOneApplied(s: Session, ev: DepthEvent)
    ensures |OnDiff(s, ev).applied| <= 1
  {
  }

  // ---- A snapshot and what was kept ----

  /** The diffs that reach past an id. */
  function Past(evs: seq<DepthEvent>, id: int): seq<DepthEvent> {
    if evs == [] then []
    else (if evs[0].finalId > id then [evs[0]] else []) + Past(evs[1..], id)
  }

  lemma UnbrokenTail(venue: Venue, n: int, started: bool, ev: DepthEvent, rest: seq<DepthEvent>)
    requires Unbroken(venue, n, started, [ev] + rest)
    ensures n < ev.finalId && MayFollow(venue, n, started, ev) && Unbroken(venue, ev.finalId, true, rest)
    ensures Before(n, [ev] + rest, |rest| + 1) == Before(ev.finalId, rest, |rest|)
  {
    var evs := [ev] + rest;
    assert ComesNext(venue, n, started, evs, 0);
    forall i | 0 <= i < |rest| ensures ComesNext(venue, ev.finalId, true, rest, i) {
      assert ComesNext(venue, n, started, evs, i + 1);
      ShiftedBefore(n, ev, rest, i);
    }
    ShiftedBefore(n, ev, rest, |rest|);
  }

  lemma ShiftedBefore(n: int, ev: DepthEvent, rest: seq<DepthEvent>, i: nat)
    requires i <= |rest|
    ensures Before(n, [ev] + rest, i + 1) == Before(ev.finalId, rest, i)
    ensures i < |rest| ==> ([ev] + rest)[i + 1] == rest[i]
  {
  }

  /** A drain applies the front diff when it may follow the book. */
  lemma DrainFollowsOne(s: Session, id: Uint64)
    requires IsLive(s) && s.buffer != [] && id < s.buffer[0].finalId
    requires s.book.lastId < s.buffer[0].finalId
    requires MayFollow(s.venue, s.book.lastId, s.book.started, s.buffer[0])
    ensures var t := ApplyOne(s, s.buffer[0]).(buffer := s.buffer[1..]);
      && IsLive(t) && t.book.lastId == s.buffer[0].finalId && t.book.started && t.venue == s.venue
      && Drain(s, id).session == Drain(t, id).session
      && Events(Drain(s, id).applied) == [s.buffer[0]] + Events(Drain(t, id).applied)
  {
    var ev := s.buffer[0];
    var t := ApplyOne(s, ev).(buffer := s.buffer[1..]);
    LiveDiffIsDecided(s, ev);
    FirstEvent(AppliedDiff(ev, t.book), Drain(t, id).applied);
  }

  lemma FirstEvent(a: AppliedDiff, rest: seq<AppliedDiff>)
    ensures Events([a] + rest) == [a.ev] + Events(rest)
  {
  }

  /** A drain that finds an unbroken stream past the snapshot applies all of it and leaves nothing. */
  lemma {:induction false} DrainFollows(s: Session, id: Uint64)
    requires IsLive(s) && id <= s.book.lastId
    requires Unbroken(s.venue, s.book.lastId, s.book.started, Past(s.buffer, id))
    ensures var r, ahead := Drain(s, id), Past(s.buffer, id);
      && Events(r.applied) == ahead && IsLive(r.session) && r.session.buffer == []
      && r.session.book.lastId == Before(s.book.lastId, ahead, |ahead|)
    decreases |s.buffer|
  {
    if s.buffer != [] {
      var ev, rest := s.buffer[0], s.buffer[1..];
      if ev.finalId <= id {
        assert [] + Past(rest, id) == Past(rest, id);
        DrainFollows(s.(buffer := rest), id);
      } else {
        UnbrokenTail(s.venue, s.book.lastId, s.book.started, ev, Past(rest, id));
        DrainFollowsOne(s, id);
        DrainFollows(ApplyOne(s, ev).(buffer := rest), id);
      }
    }
  }

  /** A snapshot at `id` makes a session live again when the kept diffs that reach past it are an unbroken
      stream from it: all of them are applied and nothing is kept. */
  lemma SnapshotBridges(s: Session, bids: seq<Level>, asks: seq<Level>, id: Uint64)
    requires Unbroken(s.venue, id, false, Past(s.buffer, id))
    ensures var r, ahead := Perform(s, Snapshot(bids, asks, id)), Past(s.buffer, id);
      && Events(r.applied) == ahead && IsLive(r.session) && r.session.buffer == []
      && r.session.book.lastId == Before(id, ahead, |ahead|)
  {
    DrainFollows(Reseed(s, bids, asks, id), id);
  }

  // ---- What a step needs to apply anything ----

  lemma SeedOutlivesDiff(s: Session, ev: DepthEvent)
    ensures OnDiff(s, ev).session.book.initialized ==> s.book.initialized
    ensures OnDiff(s, ev).applied != [] ==> IsLive(s)
  {
  }

  /** A step that applies a diff is a snapshot, or a diff that met a live session. */
  lemma AppliesOnlyWhenLive(s: Session, op: Op)
    requires Perform(s, op).applied != []
    ensures op.Snapshot? || (op.Diff? && IsLive(s))
  {
    if op.Diff? {
      SeedOutlivesDiff(s, op.ev);
    }
  }
}
