/** Some of the frames of a transfer: what the receiver is left with when the others have not come yet, or never come.
    */
module Halfway {
  import opened Types
  import opened RxBuffer
  import opened Receiver
  import opened Reassembly

  lemma {:induction false} FeedNothing(view: Option<RxState>, pool: Pool, nodeId: byte, accept: Acceptance)
    ensures Feed(view, pool, nodeId, [], accept) == Fed(view, pool, [])
  {
  }

  lemma {:induction false} FeedConcat(view: Option<RxState>, pool: Pool, nodeId: byte, a: seq<Event>, b: seq<Event>,
                                      accept: Acceptance)
    ensures var r := Feed(view, pool, nodeId, a, accept); var q := Feed(r.view, r.pool, nodeId, b, accept);
      Feed(view, pool, nodeId, a + b, accept) == Fed(q.view, q.pool, r.log + q.log)
    decreases |a|
  {
    hide OnFrame;
    hide Feed;
    if a == [] {
      assert a + b == b;
      FeedNothing(view, pool, nodeId, accept);
    } else {
      assert (a + b)[0] == a[0] && (a + b)[1..] == a[1..] + b;
      var r := OnFrame(view, pool, nodeId, a[0], accept);
      FeedStep(view, pool, nodeId, a + b, accept);
      FeedStep(view, pool, nodeId, a, accept);
      FeedConcat(r.view, r.pool, nodeId, a[1..], b, accept);
    }
  }

  /** The receiver after some frames of a transfer, the events that bring the others, and the memory for them. */
  ghost predicate Resumes(r: Fed, nodeId: byte, events: seq<Event>, accept: Acceptance, x: Sending, base: nat, at: nat,
                          lens: seq<nat>, toggle: bool, start: Timestamp, capacity: nat, usage: int) {
    && r.view.Some? && Silent(r.log)
    && Continuing(r.view.value, nodeId, events, accept, x, base, at, lens, toggle, start)
    && r.pool.capacity == capacity && r.pool.usage == usage + |r.view.value.blocks| && r.pool.usage <= capacity
    && Enough(r.pool, |r.view.value.blocks|, at, lens)
  }

  lemma {:induction false} AsManyEvents(s: RxState, nodeId: byte, events: seq<Event>, accept: Acceptance, x: Sending,
                                        base: nat, at: nat, lens: seq<nat>, toggle: bool, start: Timestamp)
    requires Continuing(s, nodeId, events, accept, x, base, at, lens, toggle, start)
    ensures |events| == |lens|
  {
    hide Mid;
  }

  lemma {:induction false} GoesNowhere(s: RxState, pool: Pool, nodeId: byte, events: seq<Event>, accept: Acceptance,
                                       x: Sending, base: nat, at: nat, lens: seq<nat>, toggle: bool, start: Timestamp)
    requires Continuing(s, nodeId, events, accept, x, base, at, lens, toggle, start)
    requires pool.usage <= pool.capacity && Enough(pool, |s.blocks|, at, lens)
    ensures Resumes(Feed(Some(s), pool, nodeId, events[..0], accept), nodeId, events[0..], accept, x, base, at,
                    lens[0..], toggle, start, pool.capacity, pool.usage - |s.blocks|)
  {
    hide Continuing;
    hide Enough;
    hide Feed;
    assert events[..0] == [] && events[0..] == events && lens[0..] == lens;
    FeedNothing(Some(s), pool, nodeId, accept);
  }

  /** The next `m` frames of a transfer under way, but not the last. */
  lemma {:induction false} GoesOn(s: RxState, pool: Pool, nodeId: byte, events: seq<Event>, accept: Acceptance,
                                  x: Sending, base: nat, at: nat, lens: seq<nat>, toggle: bool, start: Timestamp,
                                  m: nat)
    returns (at': nat, toggle': bool)
    requires Continuing(s, nodeId, events, accept, x, base, at, lens, toggle, start) && m < |lens|
    requires pool.usage <= pool.capacity && Enough(pool, |s.blocks|, at, lens)
    ensures m <= |events|
    ensures Resumes(Feed(Some(s), pool, nodeId, events[..m], accept), nodeId, events[m..], accept, x, base, at',
                    lens[m..], toggle', start, pool.capacity, pool.usage - |s.blocks|)
    decreases m
  {
    hide *;
    AsManyEvents(s, nodeId, events, accept, x, base, at, lens, toggle, start);
    if m == 0 {
      at', toggle' := at, toggle;
      GoesNowhere(s, pool, nodeId, events, accept, x, base, at, lens, toggle, start);
    } else {
      GoesOnce(s, pool, nodeId, events, accept, x, base, at, lens, toggle, start);
      var r := OnFrame(Some(s), pool, nodeId, events[0], accept);
      at', toggle' := GoesOn(r.view.value, r.pool, nodeId, events[1..], accept, x, base, at + lens[0], lens[1..],
                             !toggle, start, m - 1);
      assert lens[1..][m - 1..] == lens[m..];
      ResumesLater(Some(s), pool, nodeId, events, accept, x, base, at', lens[m..], toggle', start, pool.capacity,
                   pool.usage - |s.blocks|, m);
    }
  }

  /** One frame. */
  lemma {:induction false} GoesOnce(s: RxState, pool: Pool, nodeId: byte, events: seq<Event>, accept: Acceptance,
                                    x: Sending, base: nat, at: nat, lens: seq<nat>, toggle: bool, start: Timestamp)
    requires Continuing(s, nodeId, events, accept, x, base, at, lens, toggle, start) && |lens| > 1
    requires pool.usage <= pool.capacity && Enough(pool, |s.blocks|, at, lens)
    ensures events != []
    ensures var r := OnFrame(Some(s), pool, nodeId, events[0], accept);
      && r.delivered == None && r.view.Some?
      && Continuing(r.view.value, nodeId, events[1..], accept, x, base, at + lens[0], lens[1..], !toggle, start)
      && r.pool.capacity == pool.capacity && r.pool.usage - |r.view.value.blocks| == pool.usage - |s.blocks|
      && r.pool.usage <= r.pool.capacity && Enough(r.pool, |r.view.value.blocks|, at + lens[0], lens[1..])
  {
    hide OnFrame;
    hide Receive;
    hide Continuing;
    hide After;
    NextFits(pool, |s.blocks|, at, lens);
    Continues(s, pool, nodeId, events, accept, x, base, at, lens, toggle, start);
  }

  lemma {:induction false} ResumesLater(view: Option<RxState>, pool: Pool, nodeId: byte, events: seq<Event>,
                                        accept: Acceptance, x: Sending, base: nat, at: nat, lens: seq<nat>,
                                        toggle: bool, start: Timestamp, capacity: nat, usage: int, m: nat)
    requires 1 <= m <= |events|
    requires var r := OnFrame(view, pool, nodeId, events[0], accept);
      && r.delivered == None
      && Resumes(Feed(r.view, r.pool, nodeId, events[1..][..m - 1], accept), nodeId, events[1..][m - 1..], accept, x,
                 base, at, lens, toggle, start, capacity, usage)
    ensures Resumes(Feed(view, pool, nodeId, events[..m], accept), nodeId, events[m..], accept, x, base, at, lens,
                    toggle, start, capacity, usage)
  {
    hide OnFrame;
    hide Feed;
    hide Continuing;
    hide Enough;
    assert events[..m][1..] == events[1..][..m - 1] && events[1..][m - 1..] == events[m..];
    FeedStep(view, pool, nodeId, events[..m], accept);
  }

  lemma {:induction false} NextFits(pool: Pool, k: nat, at: nat, lens: seq<nat>)
    requires |lens| > 1 && Enough(pool, k, at, lens)
    ensures After(k, at, lens[0]) - k <= pool.capacity - pool.usage
  {
  }

  /** The first `m` frames of a transfer that the receiver can start on, but not the last. */
  lemma {:induction false} HalfReceived(view: Option<RxState>, pool: Pool, nodeId: byte, events: seq<Event>,
                                        accept: Acceptance, x: Sending, lens: seq<nat>, m: nat)
    returns (at: nat, toggle: bool)
    requires Conveys(events, x, lens) && BeforeEnd(x, lens) <= MAX_PAYLOAD && 1 <= m < |lens|
    requires Wanted(x, nodeId, accept) && Receptive(view, x.tid, events[0].now)
    requires pool.usage + Opening(view) <= pool.capacity && RoomFor(pool, view, lens)
    ensures m <= |events|
    ensures Resumes(Feed(view, pool, nodeId, events[..m], accept), nodeId, events[m..], accept, x, 0, at, lens[m..],
                    toggle, events[0].now, pool.capacity, pool.usage + Opening(view))
  {
    hide *;
    StartsWith(view, pool, nodeId, events, accept, x, lens);
    var r := OnFrame(view, pool, nodeId, events[0], accept);
    at, toggle := GoesOn(r.view.value, r.pool, nodeId, events[1..], accept, x, 0, lens[0], lens[1..], true,
                         events[0].now, m - 1);
    assert lens[1..][m - 1..] == lens[m..];
    ResumesLater(view, pool, nodeId, events, accept, x, 0, at, lens[m..], toggle, events[0].now, pool.capacity,
                 pool.usage + Opening(view), m);
  }

  lemma {:induction false} StartsWith(view: Option<RxState>, pool: Pool, nodeId: byte, events: seq<Event>,
                                      accept: Acceptance, x: Sending, lens: seq<nat>)
    requires Conveys(events, x, lens) && BeforeEnd(x, lens) <= MAX_PAYLOAD
    requires Wanted(x, nodeId, accept) && Receptive(view, x.tid, events[0].now)
    requires pool.usage + Opening(view) <= pool.capacity && RoomFor(pool, view, lens)
    ensures |events| == |lens| && lens[0] <= |x.payload|
    ensures var r := OnFrame(view, pool, nodeId, events[0], accept);
      && r.delivered == None && r.view.Some?
      && Continuing(r.view.value, nodeId, events[1..], accept, x, 0, lens[0], lens[1..], true, events[0].now)
      && r.pool.capacity == pool.capacity && r.pool.usage - |r.view.value.blocks| == pool.usage + Opening(view)
      && r.pool.usage <= r.pool.capacity && Enough(r.pool, |r.view.value.blocks|, lens[0], lens[1..])
  {
    hide OnFrame;
    hide Continuing;
    hide Receptive;
    hide Opening;
    hide Wanted;
    hide ChainAt;
    FirstPiece(events, x, lens);
    Starts(view, pool, nodeId, events, accept, x, lens);
    hide Pieces;
    hide StartPiece;
    hide Cuts;
  }
}
