/** Periodic publishing on a millisecond clock of 32 bits. */
module Schedule {

  const WRAP := 0x1_0000_0000
  type Milliseconds = t: nat | t < 0x1_0000_0000

  datatype Scheduled = Scheduled(lastExecution: Milliseconds, timeBetweenPublish: Milliseconds)

  /** `is_time_to_execute_now`: a subtraction of unsigned 32-bit numbers, which wraps. */
  predicate Due(s: Scheduled, now: Milliseconds) {
    (now - s.lastExecution) % WRAP >= s.timeBetweenPublish
  }

  // ---------------------------------------------------------------- polls in real time

  /** The clock at a real time. */
  function Clock(t: nat): Milliseconds {
    t % WRAP
  }

  /** The real times at which polls at the times `polls` publish, the last publish having been at `last`. */
  function PublishTimes(last: nat, period: Milliseconds, polls: seq<nat>): seq<nat>
    decreases |polls|
  {
    if polls == [] then []
    else if Due(Scheduled(Clock(last), period), Clock(polls[0])) then
      [polls[0]] + PublishTimes(polls[0], period, polls[1..])
    else PublishTimes(last, period, polls[1..])
  }

  /** When the last publish was, after these polls. */
  function LastPublish(last: nat, period: Milliseconds, polls: seq<nat>): nat {
    var p := PublishTimes(last, period, polls);
    if p == [] then last else p[|p| - 1]
  }

  /** Whether the `j`-th poll publishes. */
  predicate DueAt(last: nat, period: Milliseconds, polls: seq<nat>, j: nat)
    requires j < |polls|
  {
    Due(Scheduled(Clock(LastPublish(last, period, polls[..j])), period), Clock(polls[j]))
  }

  lemma {:induction false} PublishConcat(last: nat, period: Milliseconds, a: seq<nat>, b: seq<nat>)
    ensures PublishTimes(last, period, a + b) == PublishTimes(last, period, a)
        + PublishTimes(LastPublish(last, period, a), period, b)
    decreases |a|
  {
    if a == [] {
      assert a + b == b;
    } else {
      assert (a + b)[0] == a[0] && (a + b)[1..] == a[1..] + b;
      PublishConcat(if Due(Scheduled(Clock(last), period), Clock(a[0])) then a[0] else last, period, a[1..], b);
    }
  }

  /** One more poll. */
  lemma {:induction false} PublishMore(last: nat, period: Milliseconds, polls: seq<nat>, j: nat)
    requires j < |polls|
    ensures PublishTimes(last, period, polls[..j + 1])
         == PublishTimes(last, period, polls[..j]) + (if DueAt(last, period, polls, j) then [polls[j]] else [])
    ensures LastPublish(last, period, polls[..j + 1])
         == if DueAt(last, period, polls, j) then polls[j] else LastPublish(last, period, polls[..j])
  {
    assert polls[..j + 1] == polls[..j] + [polls[j]];
    PublishConcat(last, period, polls[..j], [polls[j]]);
    assert [polls[j]][1..] == [];
  }

  /** Each poll at most `d` after the one before, the first at most `d` after `prev`. */
  predicate Spaced(prev: nat, d: nat, polls: seq<nat>)
    decreases |polls|
  {
    polls != [] ==> prev <= polls[0] <= prev + d && Spaced(polls[0], d, polls[1..])
  }

  /** Neighbouring times at least `lo` and less than `hi` apart. */
  predicate Apart(times: seq<nat>, lo: nat, hi: nat) {
    forall i | 0 <= i < |times| - 1 :: times[i] + lo <= times[i + 1] < times[i] + hi
  }

  predicate Separate(times: seq<nat>, lo: nat) {
    forall i | 0 <= i < |times| - 1 :: times[i] + lo <= times[i + 1]
  }

  lemma {:induction false} Elapsed(last: nat, now: nat)
    requires last <= now
    ensures (Clock(now) - Clock(last)) % WRAP == (now - last) % WRAP
  {
  }

  lemma {:induction false} DueWhen(last: nat, period: Milliseconds, now: nat)
    requires last <= now
    ensures Due(Scheduled(Clock(last), period), Clock(now)) ==> now >= last + period
    ensures now - last < WRAP ==> (Due(Scheduled(Clock(last), period), Clock(now)) <==> now >= last + period)
  {
  }

  /** Whatever the polls, publishes are at least one period apart, across every wrap of the clock. */
  lemma {:induction false} AtLeastPeriodApart(last: nat, period: Milliseconds, polls: seq<nat>, d: nat)
    requires Spaced(last, d, polls)
    ensures Separate([last] + PublishTimes(last, period, polls), period)
  {
    LowerFrom(last, last, period, polls, d);
  }

  lemma {:induction false} LowerFrom(last: nat, prev: nat, period: Milliseconds, polls: seq<nat>, d: nat)
    requires last <= prev && Spaced(prev, d, polls)
    ensures Separate([last] + PublishTimes(last, period, polls), period)
    decreases |polls|
  {
    if polls != [] {
      DueWhen(last, period, polls[0]);
      if Due(Scheduled(Clock(last), period), Clock(polls[0])) {
        LowerFrom(polls[0], polls[0], period, polls[1..], d);
        var q := [polls[0]] + PublishTimes(polls[0], period, polls[1..]);
        assert Separate(q, period) && q[0] >= last + period;
        assert Separate([last] + q, period);
        assert [last] + PublishTimes(last, period, polls) == [last] + q;
      } else {
        LowerFrom(last, polls[0], period, polls[1..], d);
      }
    }
  }

  /** Polled at least every `d` milliseconds, publishes are less than `period + d` apart, and after every poll less than
      a period has passed since the last one, provided that the clock cannot wrap in between. */
  lemma {:induction false} PublishesInTime(last: nat, prev: nat, period: Milliseconds, polls: seq<nat>, d: nat)
    requires period > 0 && period + d <= WRAP && last <= prev < last + period && Spaced(prev, d, polls)
    ensures Apart([last] + PublishTimes(last, period, polls), period, period + d)
    ensures polls != [] ==> polls[|polls| - 1] < LastPublish(last, period, polls) + period
    decreases |polls|
  {
    if polls != [] {
      DueWhen(last, period, polls[0]);
      if Due(Scheduled(Clock(last), period), Clock(polls[0])) {
        PublishesInTime(polls[0], polls[0], period, polls[1..], d);
        var p, q := [last] + PublishTimes(last, period, polls), [polls[0]] + PublishTimes(polls[0], period, polls[1..]);
        assert p == [last] + q;
      } else {
        PublishesInTime(last, polls[0], period, polls[1..], d);
      }
    }
  }

  /** After every poll of this row, less than a period has passed since the last publish. */
  predicate Punctual(last: nat, period: Milliseconds, polls: seq<nat>) {
    polls != [] ==> polls[|polls| - 1] < LastPublish(last, period, polls) + period
  }

  ghost predicate AlwaysPunctual(period: Milliseconds, d: nat) {
    forall last: nat, prev: nat, polls: seq<nat> {:trigger Punctual(last, period, polls), Spaced(prev, d, polls)}
      | last <= prev < last + period && Spaced(prev, d, polls) :: Punctual(last, period, polls)
  }

  /** The exact limit: polls at most `d` apart keep publishing in time if and only if `period + d` fits the clock. */
  lemma {:induction false} PunctualExactly(period: Milliseconds, d: nat)
    requires period > 0 && d <= WRAP
    ensures AlwaysPunctual(period, d) <==> period + d <= WRAP
  {
    if period + d <= WRAP {
      forall last: nat, prev: nat, polls: seq<nat> {:trigger Punctual(last, period, polls), Spaced(prev, d, polls)}
        | last <= prev < last + period && Spaced(prev, d, polls)
        ensures Punctual(last, period, polls)
      {
        PublishesInTime(last, prev, period, polls, d);
      }
    } else {
      var polls := [period - 1 + d];
      assert polls[1..] == [];
      assert Spaced(period - 1, d, polls);
      Missed(period, d);
      assert !Punctual(0, period, polls);
    }
  }

  /** A poll that comes just before the clock comes round again is not due. */
  lemma {:induction false} Missed(period: Milliseconds, d: nat)
    requires period > 0 && d <= WRAP < period + d
    ensures PublishTimes(0, period, [period - 1 + d]) == []
  {
  }

  // ---------------------------------------------------------------- a publish outside the schedule

  /** No poll less than a period after `now` is due by the old schedule. */
  ghost predicate NoneEarly(last: nat, period: Milliseconds, polls: seq<nat>, now: nat) {
    forall j | 0 <= j < |polls| :: polls[j] < now + period ==> !Due(Scheduled(Clock(last), period), Clock(polls[j]))
  }

  lemma {:induction false} NotBefore(prev: nat, d: nat, polls: seq<nat>, j: nat)
    requires Spaced(prev, d, polls) && j < |polls|
    ensures prev <= polls[j]
    decreases |polls|
  {
    if j > 0 {
      NotBefore(polls[0], d, polls[1..], j - 1);
    }
  }

  /** The first scheduled publish is the first poll that is due. */
  lemma {:induction false} FirstDue(last: nat, period: Milliseconds, polls: seq<nat>, prev: nat, d: nat, now: nat)
    requires Spaced(prev, d, polls)
    ensures var times := PublishTimes(last, period, polls);
      times == [] || times[0] >= now + period <==> NoneEarly(last, period, polls, now)
    decreases |polls|
  {
    if polls != [] {
      if Due(Scheduled(Clock(last), period), Clock(polls[0])) {
        forall j | 0 <= j < |polls| ensures polls[0] <= polls[j] {
          if j > 0 {
            NotBefore(polls[0], d, polls[1..], j - 1);
          }
        }
      } else {
        FirstDue(last, period, polls[1..], polls[0], d, now);
        hide Due;
        assert forall j | 0 < j < |polls| :: polls[j] == polls[1..][j - 1];
        assert NoneEarly(last, period, polls, now) <==> NoneEarly(last, period, polls[1..], now) by {
          if NoneEarly(last, period, polls[1..], now) {
            forall j | 0 <= j < |polls| && polls[j] < now + period
              ensures !Due(Scheduled(Clock(last), period), Clock(polls[j]))
            {
              assert j == 0 || polls[j] == polls[1..][j - 1];
            }
          }
          if NoneEarly(last, period, polls, now) {
            forall j | 0 <= j < |polls[1..]| && polls[1..][j] < now + period
              ensures !Due(Scheduled(Clock(last), period), Clock(polls[1..][j]))
            {
              assert polls[1..][j] == polls[j + 1];
            }
          }
        }
      }
    }
  }

  lemma {:induction false} SeparateFront(a: nat, times: seq<nat>, lo: nat)
    ensures Separate([a] + times, lo) <==> (times == [] || times[0] >= a + lo) && Separate(times, lo)
  {
    var all := [a] + times;
    assert forall i | 0 <= i < |times| :: all[i + 1] == times[i];
    if Separate(all, lo) {
      forall i | 0 <= i < |times| - 1 ensures times[i] + lo <= times[i + 1] {
        assert all[i + 1] + lo <= all[i + 2];
      }
      assert times != [] ==> all[0] + lo <= all[1];
    }
  }

  /** A publish at `now` that leaves the schedule alone keeps its period to the next one if and only if no poll before
      the end of that period is due by the old schedule. */
  lemma {:induction false} ExtraPublishApart(last: nat, period: Milliseconds, polls: seq<nat>, now: nat, d: nat)
    requires last <= now && Spaced(now, d, polls)
    ensures Separate([now] + PublishTimes(last, period, polls), period) <==> NoneEarly(last, period, polls, now)
  {
    hide *;
    var times := PublishTimes(last, period, polls);
    LowerFrom(last, now, period, polls, d);
    FirstDue(last, period, polls, now, d, now);
    SeparateFront(last, times, period);
    SeparateFront(now, times, period);
  }

  /** A report asked for every 500 ms after one second, and a poll a millisecond later: two reports a millisecond apart.
      */
  lemma {:induction false} ExtraPublishTooEarly()
    ensures PublishTimes(0, 500, [1001]) == [1001] && !Separate([1000] + PublishTimes(0, 500, [1001]), 500)
  {
    assert [1001][1..] == [];
    assert ([1000] + [1001])[0] + 500 > ([1000] + [1001])[1];
  }
}
