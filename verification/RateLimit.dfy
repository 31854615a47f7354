/** The in-memory fixed-window rate limiter. Timestamps are read before the lock is taken; the theorems about
    sequences of calls assume they do not decrease in the order the lock is granted. */
module RateLimit {
  import opened Prelude

  type Key = string

  datatype Window = Window(count: nat, expiresAt: real)

  datatype RateLimitDecision = RateLimitDecision(allowed: bool, remaining: nat, retryAfter: int)

  /** The window a call falls into, with the call counted. */
  function Counted(window: Option<Window>, now: real, seconds: int): Window {
    var w := if window.Some? then window.value else Window(0, now + seconds as real);
    if w.expiresAt <= now then Window(1, now + seconds as real) else w.(count := w.count + 1)
  }

  function Lookup(windows: map<Key, Window>, key: Key): Option<Window> {
    if key in windows then Some(windows[key]) else None
  }

  /** Truncation toward zero, as `int()` of a float. */
  function Truncate(x: real): int {
    if x >= 0.0 then x.Floor else -(-x).Floor
  }

  function Decision(w: Window, now: real, limit: int): RateLimitDecision {
    var whole := Truncate(w.expiresAt - now);
    RateLimitDecision(w.count <= limit, if limit - w.count > 0 then limit - w.count else 0,
                      if whole > 1 then whole else 1)
  }

  class MemoryFixedWindowRateLimiter {
    var windows: map<Key, Window>

    constructor ()
      ensures windows == map[]
    {
      windows := map[];
    }

    method Consume(key: Key, limit: int, seconds: int, now: real) returns (d: RateLimitDecision)
      modifies this
      ensures windows == old(windows)[key := Counted(Lookup(old(windows), key), now, seconds)]
      ensures d == Decision(windows[key], now, limit)
      ensures d.allowed <==> windows[key].count <= limit
      ensures d.remaining == if windows[key].count < limit then limit - windows[key].count else 0
      ensures windows[key] == (if key in old(windows) && now < old(windows)[key].expiresAt
                               then Window(old(windows)[key].count + 1, old(windows)[key].expiresAt)
                               else Window(1, now + seconds as real))
    {
      var count, expiresAt := 0, now + seconds as real;
      if key in windows {
        count, expiresAt := windows[key].count, windows[key].expiresAt;
      }
      if expiresAt <= now {
        count, expiresAt := 0, now + seconds as real;
      }
      count := count + 1;
      windows := windows[key := Window(count, expiresAt)];
      var whole := Truncate(expiresAt - now);
      d := RateLimitDecision(count <= limit, if limit - count > 0 then limit - count else 0,
                             if whole > 1 then whole else 1);
    }
  }

  // ---------------------------------------------------------------------------------------------------------------
  // Sequences of calls

  datatype Call = Call(key: Key, now: real)

  ghost predicate InOrder(calls: seq<Call>) {
    forall i, j | 0 <= i < j < |calls| :: calls[i].now <= calls[j].now
  }

  /** How many of the calls for `key` the limiter answers with an allowing decision, starting from `windows`. */
  function Allowed(windows: map<Key, Window>, calls: seq<Call>, key: Key, limit: int, seconds: int): nat
    decreases |calls|
  {
    if calls == [] then 0
    else
      var w := Counted(Lookup(windows, calls[0].key), calls[0].now, seconds);
      (if calls[0].key == key && Decision(w, calls[0].now, limit).allowed then 1 else 0)
      + Allowed(windows[calls[0].key := w], calls[1..], key, limit, seconds)
  }

  function Room(window: Window, limit: int): nat {
    if window.count < limit then limit - window.count else 0
  }

  function CallsFor(calls: seq<Call>, key: Key): nat
    decreases |calls|
  {
    if calls == [] then 0 else (if calls[0].key == key then 1 else 0) + CallsFor(calls[1..], key)
  }

  /** The windows after the calls. */
  function After(windows: map<Key, Window>, calls: seq<Call>, seconds: int): map<Key, Window>
    decreases |calls|
  {
    if calls == [] then windows
    else
      var c := calls[0];
      After(windows[c.key := Counted(Lookup(windows, c.key), c.now, seconds)], calls[1..], seconds)
  }

  lemma {:induction false} OneMoreCall(windows: map<Key, Window>, calls: seq<Call>, c: Call, key: Key, limit: int,
                                       seconds: int)
    ensures
      var before := After(windows, calls, seconds);
      var w := Counted(Lookup(before, c.key), c.now, seconds);
      && After(windows, calls + [c], seconds) == before[c.key := w]
      && Allowed(windows, calls + [c], key, limit, seconds) ==
         Allowed(windows, calls, key, limit, seconds)
         + (if c.key == key && Decision(w, c.now, limit).allowed then 1 else 0)
    decreases |calls|
  {
    if calls == [] {
      assert calls + [c] == [c] && [c][1..] == [];
    } else {
      assert (calls + [c])[0] == calls[0] && (calls + [c])[1..] == calls[1..] + [c];
      OneMoreCall(windows[calls[0].key := Counted(Lookup(windows, calls[0].key), calls[0].now, seconds)], calls[1..], c,
                  key, limit, seconds);
    }
  }

  lemma {:induction false} CallsForOneMore(calls: seq<Call>, c: Call)
    ensures CallsFor(calls + [c], c.key) == CallsFor(calls, c.key) + 1
    decreases |calls|
  {
    if calls == [] {
      assert calls + [c] == [c] && [c][1..] == [];
    } else {
      assert (calls + [c])[0] == calls[0] && (calls + [c])[1..] == calls[1..] + [c];
      CallsForOneMore(calls[1..], c);
    }
  }

  /** Within the current window exactly the first calls are allowed, until the limit is used up. */
  lemma {:induction false} WithinWindow(windows: map<Key, Window>, calls: seq<Call>, key: Key, limit: int, seconds: int)
    requires seconds > 0 && key in windows
    requires forall c | c in calls && c.key == key :: c.now < windows[key].expiresAt
    ensures Allowed(windows, calls, key, limit, seconds) ==
            if CallsFor(calls, key) < Room(windows[key], limit) then CallsFor(calls, key) else Room(windows[key], limit)
    decreases |calls|
  {
    if calls != [] {
      var w := Counted(Lookup(windows, calls[0].key), calls[0].now, seconds);
      assert calls[0] in calls;
      WithinWindow(windows[calls[0].key := w], calls[1..], key, limit, seconds);
    }
  }

  lemma {:induction false} WindowAfter(windows: map<Key, Window>, calls: seq<Call>, key: Key, seconds: int)
    requires seconds > 0 && key in windows
    requires forall c | c in calls && c.key == key :: c.now < windows[key].expiresAt
    ensures key in After(windows, calls, seconds)
    ensures After(windows, calls, seconds)[key] ==
            windows[key].(count := windows[key].count + CallsFor(calls, key))
    decreases |calls|
  {
    if calls != [] {
      var w := Counted(Lookup(windows, calls[0].key), calls[0].now, seconds);
      assert calls[0] in calls;
      WindowAfter(windows[calls[0].key := w], calls[1..], key, seconds);
    }
  }

  /** The decision on a call inside a window that began with an earlier call of the key: allowed exactly when fewer
      calls than the limit came before it, and then `remaining` counts the further calls of the window that will be
      allowed. */
  lemma DecisionInWindow(windows: map<Key, Window>, first: Call, calls: seq<Call>, c: Call, rest: seq<Call>, limit: int,
                         seconds: int)
    requires seconds > 0 && c.key == first.key
    requires first.key in windows ==> windows[first.key].expiresAt <= first.now
    requires forall d | d in [first] + calls + [c] + rest && d.key == c.key :: d.now < first.now + seconds as real
    ensures
      var after := After(windows, [first] + calls + [c], seconds);
      && c.key in after
      && var d := Decision(after[c.key], c.now, limit);
      && (d.allowed <==> 1 + CallsFor(calls, c.key) < limit)
      && d.remaining == (if 2 + CallsFor(calls, c.key) < limit then limit - 2 - CallsFor(calls, c.key) else 0)
      && Allowed(after, rest, c.key, limit, seconds) ==
         if CallsFor(rest, c.key) < d.remaining then CallsFor(rest, c.key) else d.remaining
  {
    var key := c.key;
    var begun := windows[key := Window(1, first.now + seconds as real)];
    assert ([first] + calls + [c])[1..] == calls + [c];
    assert After(windows, [first] + calls + [c], seconds) == After(begun, calls + [c], seconds);
    forall d | d in calls + [c] && d.key == key ensures d.now < begun[key].expiresAt {
      assert d in [first] + calls + [c] + rest;
    }
    CallsForOneMore(calls, c);
    WindowAfter(begun, calls + [c], key, seconds);
    forall d | d in rest && d.key == key ensures d.now < begun[key].expiresAt {
      assert d in [first] + calls + [c] + rest;
    }
    WithinWindow(After(begun, calls + [c], seconds), rest, key, limit, seconds);
  }

  /** Up to the end of the next possible window the limit can be used up once more. */
  lemma {:induction false} WithinTwoWindows(windows: map<Key, Window>, calls: seq<Call>, key: Key, limit: int,
                                            seconds: int)
    requires seconds > 0 && limit >= 0 && key in windows && InOrder(calls)
    requires forall c | c in calls && c.key == key :: c.now < windows[key].expiresAt + seconds as real
    ensures Allowed(windows, calls, key, limit, seconds) <= Room(windows[key], limit) + limit
    decreases |calls|
  {
    if calls != [] {
      var c := calls[0];
      assert c in calls;
      var w := Counted(Lookup(windows, c.key), c.now, seconds);
      var windows' := windows[c.key := w];
      assert InOrder(calls[1..]);
      if c.key == key && windows[key].expiresAt <= c.now {
        WithinWindow(windows', calls[1..], key, limit, seconds);
      } else {
        WithinTwoWindows(windows', calls[1..], key, limit, seconds);
      }
    }
  }

  /** Any interval of one window's length, both ends included, holds at most twice the limit of allowed calls for a key,
      whatever came before and whatever other keys do. */
  lemma TwiceTheLimit(windows: map<Key, Window>, calls: seq<Call>, key: Key, limit: int, seconds: int)
    requires seconds > 0 && limit >= 0 && InOrder(calls)
    requires forall c, d | c in calls && d in calls :: d.now - c.now <= seconds as real
    ensures Allowed(windows, calls, key, limit, seconds) <= 2 * limit
    decreases |calls|
  {
    if calls != [] {
      var c := calls[0];
      assert c in calls;
      var w := Counted(Lookup(windows, c.key), c.now, seconds);
      assert InOrder(calls[1..]);
      if c.key != key {
        TwiceTheLimit(windows[c.key := w], calls[1..], key, limit, seconds);
      } else {
        forall d | d in calls[1..] ensures d.now < w.expiresAt + seconds as real {
          assert d in calls;
        }
        WithinTwoWindows(windows[key := w], calls[1..], key, limit, seconds);
      }
    }
  }

  /** Every stored window has counted the call that stored it. */
  ghost predicate CountsCalls(windows: map<Key, Window>) {
    forall key | key in windows :: windows[key].count >= 1
  }

  lemma CallKeepsCounts(windows: map<Key, Window>, call: Call, seconds: int)
    requires CountsCalls(windows)
    ensures CountsCalls(windows[call.key := Counted(Lookup(windows, call.key), call.now, seconds)])
  {
  }

  /** In any interval shorter than a window one call less: the window that was open before has counted a call
      already. */
  lemma {:induction false} TwiceTheLimitLessOne(windows: map<Key, Window>, calls: seq<Call>, key: Key, limit: int,
                                                seconds: int)
    requires seconds > 0 && limit >= 1 && InOrder(calls) && CountsCalls(windows)
    requires forall c, d | c in calls && d in calls :: d.now - c.now < seconds as real
    ensures Allowed(windows, calls, key, limit, seconds) <= 2 * limit - 1
    decreases |calls|
  {
    if calls != [] {
      var c := calls[0];
      assert c in calls;
      var w := Counted(Lookup(windows, c.key), c.now, seconds);
      if c.key != key {
        assert InOrder(calls[1..]);
        CallKeepsCounts(windows, c, seconds);
        TwiceTheLimitLessOne(windows[c.key := w], calls[1..], key, limit, seconds);
      } else if key in windows && c.now < windows[key].expiresAt {
        WithinTwoWindows(windows, calls, key, limit, seconds);
      } else {
        forall d | d in calls[1..] ensures d.now < w.expiresAt {
          assert d in calls;
        }
        WithinWindow(windows[key := w], calls[1..], key, limit, seconds);
      }
    }
  }

  /** The allowing decisions among those on the key's calls. */
  function AllowedCount(calls: seq<Call>, decisions: seq<RateLimitDecision>, key: Key): nat
    requires |calls| == |decisions|
  {
    |set k | 0 <= k < |calls| && calls[k].key == key && decisions[k].allowed|
  }

  lemma AllowedCountOneMore(calls: seq<Call>, decisions: seq<RateLimitDecision>, c: Call, d: RateLimitDecision,
                            key: Key)
    requires |calls| == |decisions|
    ensures AllowedCount(calls + [c], decisions + [d], key) ==
            AllowedCount(calls, decisions, key) + (if c.key == key && d.allowed then 1 else 0)
  {
    var before := set k | 0 <= k < |calls| && calls[k].key == key && decisions[k].allowed;
    var longer, more := calls + [c], decisions + [d];
    var after := set k | 0 <= k < |longer| && longer[k].key == key && more[k].allowed;
    assert after == before + (if c.key == key && d.allowed then {|calls|} else {});
  }

  /** The limiter in use: the calls one after another, and how many of those for `key` it allowed. */
  method Serve(limiter: MemoryFixedWindowRateLimiter, calls: seq<Call>, key: Key, limit: int, seconds: int)
      returns (allowed: nat, decisions: seq<RateLimitDecision>)
    modifies limiter
    ensures |decisions| == |calls| && allowed == AllowedCount(calls, decisions, key)
    ensures allowed == Allowed(old(limiter.windows), calls, key, limit, seconds)
    ensures limiter.windows == After(old(limiter.windows), calls, seconds)
    ensures
      && seconds > 0 && limit >= 0 && InOrder(calls)
      && (forall c, d | c in calls && d in calls :: d.now - c.now <= seconds as real)
      ==> allowed <= 2 * limit
    ensures
      && seconds > 0 && limit >= 1 && InOrder(calls) && CountsCalls(old(limiter.windows))
      && (forall c, d | c in calls && d in calls :: d.now - c.now < seconds as real)
      ==> allowed <= 2 * limit - 1
  {
    allowed, decisions := 0, [];
    ghost var start := limiter.windows;
    for k := 0 to |calls|
      invariant |decisions| == k && allowed == AllowedCount(calls[..k], decisions, key)
      invariant allowed == Allowed(start, calls[..k], key, limit, seconds)
      invariant limiter.windows == After(start, calls[..k], seconds)
    {
      OneMoreCall(start, calls[..k], calls[k], key, limit, seconds);
      assert calls[..k + 1] == calls[..k] + [calls[k]];
      var d := limiter.Consume(calls[k].key, limit, seconds, calls[k].now);
      AllowedCountOneMore(calls[..k], decisions, calls[k], d, key);
      decisions := decisions + [d];
      if calls[k].key == key && d.allowed {
        allowed := allowed + 1;
      }
    }
    assert calls[..|calls|] == calls;
    if seconds > 0 && limit >= 0 && InOrder(calls) {
      if forall c, d | c in calls && d in calls :: d.now - c.now <= seconds as real {
        TwiceTheLimit(start, calls, key, limit, seconds);
      }
      if limit >= 1 && CountsCalls(start) && forall c, d | c in calls && d in calls :: d.now - c.now < seconds as real {
        TwiceTheLimitLessOne(start, calls, key, limit, seconds);
      }
    }
  }

  function Repeated(call: Call, n: nat): seq<Call> {
    if n == 0 then [] else [call] + Repeated(call, n - 1)
  }

  lemma {:induction false} RepeatedIs(call: Call, n: nat)
    ensures |Repeated(call, n)| == n && forall c | c in Repeated(call, n) :: c == call
    decreases n
  {
    if n > 0 {
      RepeatedIs(call, n - 1);
    }
  }

  /** One call of the key, and then the others. */
  lemma FirstCall(windows: map<Key, Window>, call: Call, rest: seq<Call>, limit: int, seconds: int)
    ensures
      var w := Counted(Lookup(windows, call.key), call.now, seconds);
      Allowed(windows, [call] + rest, call.key, limit, seconds) ==
      (if w.count <= limit then 1 else 0) + Allowed(windows[call.key := w], rest, call.key, limit, seconds)
  {
    assert ([call] + rest)[1..] == rest;
  }

  /** Calls at one moment inside a window, as long as there is room. */
  lemma {:induction false} AllAllowed(windows: map<Key, Window>, call: Call, n: nat, rest: seq<Call>, limit: int,
                                      seconds: int)
    requires call.key in windows && call.now < windows[call.key].expiresAt && windows[call.key].count + n <= limit
    ensures
      var w := windows[call.key];
      Allowed(windows, Repeated(call, n) + rest, call.key, limit, seconds) ==
      n + Allowed(windows[call.key := w.(count := w.count + n)], rest, call.key, limit, seconds)
    decreases n
  {
    var w := windows[call.key];
    if n == 0 {
      assert Repeated(call, n) + rest == rest;
      assert windows[call.key := w] == windows;
    } else {
      var windows' := windows[call.key := w.(count := w.count + 1)];
      assert Repeated(call, n) + rest == [call] + (Repeated(call, n - 1) + rest);
      FirstCall(windows, call, Repeated(call, n - 1) + rest, limit, seconds);
      AllAllowed(windows', call, n - 1, rest, limit, seconds);
      assert windows'[call.key := w.(count := w.count + n)] == windows[call.key := w.(count := w.count + n)];
    }
  }

  lemma SameKeyTwice(windows: map<Key, Window>, key: Key, v: Window, w: Window)
    ensures windows[key := v][key := w] == windows[key := w]
  {
  }

  /** As many calls as the limit at the moment a new window begins. */
  lemma BurstAllowed(windows: map<Key, Window>, call: Call, limit: nat, rest: seq<Call>, seconds: int)
    requires limit >= 1 && seconds > 0
    requires call.key in windows ==> windows[call.key].expiresAt <= call.now
    ensures
      var after := windows[call.key := Window(limit, call.now + seconds as real)];
      Allowed(windows, Repeated(call, limit) + rest, call.key, limit, seconds) ==
      limit + Allowed(after, rest, call.key, limit, seconds)
  {
    var begun := windows[call.key := Window(1, call.now + seconds as real)];
    assert Repeated(call, limit) + rest == [call] + (Repeated(call, limit - 1) + rest);
    FirstCall(windows, call, Repeated(call, limit - 1) + rest, limit, seconds);
    AllAllowed(begun, call, limit - 1, rest, limit, seconds);
    assert begun[call.key].(count := 1 + (limit - 1)) == Window(limit, call.now + seconds as real);
    SameKeyTwice(windows, call.key, Window(1, call.now + seconds as real), Window(limit, call.now + seconds as real));
  }

  /** The bound for the closed interval is reached, for every limit and length: from a fresh limiter, a burst at 0 and a
      burst exactly one length later are allowed in full. */
  lemma TwiceTheLimitIsReached(key: Key, limit: nat, seconds: int) returns (calls: seq<Call>)
    requires limit >= 1 && seconds > 0
    ensures InOrder(calls) && forall c, d | c in calls && d in calls :: d.now - c.now <= seconds as real
    ensures Allowed(map[], calls, key, limit, seconds) == 2 * limit
  {
    var early, late := Call(key, 0.0), Call(key, seconds as real);
    calls := Repeated(early, limit) + (Repeated(late, limit) + []);
    RepeatedIs(early, limit);
    RepeatedIs(late, limit);
    assert Repeated(late, limit) + [] == Repeated(late, limit);
    forall i | 0 <= i < |calls| ensures calls[i] == if i < limit then early else late {
      if i < limit {
        assert calls[i] in Repeated(early, limit);
      } else {
        assert calls[i] == Repeated(late, limit)[i - limit];
        assert calls[i] in Repeated(late, limit);
      }
    }
    BurstAllowed(map[], early, limit, Repeated(late, limit) + [], seconds);
    BurstAllowed(map[key := Window(limit, seconds as real)], late, limit, [], seconds);
  }

  /** A call starts a new window exactly when the stored one has run out, and then it ends at least one length later. */
  lemma WindowsAreApart(window: Window, now: real, seconds: int)
    requires seconds > 0
    ensures Counted(Some(window), now, seconds).expiresAt != window.expiresAt ==>
              && window.expiresAt <= now
              && Counted(Some(window), now, seconds).expiresAt >= window.expiresAt + seconds as real
              && Counted(Some(window), now, seconds).count == 1
    ensures Counted(Some(window), now, seconds).expiresAt == window.expiresAt <==> now < window.expiresAt
  {
  }

  /** Waiting `retryAfter` seconds and one more always outlasts the window: the next call is the first of a new one. */
  lemma RetryAfterPlusOne(window: Option<Window>, now: real, seconds: int, limit: int, later: real)
    requires seconds > 0
    requires
      var w := Counted(window, now, seconds);
      later >= now + (Decision(w, now, limit).retryAfter + 1) as real
    ensures Counted(Some(Counted(window, now, seconds)), later, seconds).count == 1
    ensures limit >= 1 ==> Decision(Counted(Some(Counted(window, now, seconds)), later, seconds), later, limit).allowed
  {
  }

  /** Waiting exactly `retryAfter` seconds is enough just when what was left of the window was a whole number of
      seconds or less than one. */
  lemma RetryAfterSufficesIff(window: Option<Window>, now: real, seconds: int, limit: int)
    requires seconds > 0
    ensures
      var w := Counted(window, now, seconds);
      var left := w.expiresAt - now;
      var later := now + Decision(w, now, limit).retryAfter as real;
      Counted(Some(w), later, seconds).count == 1 <==> left < 1.0 || left.Floor as real == left
  {
  }
}
