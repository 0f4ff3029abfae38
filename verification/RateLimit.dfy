/** The fixed-window limiter: one counter per caller, and a sweep that bounds the map. Every caller of it
    passes the same window length; limits differ per endpoint. */
module RateLimit {
  import opened Sets
  import opened Wrappers

  datatype Window = Window(started: int, count: int)

  type Table = map<string, Window>

  const SWEEP_ABOVE := 20000

  predicate Expired(w: Window, now: int, length: int) {
    now - w.started >= length
  }

  function Swept(rate: Table, now: int, length: int): Table {
    map key | key in rate && !Expired(rate[key], now, length) :: rate[key]
  }

  /** The table as the call finds it: swept first, when it has grown too large and sweeping is on. */
  function Found(rate: Table, now: int, length: int, sweeping: bool): Table {
    if sweeping && |rate| > SWEEP_ABOVE then Swept(rate, now, length) else rate
  }

  predicate Opens(rate: Table, key: string, now: int, length: int) {
    key !in rate || Expired(rate[key], now, length)
  }

  predicate Allows(rate: Table, key: string, limit: int, now: int, length: int) {
    limit > 0 && (Opens(rate, key, now, length) || rate[key].count < limit)
  }

  function After(rate: Table, key: string, limit: int, now: int, length: int): Table {
    if !Allows(rate, key, limit, now, length) then rate
    else if Opens(rate, key, now, length) then rate[key := Window(now, 1)]
    else rate[key := rate[key].(count := rate[key].count + 1)]
  }

  /** The limiter itself. */
  class Limiter {
    var rate: Table

    constructor ()
      ensures rate == map[]
    {
      rate := map[];
    }

    method Allow(key: string, limit: int, window: int, now: int) returns (ok: bool)
      modifies this
      ensures limit <= 0 ==> !ok && rate == old(rate)
      ensures limit > 0 ==>
        var found := Found(old(rate), now, window, true);
        ok == Allows(found, key, limit, now, window) && rate == After(found, key, limit, now, window)
    {
      if limit <= 0 {
        return false;
      }
      if |rate| > SWEEP_ABOVE {
        Sweep(window, now);
      }
      if key !in rate || now - rate[key].started >= window {
        rate := rate[key := Window(now, 1)];
        return true;
      }
      if rate[key].count >= limit {
        return false;
      }
      rate := rate[key := rate[key].(count := rate[key].count + 1)];
      return true;
    }

    /** Visits every entry once and deletes the ones whose window is over. */
    method Sweep(window: int, now: int)
      modifies this
      ensures rate == Swept(old(rate), now, window)
    {
      var names := rate.Keys;
      while names != {}
        invariant names <= rate.Keys <= old(rate).Keys
        invariant forall key :: key in rate ==> rate[key] == old(rate)[key]
        invariant forall key :: key in old(rate) && key !in names ==>
          (key in rate <==> !Expired(old(rate)[key], now, window))
        decreases |names|
      {
        var name :| name in names;
        names := names - {name};
        if now - rate[name].started >= window {
          rate := rate - {name};
        }
      }
    }
  }

  // ----- Histories

  datatype Call = Call(key: string, limit: int, now: int)

  /** The table after the calls, and which of them were allowed, by position. */
  datatype History = History(rate: Table, allowed: set<nat>)

  function Stepped(before: History, call: Call, position: nat, length: int, sweeping: bool): History {
    if call.limit <= 0 then before
    else
      var found := Found(before.rate, call.now, length, sweeping);
      History(After(found, call.key, call.limit, call.now, length),
              if Allows(found, call.key, call.limit, call.now, length) then before.allowed + {position}
              else before.allowed)
  }

  function Run(calls: seq<Call>, length: int, sweeping: bool): History {
    if calls == [] then History(map[], {})
    else Stepped(Run(calls[..|calls| - 1], length, sweeping), calls[|calls| - 1], |calls| - 1, length, sweeping)
  }

  predicate Timed(calls: seq<Call>) {
    forall i, j :: 0 <= i < j < |calls| ==> calls[i].now <= calls[j].now
  }

  // ----- The sweep changes nothing

  /** What a swept table may lack of the full one: entries whose window is over by `now`. */
  predicate Covers(rate: Table, full: Table, now: int, length: int) {
    && rate.Keys <= full.Keys
    && (forall key :: key in rate ==> rate[key] == full[key])
    && (forall key :: key in full && key !in rate ==> Expired(full[key], now, length))
  }

  lemma CoversStep(rate: Table, full: Table, call: Call, length: int)
    requires 0 < length && Covers(rate, full, call.now, length)
    ensures
      var found := Found(rate, call.now, length, true);
      && Allows(found, call.key, call.limit, call.now, length) == Allows(full, call.key, call.limit, call.now, length)
      && Covers(After(found, call.key, call.limit, call.now, length),
                After(full, call.key, call.limit, call.now, length), call.now, length)
  {
    var found := Found(rate, call.now, length, true);
    assert Covers(found, full, call.now, length);
  }

  lemma CoversLater(rate: Table, full: Table, now: int, later: int, length: int)
    requires Covers(rate, full, now, length) && now <= later
    ensures Covers(rate, full, later, length)
  {
  }

  /** With one window length and a clock that does not run backwards, sweeping changes no decision. */
  lemma {:induction false} SweepIsInvisible(calls: seq<Call>, length: int)
    requires 0 < length && Timed(calls)
    ensures Run(calls, length, true).allowed == Run(calls, length, false).allowed
    ensures calls != [] ==>
              Covers(Run(calls, length, true).rate, Run(calls, length, false).rate, calls[|calls| - 1].now, length)
  {
    if calls != [] {
      var front, call := calls[..|calls| - 1], calls[|calls| - 1];
      SweepIsInvisible(front, length);
      var swept, full := Run(front, length, true), Run(front, length, false);
      if front != [] {
        CoversLater(swept.rate, full.rate, front[|front| - 1].now, call.now, length);
      }
      CoversStep(swept.rate, full.rate, call, length);
    }
  }

  // ----- At most twice the limit in any window

  /** The allowed calls of one key from `from` up to but not including `from + length`. */
  function Inside(calls: seq<Call>, allowed: set<nat>, key: string, from: int, length: int): set<nat> {
    set i | i in allowed && i < |calls| && calls[i].key == key && from <= calls[i].now < from + length
  }

  predicate ConstantLimit(calls: seq<Call>, key: string, limit: int) {
    forall i :: 0 <= i < |calls| ==> calls[i].key == key ==> calls[i].limit == limit
  }

  /** How many of the key's calls in the interval the current counter leaves room for. */
  predicate Bounded(w: Option<Window>, n: nat, limit: int, from: int, length: int, last: int) {
    && (w.None? ==> n == 0)
    && (w.Some? ==>
          && 1 <= w.value.count <= limit && w.value.started <= last
          && n <= (if w.value.started < from then w.value.count - 1
                   else if w.value.started < from + length then limit - 1 + w.value.count
                   else 2 * limit - 1))
    && (last < from ==> n == 0)
  }

  function Entry(rate: Table, key: string): Option<Window> {
    if key in rate then Some(rate[key]) else None
  }

  lemma BoundedStep(rate: Table, n: nat, n': nat, call: Call, from: int, length: int, last: int)
    requires 0 < length && 0 < call.limit && last <= call.now
    requires Bounded(Entry(rate, call.key), n, call.limit, from, length, last)
    requires n' == n + if Allows(rate, call.key, call.limit, call.now, length) && from <= call.now < from + length
                       then 1 else 0
    ensures Bounded(Entry(After(rate, call.key, call.limit, call.now, length), call.key), n', call.limit, from,
                    length, call.now)
  {
  }

  lemma {:induction false} AllowedArePositions(calls: seq<Call>, length: int, sweeping: bool)
    ensures forall i :: i in Run(calls, length, sweeping).allowed ==> i < |calls|
  {
    if calls != [] {
      AllowedArePositions(calls[..|calls| - 1], length, sweeping);
    }
  }

  predicate Counts(call: Call, key: string, from: int, length: int) {
    call.key == key && from <= call.now < from + length
  }

  lemma InsideGrows(calls: seq<Call>, allowed: set<nat>, key: string, from: int, length: int)
    requires calls != [] && forall i :: i in allowed ==> i < |calls| - 1
    ensures
      var front, last := calls[..|calls| - 1], |calls| - 1;
      && |Inside(calls, allowed, key, from, length)| == |Inside(front, allowed, key, from, length)|
      && |Inside(calls, allowed + {last}, key, from, length)|
         == |Inside(front, allowed, key, from, length)| + if Counts(calls[last], key, from, length) then 1 else 0
  {
    var front, last := calls[..|calls| - 1], |calls| - 1;
    var was := Inside(front, allowed, key, from, length);
    assert Inside(calls, allowed, key, from, length) == was;
    if Counts(calls[last], key, from, length) {
      assert Inside(calls, allowed + {last}, key, from, length) == was + {last};
    } else {
      assert Inside(calls, allowed + {last}, key, from, length) == was;
    }
  }

  /** The interval's count goes up exactly when the last call is the key's, is allowed and falls inside. */
  lemma InsideStep(calls: seq<Call>, before: History, key: string, from: int, length: int)
    requires calls != [] && before == Run(calls[..|calls| - 1], length, false)
    ensures
      var front, call := calls[..|calls| - 1], calls[|calls| - 1];
      |Inside(calls, Run(calls, length, false).allowed, key, from, length)|
        == |Inside(front, before.allowed, key, from, length)|
        + if Allows(before.rate, call.key, call.limit, call.now, length) && Counts(call, key, from, length)
          then 1 else 0
  {
    AllowedArePositions(calls[..|calls| - 1], length, false);
    InsideGrows(calls, before.allowed, key, from, length);
  }

  lemma {:induction false} RunBounded(calls: seq<Call>, key: string, limit: int, from: int, length: int)
    requires 0 < length && 0 < limit && Timed(calls) && ConstantLimit(calls, key, limit) && calls != []
    ensures
      var h := Run(calls, length, false);
      Bounded(Entry(h.rate, key), |Inside(calls, h.allowed, key, from, length)|, limit, from, length,
              calls[|calls| - 1].now)
  {
    var front, call := calls[..|calls| - 1], calls[|calls| - 1];
    var before, after := Run(front, length, false), Run(calls, length, false);
    var n := |Inside(front, before.allowed, key, from, length)|;
    InsideStep(calls, before, key, from, length);
    if front == [] {
      assert Inside(front, before.allowed, key, from, length) == {};
      if call.key == key {
        BoundedStep(before.rate, n, |Inside(calls, after.allowed, key, from, length)|, call, from, length, call.now);
      }
    } else {
      RunBounded(front, key, limit, from, length);
      var last := front[|front| - 1].now;
      if call.key == key {
        BoundedStep(before.rate, n, |Inside(calls, after.allowed, key, from, length)|, call, from, length, last);
      } else if call.limit > 0 {
        assert Entry(after.rate, key) == Entry(before.rate, key);
      }
    }
  }

  /** For one caller with a constant limit, every half-open interval one window long sees fewer than twice
      the limit, whoever else is calling with whatever limits, and whenever the table is swept. */
  lemma LessThanTwiceTheLimit(calls: seq<Call>, key: string, limit: int, from: int, length: int)
    requires 0 < length && 0 < limit && Timed(calls) && ConstantLimit(calls, key, limit)
    ensures |Inside(calls, Run(calls, length, true).allowed, key, from, length)| <= 2 * limit - 1
  {
    SweepIsInvisible(calls, length);
    if calls == [] {
      assert Inside(calls, Run(calls, length, true).allowed, key, from, length) == {};
    } else {
      RunBounded(calls, key, limit, from, length);
    }
  }

  // ----- Nobody is refused early

  /** The current counter has counted no call that was not allowed since its window opened. */
  predicate Counted(calls: seq<Call>, h: History, key: string) {
    key in h.rate ==> 0 <= h.rate[key].count <= |Since(calls, h.allowed, key, h.rate[key].started)|
  }

  /** The allowed calls of one key from `from` on. */
  function Since(calls: seq<Call>, allowed: set<nat>, key: string, from: int): set<nat> {
    set i | i in allowed && i < |calls| && calls[i].key == key && from <= calls[i].now
  }

  lemma SinceGrows(calls: seq<Call>, allowed: set<nat>, key: string, from: int)
    requires calls != [] && forall i :: i in allowed ==> i < |calls| - 1
    ensures
      var front, last := calls[..|calls| - 1], |calls| - 1;
      && Since(calls, allowed, key, from) == Since(front, allowed, key, from)
      && (calls[last].key == key && from <= calls[last].now ==>
            |Since(calls, allowed + {last}, key, from)| == |Since(front, allowed, key, from)| + 1)
      && |Since(calls, allowed + {last}, key, from)| >= |Since(front, allowed, key, from)|
  {
    var front, last := calls[..|calls| - 1], |calls| - 1;
    var was := Since(front, allowed, key, from);
    assert Since(calls, allowed, key, from) == was;
    if calls[last].key == key && from <= calls[last].now {
      assert Since(calls, allowed + {last}, key, from) == was + {last};
    } else {
      assert Since(calls, allowed + {last}, key, from) == was;
    }
  }

  lemma CountedStep(calls: seq<Call>, key: string, length: int)
    requires 0 < length && calls != [] && Timed(calls)
    requires Counted(calls[..|calls| - 1], Run(calls[..|calls| - 1], length, false), key)
    requires key in Run(calls[..|calls| - 1], length, false).rate ==>
               Run(calls[..|calls| - 1], length, false).rate[key].started <= calls[|calls| - 1].now
    ensures Counted(calls, Run(calls, length, false), key)
  {
    var front, call := calls[..|calls| - 1], calls[|calls| - 1];
    var before, after := Run(front, length, false), Run(calls, length, false);
    AllowedArePositions(front, length, false);
    if key in after.rate {
      SinceGrows(calls, before.allowed, key, after.rate[key].started);
    }
  }

  lemma {:induction false} StartedBefore(calls: seq<Call>, key: string, length: int)
    requires Timed(calls) && key in Run(calls, length, false).rate
    ensures calls != [] && Run(calls, length, false).rate[key].started <= calls[|calls| - 1].now
  {
    var front, call := calls[..|calls| - 1], calls[|calls| - 1];
    if key in Run(front, length, false).rate {
      StartedBefore(front, key, length);
      assert calls[|front| - 1].now <= call.now;
    }
  }

  lemma {:induction false} RunCounted(calls: seq<Call>, key: string, length: int)
    requires 0 < length && Timed(calls)
    ensures Counted(calls, Run(calls, length, false), key)
  {
    if calls != [] {
      var front := calls[..|calls| - 1];
      RunCounted(front, key, length);
      if key in Run(front, length, false).rate {
        StartedBefore(front, key, length);
        assert calls[|front| - 1].now <= calls[|calls| - 1].now;
      }
      CountedStep(calls, key, length);
    }
  }

  /** A call is never refused whose key had fewer than its limit of calls allowed within the last window length,
      whatever the limits of the earlier calls were. */
  lemma NotRefusedEarly(calls: seq<Call>, call: Call, length: int)
    requires 0 < length && Timed(calls + [call]) && 0 < call.limit
    requires |Inside(calls, Run(calls, length, true).allowed, call.key, call.now - length + 1, length)| < call.limit
    ensures |calls| in Run(calls + [call], length, true).allowed
  {
    var all := calls + [call];
    forall i, j | 0 <= i < j < |calls| ensures calls[i].now <= calls[j].now {
      assert all[i] == calls[i] && all[j] == calls[j];
    }
    SweepIsInvisible(all, length);
    SweepIsInvisible(calls, length);
    var h := Run(calls, length, false);
    RunAppend(calls, call, length, false);
    RunCounted(calls, call.key, length);
    if call.key in h.rate && !Expired(h.rate[call.key], call.now, length) {
      forall i | i in Since(calls, h.allowed, call.key, h.rate[call.key].started)
        ensures i in Inside(calls, h.allowed, call.key, call.now - length + 1, length)
      {
        assert all[i].now <= all[|calls|].now;
      }
      FewerElements(Since(calls, h.allowed, call.key, h.rate[call.key].started),
                    Inside(calls, h.allowed, call.key, call.now - length + 1, length));
    }
  }

  const BURST := [Call("k", 2, 0), Call("k", 2, 59), Call("k", 2, 60), Call("k", 2, 61)]

  lemma RunAppend(calls: seq<Call>, call: Call, length: int, sweeping: bool)
    ensures Run(calls + [call], length, sweeping)
              == Stepped(Run(calls, length, sweeping), call, |calls|, length, sweeping)
  {
    assert (calls + [call])[..|calls|] == calls;
  }

  lemma SmallTable(key: string, w: Window, now: int, length: int)
    ensures Found(map[key := w], now, length, true) == map[key := w]
  {
    assert |map[key := w]| == 1;
  }

  /** And no fewer: around the boundary of a window a limit of two lets three calls through. */
  lemma BoundIsReached()
    ensures |Inside(BURST, Run(BURST, 60, true).allowed, "k", 59, 60)| == 3
  {
    BurstRun();
    assert Inside(BURST, {0, 1, 2, 3}, "k", 59, 60) == {1, 2, 3};
  }

  lemma BurstRun()
    ensures Run(BURST, 60, true).allowed == {0, 1, 2, 3}
  {
    var one := [BURST[0]];
    var two := one + [BURST[1]];
    var three := two + [BURST[2]];
    RunAppend([], BURST[0], 60, true);
    assert [] + [BURST[0]] == one;
    assert Run(one, 60, true) == History(map["k" := Window(0, 1)], {0});
    SmallTable("k", Window(0, 1), 59, 60);
    RunAppend(one, BURST[1], 60, true);
    assert Run(two, 60, true) == History(map["k" := Window(0, 2)], {0, 1});
    SmallTable("k", Window(0, 2), 60, 60);
    RunAppend(two, BURST[2], 60, true);
    assert Run(three, 60, true) == History(map["k" := Window(60, 1)], {0, 1, 2});
    SmallTable("k", Window(60, 1), 61, 60);
    RunAppend(three, BURST[3], 60, true);
    assert three + [BURST[3]] == BURST;
  }
}
