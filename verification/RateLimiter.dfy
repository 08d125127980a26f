/** The in-memory sliding-window limiter, for keys of any type: per key a queue of at most `limit` admission times
    stands in for the whole history of admissions, and a background sweep drops stale queues. */
module RateLimiter {
  import opened Wrappers

  // ----- the queue of one key -----

  /** Admissions less than `duration` seconds before `now`. */
  function InWindow(times: seq<int>, now: int, duration: int): nat {
    if times == [] then 0
    else InWindow(times[..|times| - 1], now, duration) + if now - times[|times| - 1] < duration then 1 else 0
  }

  ghost predicate Ascending(times: seq<int>) {
    forall i, j :: 0 <= i <= j < |times| ==> times[i] <= times[j]
  }

  /** The queue keeps the newest admissions of the history. It is shorter than the limit only when
      everything it no longer holds had left the window by time `clock`. */
  ghost predicate Remembers(queue: seq<int>, history: seq<int>, limit: int, duration: int, clock: int) {
    && |queue| <= limit
    && Ascending(history) && (history != [] ==> history[|history| - 1] <= clock)
    && |queue| <= |history| && queue == history[|history| - |queue|..]
    && (|queue| < limit ==> forall i :: 0 <= i < |history| - |queue| ==> clock - history[i] >= duration)
  }

  lemma {:induction false} InWindowConcat(a: seq<int>, b: seq<int>, now: int, duration: int)
    ensures InWindow(a + b, now, duration) == InWindow(a, now, duration) + InWindow(b, now, duration)
  {
    if b == [] {
      assert a + b == a;
    } else {
      assert (a + b)[..|a + b| - 1] == a + b[..|b| - 1];
      InWindowConcat(a, b[..|b| - 1], now, duration);
    }
  }

  lemma {:induction false} InWindowNone(times: seq<int>, now: int, duration: int)
    requires forall i :: 0 <= i < |times| ==> now - times[i] >= duration
    ensures InWindow(times, now, duration) == 0
  {
    if times != [] {
      InWindowNone(times[..|times| - 1], now, duration);
    }
  }

  lemma {:induction false} InWindowAll(times: seq<int>, now: int, duration: int)
    ensures InWindow(times, now, duration) <= |times|
    ensures (forall i :: 0 <= i < |times| ==> now - times[i] < duration) ==> InWindow(times, now, duration) == |times|
    ensures |times| > 0 && now - times[0] >= duration ==> InWindow(times, now, duration) < |times|
  {
    if times != [] {
      InWindowAll(times[..|times| - 1], now, duration);
    }
  }

  /** The test on the queue answers the question about the whole history. */
  lemma QueueDecides(queue: seq<int>, history: seq<int>, limit: int, duration: int, clock: int, now: int)
    requires 1 <= limit && Remembers(queue, history, limit, duration, clock) && clock <= now
    ensures (|queue| < limit || now - queue[0] >= duration) <==> InWindow(history, now, duration) < limit
  {
    var older := history[..|history| - |queue|];
    assert history == older + queue;
    InWindowConcat(older, queue, now, duration);
    InWindowAll(queue, now, duration);
    if |queue| < limit || now - queue[0] >= duration {
      InWindowNone(older, now, duration);
    }
  }

  lemma TimePasses(queue: seq<int>, history: seq<int>, limit: int, duration: int, clock: int, now: int)
    requires Remembers(queue, history, limit, duration, clock) && clock <= now
    ensures Remembers(queue, history, limit, duration, now)
  {
  }

  lemma SuffixGrows(queue: seq<int>, history: seq<int>, now: int)
    requires |queue| <= |history| && queue == history[|history| - |queue|..]
    ensures queue + [now] == (history + [now])[|history| - |queue|..]
    ensures |queue| > 0 ==> queue[1..] + [now] == (history + [now])[|history| - |queue| + 1..]
  {
  }

  lemma AscendingGrows(history: seq<int>, now: int)
    requires Ascending(history) && (history != [] ==> history[|history| - 1] <= now)
    ensures Ascending(history + [now])
  {
    assert forall i :: 0 <= i < |history| ==> history[i] <= history[|history| - 1] <= now;
  }

  lemma Admitted(queue: seq<int>, history: seq<int>, limit: int, duration: int, now: int)
    requires 1 <= limit && Remembers(queue, history, limit, duration, now)
    ensures Remembers(if |queue| < limit then queue + [now] else queue[1..] + [now], history + [now],
                      limit, duration, now)
  {
    SuffixGrows(queue, history, now);
    AscendingGrows(history, now);
    hide Ascending;
    assert forall i :: 0 <= i < |history| ==> (history + [now])[i] == history[i];
  }

  /** A queue whose newest entry is older than the expiration holds nothing of the window. */
  lemma Swept(queue: seq<int>, history: seq<int>, limit: int, duration: int, now: int, expiration: int)
    requires 1 <= limit && Remembers(queue, history, limit, duration, now) && duration <= expiration + 1
    requires queue == [] || now - queue[|queue| - 1] > expiration
    ensures Remembers([], history, limit, duration, now)
  {
  }

  // ----- request and sweep on the stored queues -----

  function Past<K(==)>(times: map<K, seq<int>>, key: K): seq<int> {
    if key in times then times[key] else []
  }

  lemma PastUpdate<K(!new)>(m: map<K, seq<int>>, key: K, times: seq<int>)
    ensures Past(m[key := times], key) == times
    ensures forall other :: other != key ==> Past(m[key := times], other) == Past(m, other)
  {
  }

  /** A queue is stored only together with its first admission. */
  ghost predicate NoneEmpty<K(!new)>(store: map<K, seq<int>>) {
    forall key :: key in store ==> store[key] != []
  }

  function RequestOn<K(!new)>(store: map<K, seq<int>>, key: K, limit: int, duration: int, now: int)
    : (result: (map<K, seq<int>>, bool))
    requires NoneEmpty(store)
    ensures NoneEmpty(result.0)
    ensures forall other :: other != key ==> Past(result.0, other) == Past(store, other)
  {
    if key !in store then (store[key := [now]], true)
    else if |store[key]| < limit then (store[key := store[key] + [now]], true)
    else if now - store[key][0] >= duration then (store[key := store[key][1..] + [now]], true)
    else (store, false)
  }

  predicate Stale(queue: seq<int>, expiration: int, now: int) {
    |queue| == 0 || now - queue[|queue| - 1] > expiration
  }

  function SweepOn<K>(store: map<K, seq<int>>, expiration: int, now: int): map<K, seq<int>> {
    map key | key in store && !Stale(store[key], expiration, now) :: store[key]
  }

  /** Windows for which the expiration is long enough. Without a positive expiration nothing is ever swept. */
  predicate Covers(expiration: int, duration: int) {
    expiration <= 0 || duration <= expiration + 1
  }

  /** The first request of an unknown key is admitted unseen, so a limit of 0 acts like a limit of 1. */
  function Effective(limit: int): int {
    if limit < 1 then 1 else limit
  }

  /** Admits exactly when fewer than the effective limit of all requests ever admitted for the key lie in
      the last `duration` seconds. */
  lemma RequestDecides<K(!new)>(store: map<K, seq<int>>, history: seq<int>, key: K, limit: int, duration: int,
                                clock: int, now: int)
    requires NoneEmpty(store) && clock <= now
    requires Remembers(Past(store, key), history, Effective(limit), duration, clock)
    ensures var (next, accepted) := RequestOn(store, key, limit, duration, now);
            && (accepted <==> InWindow(history, now, duration) < Effective(limit))
            && Remembers(Past(next, key), history + if accepted then [now] else [], Effective(limit), duration, now)
  {
    var queue := Past(store, key);
    QueueDecides(queue, history, Effective(limit), duration, clock, now);
    TimePasses(queue, history, Effective(limit), duration, clock, now);
    Admitted(queue, history, Effective(limit), duration, now);
    assert history + [] == history;
    assert key in store ==> (|queue| < limit <==> |queue| < Effective(limit));
    hide Remembers, InWindow;
  }

  /** A sweep forgets nothing that counts. */
  lemma SweepKeeps<K(!new)>(store: map<K, seq<int>>, history: seq<int>, key: K, limit: int, duration: int,
                            expiration: int, clock: int, now: int)
    requires Remembers(Past(store, key), history, Effective(limit), duration, clock) && clock <= now
    requires duration <= expiration + 1
    ensures Remembers(Past(SweepOn(store, expiration, now), key), history, Effective(limit), duration, now)
  {
    TimePasses(Past(store, key), history, Effective(limit), duration, clock, now);
    if Stale(Past(store, key), expiration, now) {
      Swept(Past(store, key), history, Effective(limit), duration, now, expiration);
    }
  }

  function PartlySwept<K>(store: map<K, seq<int>>, left: set<K>, expiration: int, now: int): map<K, seq<int>> {
    map key | key in store && (key in left || !Stale(store[key], expiration, now)) :: store[key]
  }

  lemma PartlySweptEnds<K(!new)>(store: map<K, seq<int>>, expiration: int, now: int)
    ensures PartlySwept(store, store.Keys, expiration, now) == store
    ensures PartlySwept(store, {}, expiration, now) == SweepOn(store, expiration, now)
    ensures NoneEmpty(store) ==> NoneEmpty(SweepOn(store, expiration, now))
  {
  }

  lemma PartlySweptStep<K>(store: map<K, seq<int>>, left: set<K>, expiration: int, now: int, key: K)
    requires key in store && key in left
    ensures var part := PartlySwept(store, left, expiration, now);
            && key in part && part[key] == store[key]
            && (Stale(store[key], expiration, now) <==>
                |store[key]| == 0 || now - store[key][|store[key]| - 1] > expiration)
            && PartlySwept(store, left - {key}, expiration, now) ==
               if Stale(store[key], expiration, now) then part - {key} else part
  {
  }

  // ----- the limiter -----

  /** The part of Request that works on the queue of a known key. */
  method Push(queue: seq<int>, maxRequestNum: int, duration: int, now: int) returns (accepted: bool, next: seq<int>)
    requires |queue| >= maxRequestNum ==> queue != []
    ensures accepted <==> |queue| < maxRequestNum || now - queue[0] >= duration
    ensures accepted ==> next == if |queue| < maxRequestNum then queue + [now] else queue[1..] + [now]
  {
    next := queue;
    if |queue| < maxRequestNum {
      next := next + [now];
      accepted := true;
    } else if now - queue[0] >= duration {
      next := next[1..];
      next := next + [now];
      accepted := true;
    } else {
      accepted := false;
    }
  }

  class InMemoryRateLimiter<K(!new, ==)> {
    var store: map<K, seq<int>>
    const expiration: int
    // what the callers of each key pass, every time
    ghost const limitOf: K -> int
    ghost const durationOf: K -> int
    // all admissions ever, per key, and the latest time seen
    ghost var history: map<K, seq<int>>
    ghost var clock: int

    ghost function HistoryOf(key: K): seq<int>
      reads this
    {
      Past(history, key)
    }

    /** Nothing is promised for a key whose window the expiration does not cover. */
    ghost predicate KeyOk(key: K)
      reads this
    {
      Covers(expiration, durationOf(key)) ==>
        Remembers(Past(store, key), HistoryOf(key), Effective(limitOf(key)), durationOf(key), clock)
    }

    ghost predicate Valid()
      reads this
    {
      NoneEmpty(store) && forall key :: KeyOk(key)
    }

    constructor (expiration: int, ghost limitOf: K -> int, ghost durationOf: K -> int, ghost start: int)
      ensures Valid() && clock == start && store == history == map[] && this.expiration == expiration
      ensures this.limitOf == limitOf && this.durationOf == durationOf
    {
      this.expiration := expiration;
      this.limitOf, this.durationOf := limitOf, durationOf;
      store, history, clock := map[], map[], start;
    }

    /** Changes the store as specified, and with a window the expiration covers admits exactly when
        fewer than the effective limit of all requests ever admitted for the key lie in the window. */
    method Request(key: K, maxRequestNum: int, duration: int, now: int) returns (accepted: bool)
      requires Valid() && clock <= now
      requires 0 <= maxRequestNum == limitOf(key) && duration == durationOf(key)
      modifies this
      ensures Valid() && clock == now
      ensures (store, accepted) == RequestOn(old(store), key, maxRequestNum, duration, now)
      ensures Covers(expiration, duration) ==>
                (accepted <==> InWindow(old(HistoryOf(key)), now, duration) < Effective(maxRequestNum))
      ensures HistoryOf(key) == old(HistoryOf(key)) + if accepted then [now] else []
      ensures forall other :: other != key ==> HistoryOf(other) == old(HistoryOf(other))
    {
      hide Remembers, InWindow, Past;
      assert KeyOk(key);
      ghost var past := HistoryOf(key);
      if Covers(expiration, duration) {
        RequestDecides(store, past, key, maxRequestNum, duration, clock, now);
      }
      if key in store {
        var next;
        accepted, next := Push(store[key], maxRequestNum, duration, now);
        if accepted {
          store := store[key := next];
        }
      } else {
        accepted := true;
        store := store[key := [now]];
      }
      assert (store, accepted) == RequestOn(old(store), key, maxRequestNum, duration, now);
      clock := now;
      assert past + [] == past;
      if accepted {
        PastUpdate(history, key, past + [now]);
        history := history[key := past + [now]];
      }
      forall other: K | other != key
        ensures KeyOk(other)
      {
        assert old(KeyOk(other));
        if Covers(expiration, durationOf(other)) {
          TimePasses(Past(store, other), HistoryOf(other), Effective(limitOf(other)), durationOf(other),
                     old(clock), now);
        }
      }
    }

    /** One round of the background sweep, which only a positive expiration starts. It changes no history, so no
        later answer about a window the expiration covers. */
    method ClearExpiredItems(now: int)
      requires Valid() && clock <= now && expiration > 0
      modifies this
      ensures Valid() && clock == now && history == old(history)
      ensures store == SweepOn(old(store), expiration, now)
    {
      hide Remembers, Past, Stale, PartlySwept, NoneEmpty;
      var keys := store.Keys;
      ghost var all := store;
      PartlySweptEnds(all, expiration, now);
      while keys != {}
        invariant keys <= all.Keys
        invariant store == PartlySwept(all, keys, expiration, now)
        invariant history == old(history) && clock == old(clock)
        decreases keys
      {
        var key :| key in keys;
        PartlySweptStep(all, keys, expiration, now, key);
        var queue := store[key];
        var size := |queue|;
        if size == 0 || now - queue[size - 1] > expiration {
          store := store - {key};
        }
        keys := keys - {key};
      }
      clock := now;
      forall key: K
        ensures KeyOk(key)
      {
        assert old(KeyOk(key));
        if Covers(expiration, durationOf(key)) {
          SweepKeeps(all, HistoryOf(key), key, limitOf(key), durationOf(key), expiration, old(clock), now);
        }
      }
    }
  }

  // ----- whole runs -----

  datatype Event<K> = Asked(key: K, at: int) | Sweep(at: int)

  ghost predicate ClockRuns<K>(events: seq<Event<K>>, start: int) {
    && (forall i :: 0 <= i < |events| ==> start <= events[i].at)
    && (forall i, j :: 0 <= i <= j < |events| ==> events[i].at <= events[j].at)
  }

  /** Time does not run backwards, and nothing sweeps without a positive expiration. */
  ghost predicate CanHappen<K>(events: seq<Event<K>>, expiration: int, start: int) {
    ClockRuns(events, start) && (expiration <= 0 ==> forall i :: 0 <= i < |events| ==> events[i].Asked?)
  }

  /** What one event does to the store, and the answer to a request. */
  function StepStore<K(!new)>(store: map<K, seq<int>>, event: Event<K>, expiration: int, limitOf: K -> int,
                              durationOf: K -> int)
    : (result: (map<K, seq<int>>, Option<bool>))
    requires NoneEmpty(store)
    ensures NoneEmpty(result.0)
  {
    match event
    case Sweep(at) => (SweepOn(store, expiration, at), None)
    case Asked(key, at) =>
      var (next, accepted) := RequestOn(store, key, limitOf(key), durationOf(key), at);
      (next, Some(accepted))
  }

  /** The store after the events, and the answers given. */
  function Replay<K(!new)>(events: seq<Event<K>>, expiration: int, limitOf: K -> int, durationOf: K -> int)
    : (result: (map<K, seq<int>>, seq<Option<bool>>))
    ensures NoneEmpty(result.0) && |result.1| == |events|
  {
    if events == [] then (map[], [])
    else
      var (store, answers) := Replay(events[..|events| - 1], expiration, limitOf, durationOf);
      var (next, answer) := StepStore(store, events[|events| - 1], expiration, limitOf, durationOf);
      (next, answers + [answer])
  }

  /** The times at which requests of a key were let in. */
  function Admissions<K(==)>(events: seq<Event<K>>, answers: seq<Option<bool>>, key: K): seq<int>
    requires |events| == |answers|
  {
    if events == [] then []
    else
      var last := |events| - 1;
      var front := Admissions(events[..last], answers[..last], key);
      if events[last] == Asked(key, events[last].at) && answers[last] == Some(true) then front + [events[last].at]
      else front
  }

  function Admits<K(==)>(log: map<K, seq<int>>, key: K, at: int, limitOf: K -> int, durationOf: K -> int): bool {
    InWindow(Past(log, key), at, durationOf(key)) < Effective(limitOf(key))
  }

  /** What one event adds to the log of all admissions, for which sweeps do not exist, and the answer to a request. */
  function StepLog<K(==)>(log: map<K, seq<int>>, event: Event<K>, limitOf: K -> int, durationOf: K -> int)
    : (map<K, seq<int>>, Option<bool>)
  {
    if event.Sweep? then (log, None)
    else
      var accepted := Admits(log, event.key, event.at, limitOf, durationOf);
      (if accepted then log[event.key := Past(log, event.key) + [event.at]] else log, Some(accepted))
  }

  function Log<K(==)>(events: seq<Event<K>>, limitOf: K -> int, durationOf: K -> int): map<K, seq<int>> {
    if events == [] then map[]
    else StepLog(Log(events[..|events| - 1], limitOf, durationOf), events[|events| - 1], limitOf, durationOf).0
  }

  /** The answers the log gives. */
  function Answers<K(==)>(events: seq<Event<K>>, limitOf: K -> int, durationOf: K -> int): (answers: seq<Option<bool>>)
    ensures |answers| == |events|
  {
    if events == [] then []
    else
      var front := events[..|events| - 1];
      Answers(front, limitOf, durationOf) +
      [StepLog(Log(front, limitOf, durationOf), events[|events| - 1], limitOf, durationOf).1]
  }

  /** One more event. */
  lemma Next<K(!new)>(events: seq<Event<K>>, last: Event<K>, expiration: int, limitOf: K -> int, durationOf: K -> int)
    ensures var (store, answers) := Replay(events, expiration, limitOf, durationOf);
            var (next, answer) := StepStore(store, last, expiration, limitOf, durationOf);
            Replay(events + [last], expiration, limitOf, durationOf) == (next, answers + [answer])
    ensures var (log, answer) := StepLog(Log(events, limitOf, durationOf), last, limitOf, durationOf);
            && Log(events + [last], limitOf, durationOf) == log
            && Answers(events + [last], limitOf, durationOf) == Answers(events, limitOf, durationOf) + [answer]
  {
    assert (events + [last])[..|events|] == events;
  }

  lemma OneMoreAdmission<K>(events: seq<Event<K>>, answers: seq<Option<bool>>, last: Event<K>, answer: Option<bool>,
                            key: K)
    requires |events| == |answers|
    ensures Admissions(events + [last], answers + [answer], key) ==
            Admissions(events, answers, key) +
            if last == Asked(key, last.at) && answer == Some(true) then [last.at] else []
  {
    assert (events + [last])[..|events|] == events && (answers + [answer])[..|answers|] == answers;
    assert Admissions(events, answers, key) + [] == Admissions(events, answers, key);
  }

  function Clock<K>(events: seq<Event<K>>, start: int): int {
    if events == [] then start else events[|events| - 1].at
  }

  /** One event on the queue of a key whose window is covered. */
  lemma StepAgrees<K(!new)>(store: map<K, seq<int>>, log: map<K, seq<int>>, event: Event<K>, expiration: int,
                            limitOf: K -> int, durationOf: K -> int, clock: int, key: K)
    requires NoneEmpty(store) && Covers(expiration, durationOf(key)) && clock <= event.at
    requires event.Sweep? ==> expiration > 0
    requires Remembers(Past(store, key), Past(log, key), Effective(limitOf(key)), durationOf(key), clock)
    ensures var (next, answer), (after, right) :=
              StepStore(store, event, expiration, limitOf, durationOf), StepLog(log, event, limitOf, durationOf);
            && Remembers(Past(next, key), Past(after, key), Effective(limitOf(key)), durationOf(key), event.at)
            && (event == Asked(key, event.at) ==> answer == right)
            && Past(after, key) == Past(log, key) +
               if event == Asked(key, event.at) && answer == Some(true) then [event.at] else []
  {
    hide Remembers, InWindow, NoneEmpty, RequestOn, SweepOn;
    assert Past(log, key) + [] == Past(log, key);
    if event.Sweep? {
      SweepKeeps(store, Past(log, key), key, limitOf(key), durationOf(key), expiration, clock, event.at);
    } else if key == event.key {
      RequestDecides(store, Past(log, key), key, limitOf(key), durationOf(key), clock, event.at);
    } else {
      TimePasses(Past(store, key), Past(log, key), Effective(limitOf(key)), durationOf(key), clock, event.at);
    }
  }

  /** The queue of such a key remembers its log, which holds exactly the times it was let in. */
  lemma {:induction false} LogAgrees<K(!new)>(events: seq<Event<K>>, expiration: int, limitOf: K -> int,
                                              durationOf: K -> int, start: int, key: K)
    requires CanHappen(events, expiration, start) && Covers(expiration, durationOf(key))
    ensures var (store, answers) := Replay(events, expiration, limitOf, durationOf);
            && Remembers(Past(store, key), Past(Log(events, limitOf, durationOf), key), Effective(limitOf(key)),
                         durationOf(key), Clock(events, start))
            && Admissions(events, answers, key) == Past(Log(events, limitOf, durationOf), key)
  {
    if events != [] {
      var front, last := events[..|events| - 1], events[|events| - 1];
      assert events == front + [last];
      LogAgrees(front, expiration, limitOf, durationOf, start, key);
      hide Remembers, StepStore, StepLog, Replay, Log, Answers, Admissions, NoneEmpty, Covers;
      var (store, answers) := Replay(front, expiration, limitOf, durationOf);
      Next(front, last, expiration, limitOf, durationOf);
      StepAgrees(store, Log(front, limitOf, durationOf), last, expiration, limitOf, durationOf,
                 Clock(front, start), key);
      OneMoreAdmission(front, answers, last, StepStore(store, last, expiration, limitOf, durationOf).1, key);
    }
  }

  /** A key whose window the expiration covers is answered as by the log, whatever windows the other keys have and
      wherever the sweeps fall. */
  lemma {:induction false} AnswersAgree<K(!new)>(events: seq<Event<K>>, expiration: int, limitOf: K -> int,
                                                 durationOf: K -> int, start: int, key: K)
    requires CanHappen(events, expiration, start) && Covers(expiration, durationOf(key))
    ensures forall i :: 0 <= i < |events| && events[i] == Asked(key, events[i].at) ==>
              Replay(events, expiration, limitOf, durationOf).1[i] == Answers(events, limitOf, durationOf)[i]
  {
    if events != [] {
      var front, last := events[..|events| - 1], events[|events| - 1];
      assert events == front + [last];
      AnswersAgree(front, expiration, limitOf, durationOf, start, key);
      LogAgrees(front, expiration, limitOf, durationOf, start, key);
      hide Remembers, StepStore, StepLog, Replay, Log, Answers, Admissions, NoneEmpty, Covers;
      Next(front, last, expiration, limitOf, durationOf);
      StepAgrees(Replay(front, expiration, limitOf, durationOf).0, Log(front, limitOf, durationOf), last, expiration,
                 limitOf, durationOf, Clock(front, start), key);
    }
  }

  lemma {:induction false} SweepsAnswerNothing<K(!new)>(events: seq<Event<K>>, expiration: int, limitOf: K -> int,
                                                        durationOf: K -> int)
    ensures forall i :: 0 <= i < |events| && events[i].Sweep? ==>
              Replay(events, expiration, limitOf, durationOf).1[i] == Answers(events, limitOf, durationOf)[i] == None
  {
    if events != [] {
      SweepsAnswerNothing(events[..|events| - 1], expiration, limitOf, durationOf);
    }
  }

  /** Where the expiration covers every window, sweeps change no answer. */
  lemma AllAnswersAgree<K(!new)>(events: seq<Event<K>>, expiration: int, limitOf: K -> int, durationOf: K -> int,
                                 start: int)
    requires CanHappen(events, expiration, start) && forall key :: Covers(expiration, durationOf(key))
    ensures Replay(events, expiration, limitOf, durationOf).1 == Answers(events, limitOf, durationOf)
  {
    hide Replay, Answers, Admissions, Log, Remembers, CanHappen;
    SweepsAnswerNothing(events, expiration, limitOf, durationOf);
    forall i | 0 <= i < |events|
      ensures Replay(events, expiration, limitOf, durationOf).1[i] == Answers(events, limitOf, durationOf)[i]
    {
      if events[i].Asked? {
        AnswersAgree(events, expiration, limitOf, durationOf, start, events[i].key);
      }
    }
  }

  /** The limiter as an object gives the store and answers it gives on values, and its history holds the times each
      key was let in; a key whose window the expiration covers is answered as by the log. */
  method Serve<K(!new, ==)>(limiter: InMemoryRateLimiter<K>, events: seq<Event<K>>, limitOf: K -> int,
                            durationOf: K -> int)
    returns (answers: seq<Option<bool>>)
    requires limiter.Valid() && limiter.limitOf == limitOf && limiter.durationOf == durationOf
    requires limiter.store == limiter.history == map[] && CanHappen(events, limiter.expiration, limiter.clock)
    requires forall i :: 0 <= i < |events| && events[i].Asked? ==> 0 <= limitOf(events[i].key)
    modifies limiter
    ensures (limiter.store, answers) == Replay(events, limiter.expiration, limitOf, durationOf)
    ensures limiter.Valid()
    ensures forall key :: limiter.HistoryOf(key) == Admissions(events, answers, key)
    ensures forall i :: 0 <= i < |events| && events[i].Asked? &&
                        Covers(limiter.expiration, durationOf(events[i].key)) ==>
              answers[i] == Answers(events, limitOf, durationOf)[i]
  {
    hide RequestOn, SweepOn, Remembers, InWindow, NoneEmpty, Admissions, Replay, Log, Answers, Covers;
    answers := [];
    NoEvents(limiter.expiration, limitOf, durationOf);
    forall key: K ensures Admissions<K>([], [], key) == [] {
      NoAdmissions(key);
    }
    assert events[..0] == [];
    for i := 0 to |events|
      invariant limiter.Valid() && limiter.clock == Clock(events[..i], old(limiter.clock)) && |answers| == i
      invariant (limiter.store, answers) == Replay(events[..i], limiter.expiration, limitOf, durationOf)
      invariant forall key :: limiter.HistoryOf(key) == Admissions(events[..i], answers, key)
    {
      assert events[..i + 1] == events[..i] + [events[i]];
      Next(events[..i], events[i], limiter.expiration, limitOf, durationOf);
      ghost var before := answers;
      var answer: Option<bool> := None;
      match events[i] {
        case Asked(key, at) =>
          var accepted := limiter.Request(key, limitOf(key), durationOf(key), at);
          answer := Some(accepted);
        case Sweep(at) =>
          limiter.ClearExpiredItems(at);
      }
      answers := answers + [answer];
      forall key: K
        ensures limiter.HistoryOf(key) == Admissions(events[..i + 1], answers, key)
      {
        OneMoreAdmission(events[..i], before, events[i], answer, key);
      }
    }
    assert events[..|events|] == events;
    forall i | 0 <= i < |events| && events[i].Asked? && Covers(limiter.expiration, durationOf(events[i].key))
      ensures answers[i] == Answers(events, limitOf, durationOf)[i]
    {
      AnswersAgree(events, limiter.expiration, limitOf, durationOf, old(limiter.clock), events[i].key);
    }
  }

  lemma NoAdmissions<K>(key: K)
    ensures Admissions<K>([], [], key) == []
  {
  }

  function Zeros(n: nat): seq<int> {
    seq(n, _ => 0)
  }

  function Burst<K>(key: K, n: nat): seq<Event<K>> {
    seq(n, _ => Asked(key, 0))
  }

  function Filled<K>(key: K, n: nat): map<K, seq<int>> {
    if n == 0 then map[] else map[key := Zeros(n)]
  }

  lemma FillOne<K(!new)>(key: K, n: nat, expiration: int, limitOf: K -> int, durationOf: K -> int)
    requires n < Effective(limitOf(key)) && 0 < durationOf(key)
    ensures NoneEmpty(Filled(key, n))
    ensures StepStore(Filled(key, n), Asked(key, 0), expiration, limitOf, durationOf) ==
            (Filled(key, n + 1), Some(true))
    ensures StepLog(Filled(key, n), Asked(key, 0), limitOf, durationOf).0 == Filled(key, n + 1)
  {
    InWindowAll(Zeros(n), 0, durationOf(key));
    hide InWindow;
    assert Past(Filled(key, n), key) == Zeros(n);
    assert Zeros(n + 1) == Zeros(n) + [0];
    assert Filled(key, n)[key := Zeros(n + 1)] == Filled(key, n + 1);
    assert n == 0 ==> [0] == Zeros(n + 1);
  }

  lemma BurstGrows<K>(key: K, n: nat)
    requires n > 0
    ensures Burst(key, n) == Burst(key, n - 1) + [Asked(key, 0)] && Zeros(n) == Zeros(n - 1) + [0]
  {
  }

  lemma NoBurst<K>(key: K)
    ensures Burst(key, 0) == [] && Zeros(0) == []
  {
  }

  lemma {:induction false} BurstFills<K(!new)>(key: K, n: nat, expiration: int, limitOf: K -> int,
                                               durationOf: K -> int)
    requires n <= Effective(limitOf(key)) && 0 < durationOf(key)
    ensures Replay(Burst(key, n), expiration, limitOf, durationOf).0 == Filled(key, n)
    ensures Log(Burst(key, n), limitOf, durationOf) == Filled(key, n)
    ensures Admissions(Burst(key, n), Replay(Burst(key, n), expiration, limitOf, durationOf).1, key) == Zeros(n)
  {
    if n == 0 {
      NoBurst(key);
    } else {
      hide Replay, Log, Answers, StepStore, StepLog, Admissions, Burst, Zeros, NoneEmpty;
      BurstFills(key, n - 1, expiration, limitOf, durationOf);
      BurstGrows(key, n);
      Next(Burst(key, n - 1), Asked(key, 0), expiration, limitOf, durationOf);
      FillOne(key, n - 1, expiration, limitOf, durationOf);
      OneMoreAdmission(Burst(key, n - 1), Replay(Burst(key, n - 1), expiration, limitOf, durationOf).1,
                       Asked(key, 0), Some(true), key);
    }
  }

  /** A full queue at time 0, swept and asked again right after the expiration. */
  function Forgotten<K>(key: K, n: nat, expiration: int): seq<Event<K>> {
    Burst(key, n) + [Sweep(expiration + 1)] + [Asked(key, expiration + 1)]
  }

  lemma SweptOpens<K(!new)>(key: K, n: nat, expiration: int, limitOf: K -> int, durationOf: K -> int)
    requires !Covers(expiration, durationOf(key)) && n == Effective(limitOf(key))
    ensures var at := expiration + 1;
            var (swept, none) := StepStore(Filled(key, n), Sweep(at), expiration, limitOf, durationOf);
            && none == None && StepStore(swept, Asked(key, at), expiration, limitOf, durationOf).1 == Some(true)
            && StepLog(Filled(key, n), Asked(key, at), limitOf, durationOf).1 == Some(false)
  {
    InWindowAll(Zeros(n), expiration + 1, durationOf(key));
    hide InWindow;
    assert Past(Filled(key, n), key) == Zeros(n);
  }

  /** Then the request is let in, although the window is full. */
  lemma SweepForgets<K(!new)>(key: K, expiration: int, limitOf: K -> int, durationOf: K -> int)
    requires !Covers(expiration, durationOf(key))
    ensures var events := Forgotten(key, Effective(limitOf(key)), expiration);
            var answers := Replay(events, expiration, limitOf, durationOf).1;
            && CanHappen(events, expiration, 0)
            && answers != Answers(events, limitOf, durationOf)
            && Admissions(events, answers, key) == Zeros(Effective(limitOf(key))) + [expiration + 1]
  {
    hide Replay, Log, Answers, StepStore, StepLog, NoneEmpty, Admissions;
    var n, at := Effective(limitOf(key)), expiration + 1;
    var burst := Burst(key, n);
    var swept := burst + [Sweep(at)];
    Next(burst, Sweep(at), expiration, limitOf, durationOf);
    Next(swept, Asked(key, at), expiration, limitOf, durationOf);
    BurstFills(key, n, expiration, limitOf, durationOf);
    SweptOpens(key, n, expiration, limitOf, durationOf);
    SweepLogs(Filled(key, n), at, limitOf, durationOf);
    LastDiffers(Replay(swept, expiration, limitOf, durationOf).1, Answers(swept, limitOf, durationOf));
    OneMoreAdmission(burst, Replay(burst, expiration, limitOf, durationOf).1, Sweep(at), None, key);
    OneMoreAdmission(swept, Replay(swept, expiration, limitOf, durationOf).1, Asked(key, at), Some(true), key);
    assert Zeros(n) + [] == Zeros(n);
  }

  lemma SweepLogs<K>(log: map<K, seq<int>>, at: int, limitOf: K -> int, durationOf: K -> int)
    ensures StepLog(log, Sweep(at), limitOf, durationOf).0 == log
  {
  }

  lemma LastDiffers(given: seq<Option<bool>>, right: seq<Option<bool>>)
    ensures given + [Some(true)] != right + [Some(false)]
  {
    if |given| == |right| {
      assert (given + [Some(true)])[|given|] != (right + [Some(false)])[|right|];
    }
  }

  /** The exact condition on the expiration: sweeps never change an answer if and only if it covers every window. */
  lemma SweepsHarmlessExactly<K(!new)>(expiration: int, limitOf: K -> int, durationOf: K -> int)
    ensures (forall events :: CanHappen(events, expiration, 0) ==>
               Replay(events, expiration, limitOf, durationOf).1 == Answers(events, limitOf, durationOf)) <==>
            forall key :: Covers(expiration, durationOf(key))
  {
    if key :| !Covers(expiration, durationOf(key)) {
      SweepForgets(key, expiration, limitOf, durationOf);
    } else {
      forall events | CanHappen(events, expiration, 0)
        ensures Replay(events, expiration, limitOf, durationOf).1 == Answers(events, limitOf, durationOf)
      {
        AllAnswersAgree(events, expiration, limitOf, durationOf, 0);
      }
    }
  }

  lemma NoEvents<K(!new)>(expiration: int, limitOf: K -> int, durationOf: K -> int)
    ensures Replay([], expiration, limitOf, durationOf) == (map[], [])
    ensures Log([], limitOf, durationOf) == map[] && Answers([], limitOf, durationOf) == []
  {
  }

  /** Admissions from `from` on, within less than `duration` seconds. */
  function InSpan(times: seq<int>, from: int, duration: int): nat {
    if times == [] then 0
    else InSpan(times[..|times| - 1], from, duration) + if from <= times[|times| - 1] < from + duration then 1 else 0
  }

  /** Each admission found room in the window that ends with it. */
  ghost predicate FoundRoom(times: seq<int>, limit: int, duration: int) {
    forall i :: 0 <= i < |times| ==> InWindow(times[..i], times[i], duration) < limit
  }

  lemma {:induction false} SpanInWindow(times: seq<int>, from: int, now: int, duration: int)
    requires now < from + duration
    ensures InSpan(times, from, duration) <= InWindow(times, now, duration)
  {
    if times != [] {
      SpanInWindow(times[..|times| - 1], from, now, duration);
    }
  }

  lemma {:induction false} SpanBound(times: seq<int>, limit: int, duration: int, from: int)
    requires FoundRoom(times, limit, duration) && 0 <= limit
    ensures InSpan(times, from, duration) <= limit
  {
    if times != [] {
      var front, last := times[..|times| - 1], times[|times| - 1];
      assert forall i :: 0 <= i < |front| ==> times[..i] == front[..i];
      SpanBound(front, limit, duration, from);
      if last < from + duration {
        SpanInWindow(front, from, last, duration);
      }
    }
  }

  lemma {:induction false} LogFoundRoom<K>(events: seq<Event<K>>, limitOf: K -> int, durationOf: K -> int, key: K)
    ensures FoundRoom(Past(Log(events, limitOf, durationOf), key), Effective(limitOf(key)), durationOf(key))
  {
    if events != [] {
      var front := events[..|events| - 1];
      LogFoundRoom(front, limitOf, durationOf, key);
      var before, after := Past(Log(front, limitOf, durationOf), key), Past(Log(events, limitOf, durationOf), key);
      assert after == before || after[..|before|] == before;
      assert forall i :: 0 <= i < |before| ==> after[..i] == before[..i];
    }
  }

  /** The requests of a key that the limiter lets in during the `duration` seconds from `from` on. */
  function LetIn<K(!new, ==)>(events: seq<Event<K>>, expiration: int, limitOf: K -> int, durationOf: K -> int, key: K,
                              from: int): nat {
    InSpan(Admissions(events, Replay(events, expiration, limitOf, durationOf).1, key), from, durationOf(key))
  }

  /** With a window the expiration covers, no stretch of its length, wherever it starts, ever sees more requests of a
      key let in than its effective limit. */
  lemma NoWindowOverflows<K(!new)>(events: seq<Event<K>>, expiration: int, limitOf: K -> int, durationOf: K -> int,
                                   start: int, key: K, from: int)
    requires CanHappen(events, expiration, start) && Covers(expiration, durationOf(key))
    ensures LetIn(events, expiration, limitOf, durationOf, key, from) <= Effective(limitOf(key))
  {
    hide Replay, Log, Answers, Remembers, Admissions, InSpan;
    LogAgrees(events, expiration, limitOf, durationOf, start, key);
    LogFoundRoom(events, limitOf, durationOf, key);
    SpanBound(Past(Log(events, limitOf, durationOf), key), Effective(limitOf(key)), durationOf(key), from);
  }

  lemma {:induction false} EmptySpan(times: seq<int>, from: int, duration: int)
    requires duration <= 0
    ensures InSpan(times, from, duration) == 0
  {
    if times != [] {
      EmptySpan(times[..|times| - 1], from, duration);
    }
  }

  lemma {:induction false} ZerosInSpan(n: nat, duration: int)
    requires 0 < duration
    ensures InSpan(Zeros(n), 0, duration) == n
  {
    if n == 0 {
      assert Zeros(0) == [];
    } else {
      ZerosInSpan(n - 1, duration);
      assert Zeros(n)[..n - 1] == Zeros(n - 1);
    }
  }

  lemma SpanGrows(times: seq<int>, last: int, from: int, duration: int)
    ensures InSpan(times + [last], from, duration) ==
            InSpan(times, from, duration) + if from <= last < from + duration then 1 else 0
  {
    assert (times + [last])[..|times|] == times;
  }

  lemma BurstOverflows<K(!new)>(expiration: int, limitOf: K -> int, durationOf: K -> int, key: K)
    requires limitOf(key) == 0 < durationOf(key)
    ensures CanHappen(Burst(key, 1), expiration, 0)
    ensures LetIn(Burst(key, 1), expiration, limitOf, durationOf, key, 0) == 1
  {
    hide Replay, Admissions, InSpan;
    BurstFills(key, 1, expiration, limitOf, durationOf);
    ZerosInSpan(1, durationOf(key));
  }

  lemma ForgottenOverflows<K(!new)>(expiration: int, limitOf: K -> int, durationOf: K -> int, key: K)
    requires !Covers(expiration, durationOf(key))
    ensures var n := Effective(limitOf(key));
            && CanHappen(Forgotten(key, n, expiration), expiration, 0)
            && LetIn(Forgotten(key, n, expiration), expiration, limitOf, durationOf, key, 0) == n + 1
  {
    hide Replay, Admissions, InSpan, Forgotten, CanHappen, Answers;
    SweepForgets(key, expiration, limitOf, durationOf);
    ZerosInSpan(Effective(limitOf(key)), durationOf(key));
    SpanGrows(Zeros(Effective(limitOf(key))), expiration + 1, 0, durationOf(key));
  }

  /** The limiter never lets in more than the limit a caller asks for within the window, whatever happens, if and only
      if the window is empty, or the limit is at least 1 and the expiration covers the window. */
  lemma LimitRespectedExactly<K(!new)>(expiration: int, limitOf: K -> int, durationOf: K -> int, key: K)
    requires 0 <= limitOf(key)
    ensures (forall events, from :: CanHappen(events, expiration, 0) ==>
               LetIn(events, expiration, limitOf, durationOf, key, from) <= limitOf(key)) <==>
            durationOf(key) <= 0 || (limitOf(key) >= 1 && Covers(expiration, durationOf(key)))
  {
    hide LetIn, CanHappen;
    if durationOf(key) <= 0 || (limitOf(key) >= 1 && Covers(expiration, durationOf(key))) {
      forall events, from | CanHappen(events, expiration, 0)
        ensures LetIn(events, expiration, limitOf, durationOf, key, from) <= limitOf(key)
      {
        NoneOver(events, expiration, limitOf, durationOf, key, from);
      }
    } else if limitOf(key) == 0 {
      BurstOverflows(expiration, limitOf, durationOf, key);
    } else {
      ForgottenOverflows(expiration, limitOf, durationOf, key);
    }
  }

  lemma NoneOver<K(!new)>(events: seq<Event<K>>, expiration: int, limitOf: K -> int, durationOf: K -> int, key: K,
                          from: int)
    requires 0 <= limitOf(key) && CanHappen(events, expiration, 0)
    requires durationOf(key) <= 0 || (limitOf(key) >= 1 && Covers(expiration, durationOf(key)))
    ensures LetIn(events, expiration, limitOf, durationOf, key, from) <= limitOf(key)
  {
    hide Replay, Admissions, InSpan, CanHappen;
    if durationOf(key) <= 0 {
      EmptySpan(Admissions(events, Replay(events, expiration, limitOf, durationOf).1, key), from, durationOf(key));
    } else {
      NoWindowOverflows(events, expiration, limitOf, durationOf, 0, key, from);
    }
  }

  /** At literal inputs: one request per ten seconds, an expiration of five, and the second request is let in after
      six seconds, so two within ten. */
  lemma ShortExpirationForgets()
    ensures var events := [Asked(7, 0), Sweep(6), Asked(7, 6)];
            var limitOf, durationOf := (key: int) => 1, (key: int) => 10;
            && Replay(events, 5, limitOf, durationOf).1 == [Some(true), None, Some(true)]
            && Answers(events, limitOf, durationOf) == [Some(true), None, Some(false)]
            && LetIn(events, 5, limitOf, durationOf, 7, 0) == 2
  {
    var limitOf, durationOf := (key: int) => 1, (key: int) => 10;
    var e1, e2 := [Asked(7, 0)], [Asked(7, 0), Sweep(6)];
    NoEvents(5, limitOf, durationOf);
    Next([], Asked(7, 0), 5, limitOf, durationOf);
    Next(e1, Sweep(6), 5, limitOf, durationOf);
    Next(e2, Asked(7, 6), 5, limitOf, durationOf);
    assert [] + [Asked(7, 0)] == e1 && e1 + [Sweep(6)] == e2;
    assert e2 + [Asked(7, 6)] == [Asked(7, 0), Sweep(6), Asked(7, 6)];
    assert Burst(7, 1) == e1;
    hide Replay, Log, Answers, Admissions, InSpan;
    FillOne(7, 0, 5, limitOf, durationOf);
    SweptOpens(7, 1, 5, limitOf, durationOf);
    SweepLogs(Filled(7, 1), 6, limitOf, durationOf);
    ForgottenOverflows(5, limitOf, durationOf, 7);
  }

  lemma OneAdmission<K(!new)>(key: K, duration: int)
    requires 1 < duration
    ensures var store := map[key := [0]];
      && RequestOn(map[], key, 0, duration, 0) == (store, true)
      && RequestOn(store, key, 0, duration, 1) == (store, false)
      && RequestOn(store, key, 0, duration, duration).1
  {
  }

  /** At literal inputs: with a limit of 0 the first request is admitted, and another one per window after it. */
  lemma ZeroLimitAdmits()
    ensures var events := [Asked(7, 0), Asked(7, 1), Asked(7, 60)];
            Replay(events, 1200, (key: int) => 0, (key: int) => 60).1 == [Some(true), Some(false), Some(true)]
  {
    hide Replay, Log, Answers, StepLog, RequestOn, NoneEmpty;
    var limitOf, durationOf := (key: int) => 0, (key: int) => 60;
    var e1, e2 := [Asked(7, 0)], [Asked(7, 0), Asked(7, 1)];
    NoEvents(1200, limitOf, durationOf);
    Next([], Asked(7, 0), 1200, limitOf, durationOf);
    Next(e1, Asked(7, 1), 1200, limitOf, durationOf);
    Next(e2, Asked(7, 60), 1200, limitOf, durationOf);
    assert [] + [Asked(7, 0)] == e1 && e1 + [Asked(7, 1)] == e2;
    assert e2 + [Asked(7, 60)] == [Asked(7, 0), Asked(7, 1), Asked(7, 60)];
    OneAdmission(7, 60);
  }
}
