/** The check-then-act admission of request bodies to the disk cache: the availability check and the
    counter increment are separate moments, and any number of requests interleave. */
module CacheAccounting {
  import opened Wrappers
  import opened BodyStorage

  datatype Config = Config(enabled: bool, threshold: int, maxBytes: int)

  /** `pending` are the bodies between the availability check and the increment; `disk` and `memory`
      the sizes of the open storages. */
  datatype State = State(counters: Counters, pending: seq<nat>, disk: seq<nat>, memory: seq<nat>)

  /** `Check` is the creation from bytes; `CheckStream` the creation from a stream, which is checked with the length
      it announces and counted with its own. `Abort` is a stream that is refused after it was let in. */
  datatype Step =
    | Check(size: nat)
    | CheckStream(announced: int, size: nat)
    | Commit(i: nat)
    | FallBack(i: nat)
    | Abort(i: nat)
    | CloseDisk(i: nat)
    | CloseMemory(i: nat)

  const START := State(Counters(0, 0, 0, 0), [], [], [])

  function Available(cfg: Config, s: State, size: int): bool {
    cfg.enabled && s.counters.diskBytes + size <= cfg.maxBytes
  }

  predicate Enabled(s: State, step: Step) {
    match step
    case Check(_) => true
    case CheckStream(_, _) => true
    case Commit(i) => i < |s.pending|
    case FallBack(i) => i < |s.pending|
    case Abort(i) => i < |s.pending|
    case CloseDisk(i) => i < |s.disk|
    case CloseMemory(i) => i < |s.memory|
  }

  function Drop(sizes: seq<nat>, i: nat): seq<nat>
    requires i < |sizes|
  {
    sizes[..i] + sizes[i + 1..]
  }

  /** A body that is not admitted goes to memory at once; one whose cache file cannot be created
      falls back to memory. A stream that is not admitted is read and then created from its bytes. */
  function Apply(cfg: Config, s: State, step: Step): State
    requires Enabled(s, step)
  {
    match step
    case Check(size) =>
      if size >= cfg.threshold && Available(cfg, s, size) then s.(pending := s.pending + [size])
      else s.(counters := MemoryAdded(s.counters, size), memory := s.memory + [size])
    case CheckStream(announced, size) =>
      if announced > 0 && announced >= cfg.threshold && Available(cfg, s, announced)
      then s.(pending := s.pending + [size]) else s
    case Commit(i) =>
      s.(counters := DiskAdded(s.counters, s.pending[i]), pending := Drop(s.pending, i),
         disk := s.disk + [s.pending[i]])
    case FallBack(i) =>
      s.(counters := MemoryAdded(s.counters, s.pending[i]), pending := Drop(s.pending, i),
         memory := s.memory + [s.pending[i]])
    case Abort(i) => s.(pending := Drop(s.pending, i))
    case CloseDisk(i) => s.(counters := DiskRemoved(s.counters, s.disk[i]), disk := Drop(s.disk, i))
    case CloseMemory(i) => s.(counters := MemoryRemoved(s.counters, s.memory[i]), memory := Drop(s.memory, i))
  }

  /** What is known of the bodies: at most `k` are ever pending, none is larger than `largest`, and none exceeds
      the length it announces by more than `excess`. */
  datatype Limits = Limits(k: nat, largest: nat, excess: nat)

  predicate Within(limits: Limits, step: Step) {
    match step
    case Check(size) => size <= limits.largest
    case CheckStream(announced, size) => size <= limits.largest && size <= announced + limits.excess
    case _ => true
  }

  /** The state after the steps, provided they keep within the limits. */
  function Exec(cfg: Config, steps: seq<Step>, limits: Limits): Option<State> {
    if steps == [] then Some(START)
    else
      match Exec(cfg, steps[..|steps| - 1], limits)
      case None => None
      case Some(s) =>
        var last := steps[|steps| - 1];
        if Enabled(s, last) && Within(limits, last) && |Apply(cfg, s, last).pending| <= limits.k
        then Some(Apply(cfg, s, last)) else None
  }

  function Sum(sizes: seq<nat>): nat {
    if sizes == [] then 0 else sizes[0] + Sum(sizes[1..])
  }

  lemma {:induction false} SumDrop(sizes: seq<nat>, i: nat)
    requires i < |sizes|
    ensures Sum(Drop(sizes, i)) == Sum(sizes) - sizes[i]
  {
    if i == 0 {
      assert Drop(sizes, 0) == sizes[1..];
    } else {
      SumDrop(sizes[1..], i - 1);
      assert Drop(sizes, i) == [sizes[0]] + Drop(sizes[1..], i - 1);
    }
  }

  lemma {:induction false} SumAppend(sizes: seq<nat>, size: nat)
    ensures Sum(sizes + [size]) == Sum(sizes) + size
  {
    if sizes == [] {
      assert [] + [size] == [size];
    } else {
      SumAppend(sizes[1..], size);
      assert (sizes + [size])[1..] == sizes[1..] + [size];
    }
  }

  lemma {:induction false} SumBound(sizes: seq<nat>, largest: nat)
    requires forall i :: 0 <= i < |sizes| ==> sizes[i] <= largest
    ensures Sum(sizes) <= |sizes| * largest
  {
    if sizes != [] {
      SumBound(sizes[1..], largest);
    }
  }

  /** The counters tell the truth about the open storages. */
  ghost predicate Truthful(s: State) {
    s.counters == Counters(|s.disk|, Sum(s.disk), |s.memory|, Sum(s.memory))
  }

  /** What is on disk and what is on its way there. */
  ghost predicate Bounded(cfg: Config, s: State, limits: Limits) {
    && (forall i :: 0 <= i < |s.pending| ==> s.pending[i] <= limits.largest)
    && Sum(s.disk) + Sum(s.pending) <= cfg.maxBytes + (limits.k - 1) * limits.largest + limits.excess
  }

  lemma StepKeepsTruth(cfg: Config, s: State, step: Step)
    requires Truthful(s) && Enabled(s, step)
    ensures Truthful(Apply(cfg, s, step))
  {
    match step
    case Check(size) => SumAppend(s.memory, size);
    case CheckStream(_, _) =>
    case Abort(_) =>
    case Commit(i) => SumAppend(s.disk, s.pending[i]);
    case FallBack(i) => SumAppend(s.memory, s.pending[i]);
    case CloseDisk(i) => SumDrop(s.disk, i);
    case CloseMemory(i) => SumDrop(s.memory, i);
  }

  /** Every admitted body leaves the queue once, to the disk, to memory or for good, and nothing else moves. */
  lemma StepMoves(cfg: Config, s: State, step: Step)
    requires Enabled(s, step)
    ensures var t := Apply(cfg, s, step);
            match step
            case Check(size) =>
              if cfg.enabled && size >= cfg.threshold && s.counters.diskBytes + size <= cfg.maxBytes
              then (t.pending, t.disk, t.memory) == (s.pending + [size], s.disk, s.memory)
              else (t.pending, t.disk, t.memory) == (s.pending, s.disk, s.memory + [size])
            case CheckStream(announced, size) =>
              && (t.disk, t.memory) == (s.disk, s.memory)
              && t.pending == s.pending +
                 if cfg.enabled && announced > 0 && announced >= cfg.threshold &&
                    s.counters.diskBytes + announced <= cfg.maxBytes then [size] else []
            case Commit(i) =>
              (t.pending, t.disk, t.memory) == (Drop(s.pending, i), s.disk + [s.pending[i]], s.memory)
            case FallBack(i) =>
              (t.pending, t.disk, t.memory) == (Drop(s.pending, i), s.disk, s.memory + [s.pending[i]])
            case Abort(i) => (t.pending, t.disk, t.memory) == (Drop(s.pending, i), s.disk, s.memory)
            case CloseDisk(i) => (t.pending, t.disk, t.memory) == (s.pending, Drop(s.disk, i), s.memory)
            case CloseMemory(i) => (t.pending, t.disk, t.memory) == (s.pending, s.disk, Drop(s.memory, i))
  {
    assert s.pending + [] == s.pending;
  }

  lemma MulMonotone(a: nat, b: nat, c: nat)
    requires a <= b
    ensures a * c <= b * c
  {
  }

  lemma RoomForOneMore(pending: seq<nat>, k: nat, largest: nat)
    requires |pending| < k && forall i :: 0 <= i < |pending| ==> pending[i] <= largest
    ensures Sum(pending) <= (k - 1) * largest
  {
    hide Sum;
    SumBound(pending, largest);
    MulMonotone(|pending|, k - 1, largest);
  }

  lemma StepKeepsBound(cfg: Config, s: State, step: Step, limits: Limits)
    requires Truthful(s) && Bounded(cfg, s, limits) && Enabled(s, step)
    requires Within(limits, step) && |Apply(cfg, s, step).pending| <= limits.k
    ensures Bounded(cfg, Apply(cfg, s, step), limits)
  {
    match step
    case Check(size) =>
      if size >= cfg.threshold && Available(cfg, s, size) {
        SumAppend(s.pending, size);
        RoomForOneMore(s.pending, limits.k, limits.largest);
      }
    case CheckStream(announced, size) =>
      if announced > 0 && announced >= cfg.threshold && Available(cfg, s, announced) {
        SumAppend(s.pending, size);
        RoomForOneMore(s.pending, limits.k, limits.largest);
      }
    case Commit(i) =>
      SumAppend(s.disk, s.pending[i]);
      SumDrop(s.pending, i);
    case FallBack(i) => SumDrop(s.pending, i);
    case Abort(i) => SumDrop(s.pending, i);
    case CloseDisk(i) => SumDrop(s.disk, i);
    case CloseMemory(_) =>
  }

  lemma {:induction false} RunsKeep(cfg: Config, steps: seq<Step>, limits: Limits, s: State)
    requires 0 <= cfg.maxBytes && 1 <= limits.k && Exec(cfg, steps, limits) == Some(s)
    ensures Truthful(s) && Bounded(cfg, s, limits)
  {
    if steps == [] {
      assert (limits.k - 1) * limits.largest >= 0;
    } else {
      hide Apply, Truthful, Bounded, Within, Enabled;
      var front, last := steps[..|steps| - 1], steps[|steps| - 1];
      var before := Exec(cfg, front, limits).value;
      RunsKeep(cfg, front, limits, before);
      StepKeepsTruth(cfg, before, last);
      StepKeepsBound(cfg, before, last, limits);
    }
  }

  /** In every run the counters equal the number and byte sum of the open storages, and the disk usage stays within
      `maxBytes + (k - 1) * largest + excess`: within the maximum when admissions are serialised (k = 1) and no
      stream exceeds the length it announces. */
  lemma UsageBound(cfg: Config, steps: seq<Step>, limits: Limits, s: State)
    requires 0 <= cfg.maxBytes && 1 <= limits.k && Exec(cfg, steps, limits) == Some(s)
    ensures Truthful(s) && Bounded(cfg, s, limits)
    ensures s.counters.diskBytes <= cfg.maxBytes + (limits.k - 1) * limits.largest + limits.excess
    ensures limits.k == 1 && limits.excess == 0 ==> s.counters.diskBytes <= cfg.maxBytes
  {
    hide Exec;
    RunsKeep(cfg, steps, limits, s);
  }

  function Repeat(size: nat, n: nat): seq<nat> {
    seq(n, _ => size)
  }

  function Checks(step: Step, n: nat): seq<Step> {
    seq(n, _ => step)
  }

  function Commits(n: nat): seq<Step> {
    seq(n, _ => Commit(0))
  }

  lemma ExecNext(cfg: Config, steps: seq<Step>, last: Step, limits: Limits, s: State)
    requires Exec(cfg, steps, limits) == Some(s) && Enabled(s, last)
    requires Within(limits, last) && |Apply(cfg, s, last).pending| <= limits.k
    ensures Exec(cfg, steps + [last], limits) == Some(Apply(cfg, s, last))
  {
    assert (steps + [last])[..|steps|] == steps;
  }

  /** A step that lets a body of this size in while nothing is counted yet. */
  predicate LetsIn(cfg: Config, step: Step, size: nat) {
    && cfg.enabled
    && (step == Check(size) || (step.CheckStream? && step.size == size && step.announced > 0))
    && var asked := if step.Check? then size else step.announced;
       cfg.threshold <= asked <= cfg.maxBytes
  }

  lemma {:induction false} AllChecked(cfg: Config, step: Step, size: nat, limits: Limits, n: nat)
    requires LetsIn(cfg, step, size) && Within(limits, step) && n <= limits.k
    ensures Exec(cfg, Checks(step, n), limits) == Some(START.(pending := Repeat(size, n)))
  {
    if n == 0 {
      assert Checks(step, 0) == [] && Repeat(size, 0) == [];
    } else {
      AllChecked(cfg, step, size, limits, n - 1);
      assert Checks(step, n - 1) + [step] == Checks(step, n);
      assert Repeat(size, n - 1) + [size] == Repeat(size, n);
      hide Exec;
      ExecNext(cfg, Checks(step, n - 1), step, limits, START.(pending := Repeat(size, n - 1)));
    }
  }

  function HalfWay(size: nat, k: nat, n: nat): State
    requires n <= k
  {
    State(Counters(n, n * size, 0, 0), Repeat(size, k - n), Repeat(size, n), [])
  }

  lemma CommitOne(cfg: Config, size: nat, k: nat, n: nat)
    requires n < k
    ensures Apply(cfg, HalfWay(size, k, n), Commit(0)) == HalfWay(size, k, n + 1)
  {
    assert Drop(Repeat(size, k - n), 0) == Repeat(size, k - n - 1);
    assert Repeat(size, n) + [size] == Repeat(size, n + 1);
    assert n * size + size == (n + 1) * size;
  }

  lemma {:induction false} AllCommitted(cfg: Config, step: Step, size: nat, limits: Limits, n: nat)
    requires LetsIn(cfg, step, size) && Within(limits, step) && n <= limits.k
    ensures Exec(cfg, Checks(step, limits.k) + Commits(n), limits) == Some(HalfWay(size, limits.k, n))
  {
    hide Exec;
    var k := limits.k;
    if n == 0 {
      AllChecked(cfg, step, size, limits, k);
      assert Checks(step, k) + Commits(0) == Checks(step, k);
      assert Repeat(size, 0) == [];
    } else {
      AllCommitted(cfg, step, size, limits, n - 1);
      CommitOne(cfg, size, k, n - 1);
      ExecNext(cfg, Checks(step, k) + Commits(n - 1), Commit(0), limits, HalfWay(size, k, n - 1));
      assert Checks(step, k) + Commits(n - 1) + [Commit(0)] == Checks(step, k) + Commits(n);
    }
  }

  /** The bound is reached: k bodies as large as the whole cache, all checked before any is counted; and with streams
      that exceed the length they announce, k that announce the whole cache and exceed it by `excess`. */
  lemma BoundIsTight(cfg: Config, k: nat, excess: nat)
    requires cfg.enabled && 0 <= cfg.threshold <= cfg.maxBytes && 1 <= k && (excess > 0 ==> cfg.maxBytes > 0)
    ensures var size := cfg.maxBytes + excess;
            var step := if excess == 0 then Check(size) else CheckStream(cfg.maxBytes, size);
            var end := Exec(cfg, Checks(step, k) + Commits(k), Limits(k, size, excess));
            end.Some? && end.value.counters.diskBytes == cfg.maxBytes + (k - 1) * size + excess
  {
    var size := cfg.maxBytes + excess;
    var step := if excess == 0 then Check(size) else CheckStream(cfg.maxBytes, size);
    AllCommitted(cfg, step, size, Limits(k, size, excess), k);
    assert k * size == size + (k - 1) * size;
  }
}
