/**
 * The process-wide `upload_metrics` record: four counters, the effect of one
 * request on them, their balance invariant and the read-only `get_metrics`
 * accessor.
 */
module Metrics {

  /** The outcome counter a request's exit bumps, besides the total. */
  datatype Counter = Failed | Unauthorized | Successful

  /** A copy of the four counters, as `get_metrics` reports them. */
  datatype MetricsSnapshot = MetricsSnapshot(
    totalUploads: nat,
    failedUploads: nat,
    successfulUploads: nat,
    unauthorizedUploads: nat)

  /** The counters at process start. */
  const Initial: MetricsSnapshot := MetricsSnapshot(0, 0, 0, 0)

  /** The value of one outcome counter. */
  function CounterValue(m: MetricsSnapshot, c: Counter): nat {
    match c
    case Failed => m.failedUploads
    case Unauthorized => m.unauthorizedUploads
    case Successful => m.successfulUploads
  }

  /** The sum of the three outcome counters. */
  function OutcomeSum(m: MetricsSnapshot): nat {
    m.failedUploads + m.successfulUploads + m.unauthorizedUploads
  }

  /** Every request counted in the total has been counted under exactly one outcome. */
  predicate Balanced(m: MetricsSnapshot) {
    m.totalUploads == OutcomeSum(m)
  }

  /** `upload_metrics[key] += 1` for the outcome key `c`: that counter grows by one, nothing else moves. */
  function Increment(m: MetricsSnapshot, c: Counter): (r: MetricsSnapshot)
    ensures r.totalUploads == m.totalUploads
    ensures CounterValue(r, c) == CounterValue(m, c) + 1
    ensures forall d :: d != c ==> CounterValue(r, d) == CounterValue(m, d)
    ensures OutcomeSum(r) == OutcomeSum(m) + 1
  {
    match c
    case Failed => m.(failedUploads := m.failedUploads + 1)
    case Unauthorized => m.(unauthorizedUploads := m.unauthorizedUploads + 1)
    case Successful => m.(successfulUploads := m.successfulUploads + 1)
  }

  /**
   * The counters after one request that exits through outcome `c`: the total
   * and `c` grow by one, the other two outcomes keep their values, and the
   * balance is kept.
   */
  function Record(m: MetricsSnapshot, c: Counter): (r: MetricsSnapshot)
    ensures r.totalUploads == m.totalUploads + 1
    ensures CounterValue(r, c) == CounterValue(m, c) + 1
    ensures forall d :: d != c ==> CounterValue(r, d) == CounterValue(m, d)
    ensures Balanced(m) ==> Balanced(r)
  {
    Increment(m, c).(totalUploads := m.totalUploads + 1)
  }

  /** Increments the outcome counters in `outcomes`, in order; the sum of the three grows by their number. */
  function IncrementAll(m: MetricsSnapshot, outcomes: seq<Counter>): (r: MetricsSnapshot)
    ensures r.totalUploads == m.totalUploads
    ensures OutcomeSum(r) == OutcomeSum(m) + |outcomes|
    decreases |outcomes|
  {
    if outcomes == [] then m else IncrementAll(Increment(m, outcomes[0]), outcomes[1..])
  }

  /**
   * The counters after one request that bumps the total and then each of
   * `outcomes`, in order. Balanced counters stay balanced exactly when the
   * request bumps exactly one outcome counter.
   */
  function RecordRequest(m: MetricsSnapshot, outcomes: seq<Counter>): (r: MetricsSnapshot)
    ensures r.totalUploads == m.totalUploads + 1
    ensures OutcomeSum(r) == OutcomeSum(m) + |outcomes|
    ensures Balanced(m) ==> (Balanced(r) <==> |outcomes| == 1)
  {
    IncrementAll(m.(totalUploads := m.totalUploads + 1), outcomes)
  }

  /** Each outcome counter grows by the number of times it occurs in the request's outcomes. */
  lemma {:induction false} IncrementAllCounts(m: MetricsSnapshot, outcomes: seq<Counter>)
    ensures forall c :: CounterValue(IncrementAll(m, outcomes), c) == CounterValue(m, c) + multiset(outcomes)[c]
    decreases |outcomes|
  {
    if outcomes != [] {
      IncrementAllCounts(Increment(m, outcomes[0]), outcomes[1..]);
      assert outcomes == [outcomes[0]] + outcomes[1..];
      assert multiset(outcomes) == multiset{outcomes[0]} + multiset(outcomes[1..]);
    }
  }

  /**
   * The four ways a request can move the counters: the total grows by one,
   * and so does the failure, the unauthorized or the success counter, or
   * both the success and the failure counters.
   */
  lemma RecordRequestExits(m: MetricsSnapshot)
    ensures RecordRequest(m, [Failed])
            == MetricsSnapshot(m.totalUploads + 1, m.failedUploads + 1, m.successfulUploads, m.unauthorizedUploads)
    ensures RecordRequest(m, [Unauthorized])
            == MetricsSnapshot(m.totalUploads + 1, m.failedUploads, m.successfulUploads, m.unauthorizedUploads + 1)
    ensures RecordRequest(m, [Successful])
            == MetricsSnapshot(m.totalUploads + 1, m.failedUploads, m.successfulUploads + 1, m.unauthorizedUploads)
    ensures RecordRequest(m, [Successful, Failed])
            == MetricsSnapshot(m.totalUploads + 1, m.failedUploads + 1, m.successfulUploads + 1, m.unauthorizedUploads)
  {
    var m' := m.(totalUploads := m.totalUploads + 1);
    assert [Successful, Failed][1..] == [Failed];
    assert IncrementAll(m', [Successful, Failed]) == IncrementAll(Increment(m', Successful), [Failed]);
  }

  /** A request with a single outcome moves the counters as `Record` does. */
  lemma RecordRequestSingle(m: MetricsSnapshot, c: Counter)
    ensures RecordRequest(m, [c]) == Record(m, c)
  {
    RecordRequestExits(m);
  }

  /** The counters after a sequence of requests with the given outcomes, in order. */
  function Replay(m: MetricsSnapshot, outcomes: seq<Counter>): MetricsSnapshot
    decreases |outcomes|
  {
    if outcomes == [] then m else Replay(Record(m, outcomes[0]), outcomes[1..])
  }

  /**
   * After a sequence of requests the total has grown by their number and each
   * outcome counter by the number of requests that exited through it.
   */
  lemma {:induction false} ReplayCounts(m: MetricsSnapshot, outcomes: seq<Counter>)
    ensures Replay(m, outcomes).totalUploads == m.totalUploads + |outcomes|
    ensures forall c :: CounterValue(Replay(m, outcomes), c) == CounterValue(m, c) + multiset(outcomes)[c]
    decreases |outcomes|
  {
    if outcomes != [] {
      ReplayCounts(Record(m, outcomes[0]), outcomes[1..]);
      assert outcomes == [outcomes[0]] + outcomes[1..];
      assert multiset(outcomes) == multiset{outcomes[0]} + multiset(outcomes[1..]);
    }
  }

  /** Starting from zero, any sequence of requests leaves the counters balanced. */
  lemma {:induction false} ReplayFromInitialBalanced(outcomes: seq<Counter>)
    ensures Balanced(Replay(Initial, outcomes))
    ensures Replay(Initial, outcomes).totalUploads == |outcomes|
  {
    ReplayCounts(Initial, outcomes);
    var r := Replay(Initial, outcomes);
    assert CounterValue(r, Failed) == multiset(outcomes)[Failed];
    assert CounterValue(r, Unauthorized) == multiset(outcomes)[Unauthorized];
    assert CounterValue(r, Successful) == multiset(outcomes)[Successful];
    MultisetOfOutcomes(outcomes);
  }

  /** Every outcome is one of the three counters. */
  lemma {:induction false} MultisetOfOutcomes(outcomes: seq<Counter>)
    ensures |outcomes| == multiset(outcomes)[Failed] + multiset(outcomes)[Unauthorized] + multiset(outcomes)[Successful]
  {
    if outcomes != [] {
      MultisetOfOutcomes(outcomes[1..]);
      assert outcomes == [outcomes[0]] + outcomes[1..];
      assert multiset(outcomes) == multiset{outcomes[0]} + multiset(outcomes[1..]);
      match outcomes[0]
      case Failed =>
      case Unauthorized =>
      case Successful =>
    }
  }

  /** `upload_metrics`, updated in place by every upload request. */
  class UploadMetrics {
    var totalUploads: nat
    var failedUploads: nat
    var successfulUploads: nat
    var unauthorizedUploads: nat

    /** The counters as a value. */
    function Snapshot(): MetricsSnapshot
      reads this
    {
      MetricsSnapshot(totalUploads, failedUploads, successfulUploads, unauthorizedUploads)
    }

    /**
     * The counters satisfy the balance invariant (`Balanced` of the snapshot);
     * `BumpTotal` alone breaks it, until an outcome is bumped.
     */
    ghost predicate Balanced()
      reads this
    {
      totalUploads == OutcomeSum(Snapshot())
    }

    /** `upload_metrics["total_uploads"] += 1`. */
    method BumpTotal()
      modifies this
      ensures Snapshot() == old(Snapshot()).(totalUploads := old(totalUploads) + 1)
    {
      totalUploads := totalUploads + 1;
    }

    /** `upload_metrics[key] += 1` for the outcome key `c`. */
    method Bump(c: Counter)
      modifies this
      ensures Snapshot() == Increment(old(Snapshot()), c)
    {
      match c
      case Failed => failedUploads := failedUploads + 1;
      case Unauthorized => unauthorizedUploads := unauthorizedUploads + 1;
      case Successful => successfulUploads := successfulUploads + 1;
    }

    /** The module-level initialisation: all four counters at zero. */
    constructor ()
      ensures Snapshot() == Initial && Balanced()
    {
      totalUploads, failedUploads, successfulUploads, unauthorizedUploads := 0, 0, 0, 0;
    }
  }

  /**
   * `get_metrics`: reports the four counters and changes nothing; when the
   * counters are balanced, so is the report.
   */
  method GetMetrics(metrics: UploadMetrics) returns (snapshot: MetricsSnapshot)
    ensures snapshot.totalUploads == metrics.totalUploads
    ensures snapshot.failedUploads == metrics.failedUploads
    ensures snapshot.successfulUploads == metrics.successfulUploads
    ensures snapshot.unauthorizedUploads == metrics.unauthorizedUploads
    ensures metrics.Balanced() ==> Balanced(snapshot)
  {
    snapshot := MetricsSnapshot(
      metrics.totalUploads, metrics.failedUploads,
      metrics.successfulUploads, metrics.unauthorizedUploads);
  }
}
