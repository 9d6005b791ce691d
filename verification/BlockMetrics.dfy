/**
 * Per-block attribution of scraped Prometheus counters: each scrape's counter increase is spread evenly over
 * the blocks since the previous scrape. Arithmetic is over exact reals.
 */
module BlockMetrics {
  import opened Basics

  datatype Scalar = Counter(value: real) | Gauge(value: real)

  datatype Distribution = Distribution(sum: Option<real>, count: Option<real>)

  datatype Snapshot = Snapshot(scalars: map<string, Scalar>, distributions: map<string, Distribution>)

  type Metrics = map<string, real>

  /** The increase since the previous value; a counter that went down has restarted from zero. */
  function CounterDelta(value: real, previous: Option<real>): real {
    if previous.Some? && value >= previous.value then value - previous.value else value
  }

  function PreviousCounter(s: Snapshot, key: string): Option<real> {
    if key in s.scalars && s.scalars[key].Counter? then Some(s.scalars[key].value) else None
  }

  function ScalarValue(current: Snapshot, previous: Snapshot, blocks: nat, key: string): real
    requires key in current.scalars
  {
    match current.scalars[key]
    case Counter(value) => CounterDelta(value, PreviousCounter(previous, key)) / (Max(blocks, 1) as real)
    case Gauge(value) => value
  }

  function PreviousDistribution(s: Snapshot, key: string): Distribution {
    if key in s.distributions then s.distributions[key] else Distribution(None, None)
  }

  /** The average of the observations made since the previous scrape, if there were any. */
  function Average(current: Snapshot, previous: Snapshot, key: string): Option<real> {
    if key !in current.distributions then None
    else
      var d, before := current.distributions[key], PreviousDistribution(previous, key);
      if d.sum.None? || d.count.None? then None
      else
        var count := CounterDelta(d.count.value, before.count);
        if count > 0.0 then Some(CounterDelta(d.sum.value, before.sum) / count) else None
  }

  const AVG := "_avg"

  /** The average reported under a name, if the name is some distribution's. */
  function AverageNamed(current: Snapshot, previous: Snapshot, name: string): Option<real> {
    if |name| >= |AVG| && name[|name| - |AVG|..] == AVG
    then Average(current, previous, name[..|name| - |AVG|])
    else None
  }

  /** What is reported under a name. A distribution's average shadows a scalar of the same name. */
  function Reported(current: Snapshot, previous: Snapshot, blocks: nat, name: string): Option<real> {
    if AverageNamed(current, previous, name).Some? then AverageNamed(current, previous, name)
    else if name in current.scalars then Some(ScalarValue(current, previous, blocks, name))
    else None
  }

  ghost predicate Maps(metrics: Metrics, name: string, value: Option<real>) {
    if value.Some? then name in metrics && metrics[name] == value.value else name !in metrics
  }

  lemma AverageName(current: Snapshot, previous: Snapshot, key: string)
    ensures AverageNamed(current, previous, key + AVG) == Average(current, previous, key)
  {
    var name := key + AVG;
    assert name[|name| - |AVG|..] == AVG && name[..|name| - |AVG|] == key;
  }

  /** Only averages of the distributions in `done` are in yet. */
  ghost predicate PartlyMaps(metrics: Metrics, scalars: Metrics, current: Snapshot, previous: Snapshot,
                             done: set<string>, name: string)
  {
    var average := AverageNamed(current, previous, name);
    if average.Some? && name[..|name| - |AVG|] in done then Maps(metrics, name, average)
    else (name in metrics <==> name in scalars) && (name in metrics ==> metrics[name] == scalars[name])
  }

  lemma OneMoreAverage(metrics: Metrics, scalars: Metrics, current: Snapshot, previous: Snapshot,
                       done: set<string>, key: string, name: string)
    requires PartlyMaps(metrics, scalars, current, previous, done, name)
    ensures var average := Average(current, previous, key);
            var more := if average.Some? then metrics[key + AVG := average.value] else metrics;
            PartlyMaps(more, scalars, current, previous, done + {key}, name)
  {
    AverageName(current, previous, key);
    if AverageNamed(current, previous, name).Some? {
      assert name == name[..|name| - |AVG|] + AVG;
    }
  }

  /** The scalars of one scrape, per block. */
  method ScalarDeltas(current: Snapshot, previous: Snapshot, blocks: nat) returns (metrics: Metrics)
    ensures metrics.Keys == current.scalars.Keys
    ensures forall k :: k in metrics ==> metrics[k] == ScalarValue(current, previous, blocks, k)
  {
    metrics := map[];
    var left := current.scalars.Keys;
    while left != {}
      invariant left <= current.scalars.Keys && metrics.Keys == current.scalars.Keys - left
      invariant forall k :: k in metrics ==> metrics[k] == ScalarValue(current, previous, blocks, k)
    {
      var key :| key in left;
      metrics := metrics[key := ScalarValue(current, previous, blocks, key)];
      left := left - {key};
    }
  }

  /** The report of one scrape: under every name exactly what should be reported there. */
  method DeltaForBlocks(current: Snapshot, previous: Snapshot, blocks: nat) returns (metrics: Metrics)
    ensures forall name :: Maps(metrics, name, Reported(current, previous, blocks, name))
  {
    metrics := ScalarDeltas(current, previous, blocks);
    ghost var scalars := metrics;
    var left := current.distributions.Keys;
    while left != {}
      invariant left <= current.distributions.Keys
      invariant forall name :: PartlyMaps(metrics, scalars, current, previous, current.distributions.Keys - left, name)
    {
      var key :| key in left;
      ghost var done, before := current.distributions.Keys - left, metrics;
      left := left - {key};
      var average := Average(current, previous, key);
      if average.Some? {
        metrics := metrics[key + AVG := average.value];
      }
      assert current.distributions.Keys - left == done + {key};
      forall name ensures PartlyMaps(metrics, scalars, current, previous, done + {key}, name) {
        OneMoreAverage(before, scalars, current, previous, done, key, name);
      }
    }
    assert current.distributions.Keys - left == current.distributions.Keys;
    forall name ensures Maps(metrics, name, Reported(current, previous, blocks, name)) {
      assert PartlyMaps(metrics, scalars, current, previous, current.distributions.Keys, name);
    }
  }

  // ---- The collector ----

  const RETH := "reth_"

  /** The diagnostic prefixes, all of which follow `RETH`. */
  const PREFIXES: seq<string> := [
    "base_builder_", "sync_execution_", "sync_block_validation_", "sync_state_provider_",
    "consensus_engine_beacon_block_insert_", "consensus_engine_beacon_new_payload_",
    "consensus_engine_beacon_backpressure_", "consensus_engine_beacon_failed_",
    "consensus_engine_persistence_save_blocks_", "storage_providers_database_save_blocks_",
    "tree_root_sparse_trie_", "parallel_sparse_trie_", "trie_proof_task_", "trie_cursor_overall_duration",
    "trie_hashed_cursor_overall_duration", "trie_leaves_added", "trie_branches_added",
    "transaction_pool_pending_pool_transactions", "transaction_pool_total_transactions", "db_freelist"]

  predicate HasDiagnosticPrefix(name: string) {
    exists p :: p in PREFIXES && p <= name
  }

  predicate IsDiagnostic(name: string) {
    RETH <= name && HasDiagnosticPrefix(name[|RETH|..])
  }

  const BLOCKS_PER_SCRAPE := "benchmark/prometheus_blocks_per_scrape"

  lemma BlocksPerScrapeIsNotDiagnostic()
    ensures !IsDiagnostic(BLOCKS_PER_SCRAPE)
  {
    assert BLOCKS_PER_SCRAPE[0] != RETH[0];
  }

  /** One round of the polling loop: the head it sees, and the scrape it makes if the head has moved. */
  datatype Poll = Poll(head: nat, scrape: Snapshot)

  datatype Collector = Collector(previous: Snapshot, lastHead: nat, samples: map<nat, Metrics>)

  ghost function Expected(current: Snapshot, previous: Snapshot, blocks: nat, name: string): Option<real> {
    if name == BLOCKS_PER_SCRAPE then Some(blocks as real)
    else if IsDiagnostic(name) then Reported(current, previous, blocks, name)
    else None
  }

  /** What a block of this scrape is to be reported with. */
  ghost predicate IsSample(metrics: Metrics, current: Snapshot, previous: Snapshot, blocks: nat) {
    forall name :: Maps(metrics, name, Expected(current, previous, blocks, name))
  }

  /** How one round may change the collector. */
  ghost predicate Round(before: Collector, poll: Poll, after: Collector) {
    if poll.head <= before.lastHead then after == before
    else
      && after.previous == poll.scrape && after.lastHead == poll.head
      && (forall b :: b in after.samples <==> b in before.samples || before.lastHead < b <= poll.head)
      && (forall b :: b in before.samples && !(before.lastHead < b <= poll.head) ==>
            after.samples[b] == before.samples[b])
      && (forall b :: before.lastHead < b <= poll.head ==>
            IsSample(after.samples[b], poll.scrape, before.previous, poll.head - before.lastHead))
  }

  method SampleBlocks(samples: map<nat, Metrics>, first: nat, last: nat, metrics: Metrics)
    returns (r: map<nat, Metrics>)
    requires first <= last + 1
    ensures forall b :: b in r <==> b in samples || first <= b <= last
    ensures forall b :: b in r ==> r[b] == if first <= b <= last then metrics else samples[b]
  {
    r := samples;
    for block := first to last + 1
      invariant forall b :: b in r <==> b in samples || first <= b < block
      invariant forall b :: b in r ==> r[b] == if first <= b < block then metrics else samples[b]
    {
      r := r[block := metrics];
    }
  }

  method PollOnce(before: Collector, poll: Poll) returns (after: Collector)
    ensures Round(before, poll, after)
  {
    after := before;
    if poll.head > before.lastHead {
      var blocks := poll.head - before.lastHead;
      var metrics := DeltaForBlocks(poll.scrape, before.previous, blocks);
      metrics := map name | name in metrics && IsDiagnostic(name) :: metrics[name];
      metrics := metrics[BLOCKS_PER_SCRAPE := blocks as real];
      BlocksPerScrapeIsNotDiagnostic();
      assert IsSample(metrics, poll.scrape, before.previous, blocks);
      var samples := SampleBlocks(before.samples, before.lastHead + 1, poll.head, metrics);
      after := Collector(poll.scrape, poll.head, samples);
    }
  }

  /** A run of the loop: the collector after each round, starting from the initial head and scrape. */
  ghost predicate IsRun(start: Collector, polls: seq<Poll>, states: seq<Collector>) {
    && |states| == |polls| + 1
    && states[0] == start && start.samples == map[]
    && forall i :: 0 <= i < |polls| ==> Round(states[i], polls[i], states[i + 1])
  }

  ghost predicate IsOutcome(start: Collector, polls: seq<Poll>, samples: map<nat, Metrics>) {
    exists states: seq<Collector> :: IsRun(start, polls, states) && samples == states[|polls|].samples
  }

  /** The rounds up to the one after which the loop returns. */
  method Collect(initialHead: nat, initial: Snapshot, polls: seq<Poll>) returns (samples: map<nat, Metrics>)
    ensures IsOutcome(Collector(initial, initialHead, map[]), polls, samples)
  {
    var c := Collector(initial, initialHead, map[]);
    ghost var states := [c];
    for i := 0 to |polls|
      invariant |states| == i + 1 && states[i] == c
      invariant IsRun(Collector(initial, initialHead, map[]), polls[..i], states)
    {
      c := PollOnce(c, polls[i]);
      states := states + [c];
    }
    assert polls[..|polls|] == polls;
    samples := c.samples;
    assert IsRun(Collector(initial, initialHead, map[]), polls, states) && samples == states[|polls|].samples;
  }

  /** Exactly one sample for every block after the initial head up to the last head seen. */
  lemma {:induction false} SamplesCoverBlocks(start: Collector, polls: seq<Poll>, states: seq<Collector>, n: nat)
    requires IsRun(start, polls, states) && n <= |polls|
    ensures states[n].lastHead >= start.lastHead
    ensures forall b :: b in states[n].samples <==> start.lastHead < b <= states[n].lastHead
    ensures forall i :: 0 <= i < n ==> polls[i].head <= states[n].lastHead
    ensures states[n].lastHead == start.lastHead || exists i :: 0 <= i < n && polls[i].head == states[n].lastHead
  {
    if n > 0 {
      SamplesCoverBlocks(start, polls, states, n - 1);
      assert Round(states[n - 1], polls[n - 1], states[n]);
    }
  }

  // ---- Accounting for a counter ----

  /** The sum of a metric over the blocks after `low` up to `high`. */
  ghost function Total(samples: map<nat, Metrics>, name: string, low: nat, high: nat): real
    requires forall b: nat :: low < b <= high ==> b in samples && name in samples[b]
  {
    if high <= low then 0.0 else Total(samples, name, low, high - 1) + samples[high][name]
  }

  ghost predicate HasCounter(c: Collector, name: string) {
    name in c.previous.scalars && c.previous.scalars[name].Counter?
  }

  /** The value of a counter in the last scrape. */
  ghost function ValueOf(c: Collector, name: string): real
    requires HasCounter(c, name)
  {
    c.previous.scalars[name].value
  }

  /** Whether a distribution's average is reported in place of the counter. */
  ghost predicate Shadowed(before: Collector, after: Collector, name: string) {
    AverageNamed(after.previous, before.previous, name).Some?
  }

  /** What a round attributes beyond the increase of the counter. */
  ghost function Excess(before: Collector, after: Collector, name: string): real
    requires HasCounter(before, name) && HasCounter(after, name)
  {
    var increase := ValueOf(after, name) - ValueOf(before, name);
    if after.lastHead <= before.lastHead then 0.0
    else if Shadowed(before, after, name) then
      var average := AverageNamed(after.previous, before.previous, name).value;
      ((after.lastHead - before.lastHead) as real) * average - increase
    else if increase < 0.0 then ValueOf(before, name)
    else 0.0
  }

  /** The counter is in the initial scrape and in every later one. */
  ghost predicate AlwaysThere(states: seq<Collector>, name: string) {
    forall c :: c in states ==> HasCounter(c, name)
  }

  ghost function TotalExcess(states: seq<Collector>, name: string, n: nat): real
    requires n < |states| && AlwaysThere(states, name)
  {
    if n == 0 then 0.0 else TotalExcess(states, name, n - 1) + Excess(states[n - 1], states[n], name)
  }

  lemma {:induction false} TotalOfEqual(samples: map<nat, Metrics>, name: string, low: nat, high: nat, v: real)
    requires low <= high
    requires forall b: nat :: low < b <= high ==> b in samples && name in samples[b] && samples[b][name] == v
    ensures Total(samples, name, low, high) == ((high - low) as real) * v
  {
    if low < high {
      TotalOfEqual(samples, name, low, high - 1, v);
      assert ((high - low) as real) * v == ((high - 1 - low) as real) * v + v;
    }
  }

  lemma {:induction false} TotalSplits(samples: map<nat, Metrics>, name: string, low: nat, middle: nat, high: nat)
    requires low <= middle <= high
    requires forall b: nat :: low < b <= high ==> b in samples && name in samples[b]
    ensures Total(samples, name, low, high) == Total(samples, name, low, middle) + Total(samples, name, middle, high)
  {
    if middle < high {
      TotalSplits(samples, name, low, middle, high - 1);
    }
  }

  lemma {:induction false} TotalOfSame(s: map<nat, Metrics>, t: map<nat, Metrics>, name: string, low: nat, high: nat)
    requires forall b: nat :: low < b <= high ==> b in s && b in t && name in s[b] && t[b] == s[b]
    ensures Total(s, name, low, high) == Total(t, name, low, high)
  {
    if low < high {
      TotalOfSame(s, t, name, low, high - 1);
    }
  }

  /** The samples are those of the blocks after `low` up to the last head, and each reports the metric. */
  ghost predicate Covers(c: Collector, name: string, low: nat) {
    && low <= c.lastHead
    && (forall b :: b in c.samples <==> low < b <= c.lastHead)
    && (forall b :: b in c.samples ==> name in c.samples[b])
  }

  ghost function TotalIn(c: Collector, name: string, low: nat): real
    requires Covers(c, name, low)
  {
    Total(c.samples, name, low, c.lastHead)
  }

  lemma SampleReports(metrics: Metrics, current: Snapshot, previous: Snapshot, blocks: nat, name: string)
    requires IsSample(metrics, current, previous, blocks) && IsDiagnostic(name)
    ensures Maps(metrics, name, Reported(current, previous, blocks, name))
  {
    BlocksPerScrapeIsNotDiagnostic();
    assert Maps(metrics, name, Expected(current, previous, blocks, name));
  }

  /** The new blocks of a scrape all report the same. */
  lemma NewBlockReports(before: Collector, poll: Poll, after: Collector, name: string, b: nat)
    requires Round(before, poll, after) && before.lastHead < b <= poll.head && IsDiagnostic(name)
    ensures Maps(after.samples[b], name, Reported(after.previous, before.previous, poll.head - before.lastHead, name))
  {
    SampleReports(after.samples[b], after.previous, before.previous, poll.head - before.lastHead, name);
  }

  lemma SharesAddUp(before: Collector, after: Collector, name: string, blocks: nat) returns (share: real)
    requires HasCounter(before, name) && HasCounter(after, name)
    requires blocks > 0 && blocks == after.lastHead - before.lastHead
    ensures Reported(after.previous, before.previous, blocks, name) == Some(share)
    ensures (blocks as real) * share == ValueOf(after, name) - ValueOf(before, name) + Excess(before, after, name)
  {
    share := Reported(after.previous, before.previous, blocks, name).value;
    if !Shadowed(before, after, name) {
      var delta := CounterDelta(ValueOf(after, name), Some(ValueOf(before, name)));
      assert (blocks as real) * (delta / (blocks as real)) == delta;
    }
  }

  lemma RoundCovers(before: Collector, poll: Poll, after: Collector, name: string, low: nat)
    requires Round(before, poll, after) && IsDiagnostic(name) && Covers(before, name, low)
    requires HasCounter(before, name) && HasCounter(after, name)
    ensures Covers(after, name, low)
  {
    forall b | b in after.samples ensures name in after.samples[b] {
      if before.lastHead < b {
        NewBlockReports(before, poll, after, name, b);
      }
    }
  }

  lemma TotalOfNew(before: Collector, poll: Poll, after: Collector, name: string, share: real, total: real)
    requires Round(before, poll, after) && IsDiagnostic(name) && before.lastHead < poll.head
    requires Reported(after.previous, before.previous, poll.head - before.lastHead, name) == Some(share)
    requires ((poll.head - before.lastHead) as real) * share == total
    ensures forall b: nat :: before.lastHead < b <= poll.head ==> b in after.samples && name in after.samples[b]
    ensures Total(after.samples, name, before.lastHead, poll.head) == total
  {
    forall b: nat | before.lastHead < b <= poll.head
      ensures b in after.samples && name in after.samples[b] && after.samples[b][name] == share
    {
      NewBlockReports(before, poll, after, name, b);
    }
    TotalOfEqual(after.samples, name, before.lastHead, poll.head, share);
  }

  lemma NewBlocksAddUp(before: Collector, poll: Poll, after: Collector, name: string)
    requires Round(before, poll, after) && IsDiagnostic(name) && before.lastHead < poll.head
    requires HasCounter(before, name) && HasCounter(after, name)
    ensures forall b: nat :: before.lastHead < b <= poll.head ==> b in after.samples && name in after.samples[b]
    ensures Total(after.samples, name, before.lastHead, poll.head)
         == ValueOf(after, name) - ValueOf(before, name) + Excess(before, after, name)
  {
    var blocks := poll.head - before.lastHead;
    var share := SharesAddUp(before, after, name, blocks);
    var increase := ValueOf(after, name) - ValueOf(before, name);
    TotalOfNew(before, poll, after, name, share, increase + Excess(before, after, name));
  }

  /** The blocks of earlier rounds keep what they were given. */
  lemma TotalGrows(before: Collector, poll: Poll, after: Collector, name: string, low: nat)
    requires Round(before, poll, after) && before.lastHead < poll.head
    requires Covers(before, name, low) && Covers(after, name, low)
    ensures TotalIn(after, name, low)
         == TotalIn(before, name, low) + Total(after.samples, name, before.lastHead, poll.head)
  {
    TotalSplits(after.samples, name, low, before.lastHead, poll.head);
    TotalOfSame(before.samples, after.samples, name, low, before.lastHead);
  }

  /** One round adds to the total the counter's increase and the round's excess. */
  lemma RoundAddsUp(before: Collector, poll: Poll, after: Collector, name: string, low: nat)
    requires Round(before, poll, after) && IsDiagnostic(name)
    requires HasCounter(before, name) && HasCounter(after, name)
    requires Covers(before, name, low) && Covers(after, name, low)
    ensures TotalIn(after, name, low)
         == TotalIn(before, name, low) + (ValueOf(after, name) - ValueOf(before, name) + Excess(before, after, name))
  {
    if poll.head > before.lastHead {
      NewBlocksAddUp(before, poll, after, name);
      TotalGrows(before, poll, after, name, low);
    }
  }

  /**
   * Summed over all blocks, a diagnostic counter that is in every scrape amounts to its final minus its
   * initial value, plus the value lost at every restart, plus what is off wherever an average shadows it.
   */
  lemma {:induction false} TotalIsAccountedFor(start: Collector, polls: seq<Poll>, states: seq<Collector>,
                                               name: string, n: nat)
    requires IsRun(start, polls, states) && n <= |polls|
    requires IsDiagnostic(name) && AlwaysThere(states, name)
    ensures Covers(states[n], name, start.lastHead)
    ensures TotalIn(states[n], name, start.lastHead)
         == ValueOf(states[n], name) - ValueOf(start, name) + TotalExcess(states, name, n)
  {
    if n > 0 {
      TotalIsAccountedFor(start, polls, states, name, n - 1);
      RoundCovers(states[n - 1], polls[n - 1], states[n], name, start.lastHead);
      RoundAddsUp(states[n - 1], polls[n - 1], states[n], name, start.lastHead);
    }
  }

  ghost predicate NeverDecreases(states: seq<Collector>, name: string)
    requires AlwaysThere(states, name)
  {
    forall i :: 0 < i < |states| ==> ValueOf(states[i - 1], name) <= ValueOf(states[i], name)
  }

  ghost predicate NeverShadowed(states: seq<Collector>, name: string) {
    forall i :: 0 < i < |states| && states[i - 1].lastHead < states[i].lastHead ==>
      !Shadowed(states[i - 1], states[i], name)
  }

  lemma {:induction false} NoExcess(states: seq<Collector>, name: string, n: nat)
    requires n < |states| && AlwaysThere(states, name) && NeverShadowed(states, name) && NeverDecreases(states, name)
    ensures TotalExcess(states, name, n) == 0.0
  {
    if n > 0 {
      NoExcess(states, name, n - 1);
    }
  }

  /** The per-block values of an unshadowed counter that never decreases add up to its whole increase. */
  lemma BlocksAddUp(start: Collector, polls: seq<Poll>, states: seq<Collector>, name: string)
    requires IsRun(start, polls, states) && IsDiagnostic(name)
    requires AlwaysThere(states, name) && NeverShadowed(states, name) && NeverDecreases(states, name)
    ensures Covers(states[|polls|], name, start.lastHead)
    ensures TotalIn(states[|polls|], name, start.lastHead) == ValueOf(states[|polls|], name) - ValueOf(start, name)
  {
    TotalIsAccountedFor(start, polls, states, name, |polls|);
    NoExcess(states, name, |polls|);
  }

  lemma {:induction false} ExcessOfRestarts(start: Collector, polls: seq<Poll>, states: seq<Collector>,
                                            name: string, n: nat)
    requires IsRun(start, polls, states) && n <= |polls|
    requires AlwaysThere(states, name) && NeverShadowed(states, name)
    requires forall c :: c in states ==> ValueOf(c, name) >= 0.0
    ensures TotalExcess(states, name, n) >= 0.0
    ensures TotalExcess(states, name, n) == 0.0 <==>
              forall i :: 0 < i <= n ==> ValueOf(states[i - 1], name) <= ValueOf(states[i], name)
  {
    if n > 0 {
      ExcessOfRestarts(start, polls, states, name, n - 1);
      assert Round(states[n - 1], polls[n - 1], states[n]);
    }
  }

  /** For an unshadowed counter that is never negative, they add up if and only if it never decreases. */
  lemma UnshadowedAddsUpIff(start: Collector, polls: seq<Poll>, states: seq<Collector>, name: string)
    requires IsRun(start, polls, states) && IsDiagnostic(name)
    requires AlwaysThere(states, name) && NeverShadowed(states, name)
    requires forall c :: c in states ==> ValueOf(c, name) >= 0.0
    ensures Covers(states[|polls|], name, start.lastHead)
    ensures TotalIn(states[|polls|], name, start.lastHead) == ValueOf(states[|polls|], name) - ValueOf(start, name)
       <==> NeverDecreases(states, name)
  {
    TotalIsAccountedFor(start, polls, states, name, |polls|);
    ExcessOfRestarts(start, polls, states, name, |polls|);
  }

  /**
   * Whether a round attributes exactly the counter's increase. If it samples no block there is nothing to
   * attribute. If an average shadows the counter, the average over the new blocks must happen to be the
   * increase. Otherwise the counter must not go down, or go down from zero.
   */
  ghost predicate IsExact(before: Collector, after: Collector, name: string)
    requires HasCounter(before, name) && HasCounter(after, name)
  {
    var increase := ValueOf(after, name) - ValueOf(before, name);
    if after.lastHead <= before.lastHead then true
    else if Shadowed(before, after, name) then
      var average := AverageNamed(after.previous, before.previous, name).value;
      ((after.lastHead - before.lastHead) as real) * average == increase
    else increase >= 0.0 || ValueOf(before, name) == 0.0
  }

  /** The per-block values so far add up to the counter's increase so far. */
  ghost predicate AddsUp(start: Collector, c: Collector, name: string)
    requires HasCounter(start, name) && HasCounter(c, name) && Covers(c, name, start.lastHead)
  {
    TotalIn(c, name, start.lastHead) == ValueOf(c, name) - ValueOf(start, name)
  }

  lemma ExactMeansNoExcess(before: Collector, after: Collector, name: string)
    requires HasCounter(before, name) && HasCounter(after, name)
    ensures IsExact(before, after, name) <==> Excess(before, after, name) == 0.0
  {
  }

  ghost predicate ExactUpTo(states: seq<Collector>, name: string, n: nat)
    requires n < |states| && AlwaysThere(states, name)
  {
    forall i :: 0 < i <= n ==> IsExact(states[i - 1], states[i], name)
  }

  lemma {:induction false} NoExcessIfExact(states: seq<Collector>, name: string, n: nat)
    requires n < |states| && AlwaysThere(states, name) && ExactUpTo(states, name, n)
    ensures TotalExcess(states, name, n) == 0.0
  {
    if n > 0 {
      NoExcessIfExact(states, name, n - 1);
      ExactMeansNoExcess(states[n - 1], states[n], name);
    }
  }

  lemma AllCovered(start: Collector, polls: seq<Poll>, states: seq<Collector>, name: string)
    requires IsRun(start, polls, states) && IsDiagnostic(name) && AlwaysThere(states, name)
    ensures forall n :: 0 <= n < |states| ==>
              && Covers(states[n], name, start.lastHead)
              && (AddsUp(start, states[n], name) <==> TotalExcess(states, name, n) == 0.0)
  {
    forall n | 0 <= n < |states|
      ensures Covers(states[n], name, start.lastHead)
      ensures AddsUp(start, states[n], name) <==> TotalExcess(states, name, n) == 0.0
    {
      TotalIsAccountedFor(start, polls, states, name, n);
    }
  }

  lemma ExactIfAddsUp(states: seq<Collector>, name: string, i: nat)
    requires 0 < i < |states| && AlwaysThere(states, name)
    requires TotalExcess(states, name, i - 1) == 0.0 && TotalExcess(states, name, i) == 0.0
    ensures IsExact(states[i - 1], states[i], name)
  {
    ExactMeansNoExcess(states[i - 1], states[i], name);
  }

  /**
   * For every diagnostic counter in every scrape, shadowed or not, the per-block values add up to its
   * increase at every moment of a run, if and only if every round is exact.
   */
  lemma BlocksAddUpIff(start: Collector, polls: seq<Poll>, states: seq<Collector>, name: string)
    requires IsRun(start, polls, states) && IsDiagnostic(name) && AlwaysThere(states, name)
    ensures forall n :: 0 <= n < |states| ==> Covers(states[n], name, start.lastHead)
    ensures (forall n :: 0 <= n < |states| ==> AddsUp(start, states[n], name)) <==>
            ExactUpTo(states, name, |polls|)
  {
    AllCovered(start, polls, states, name);
    if ExactUpTo(states, name, |polls|) {
      forall n | 0 <= n < |states| ensures AddsUp(start, states[n], name) {
        NoExcessIfExact(states, name, n);
      }
    }
    if forall n :: 0 <= n < |states| ==> AddsUp(start, states[n], name) {
      forall i | 0 < i <= |polls| ensures IsExact(states[i - 1], states[i], name) {
        assert AddsUp(start, states[i - 1], name) && AddsUp(start, states[i], name);
        ExactIfAddsUp(states, name, i);
      }
    }
  }

  lemma ShadowedSample(name: string, base: string, before: Snapshot, scrape: Snapshot, sample: Metrics)
    requires name == base + AVG && IsDiagnostic(name)
    requires before == Snapshot(map[name := Counter(0.0)], map[])
    requires scrape == Snapshot(map[name := Counter(1.0)], map[base := Distribution(Some(5.0), Some(1.0))])
    requires sample == map[name := 5.0, BLOCKS_PER_SCRAPE := 1.0]
    ensures IsSample(sample, scrape, before, 1)
  {
    BlocksPerScrapeIsNotDiagnostic();
    forall other ensures Maps(sample, other, Expected(scrape, before, 1, other)) {
      ShadowedReport(name, base, before, scrape, other);
    }
  }

  lemma ShadowedReport(name: string, base: string, before: Snapshot, scrape: Snapshot, other: string)
    requires name == base + AVG && before == Snapshot(map[name := Counter(0.0)], map[])
    requires scrape == Snapshot(map[name := Counter(1.0)], map[base := Distribution(Some(5.0), Some(1.0))])
    ensures Reported(scrape, before, 1, other) == if other == name then Some(5.0) else None
  {
    AverageName(scrape, before, base);
    if AverageNamed(scrape, before, other).Some? {
      assert other == other[..|other| - |AVG|] + AVG;
    }
  }

  lemma ShadowedRound(start: Collector, poll: Poll, end: Collector)
    requires start.lastHead == 0 && start.samples == map[] && poll.head == end.lastHead == 1
    requires poll.scrape == end.previous && end.samples.Keys == {1}
    requires IsSample(end.samples[1], poll.scrape, start.previous, 1)
    ensures Round(start, poll, end)
  {
  }

  /** A counter named like a distribution's average is reported with that average and does not add up. */
  lemma ShadowedCounterDoesNotAddUp(base: string)
    requires IsDiagnostic(base + AVG)
    ensures exists start, polls, states ::
              && IsRun(start, polls, states) && AlwaysThere(states, base + AVG) && NeverDecreases(states, base + AVG)
              && Covers(states[|polls|], base + AVG, start.lastHead)
              && TotalIn(states[|polls|], base + AVG, start.lastHead)
                 != ValueOf(states[|polls|], base + AVG) - ValueOf(start, base + AVG)
  {
    var name := base + AVG;
    var before := Snapshot(map[name := Counter(0.0)], map[]);
    var scrape := Snapshot(map[name := Counter(1.0)], map[base := Distribution(Some(5.0), Some(1.0))]);
    var sample := map[name := 5.0, BLOCKS_PER_SCRAPE := 1.0];
    ShadowedSample(name, base, before, scrape, sample);
    var start, end := Collector(before, 0, map[]), Collector(scrape, 1, map[1 := sample]);
    var polls, states := [Poll(1, scrape)], [start, end];
    ShadowedRound(start, polls[0], end);
    assert IsRun(start, polls, states);
    AverageName(scrape, before, base);
    TotalIsAccountedFor(start, polls, states, name, 1);
    assert TotalExcess(states, name, 1) == Excess(start, end, name) == 4.0;
  }

  /** A block of a round carries the number of blocks the round covers, and besides only diagnostic metrics. */
  lemma SampleHolds(before: Collector, poll: Poll, after: Collector, b: nat, name: string)
    requires Round(before, poll, after) && before.lastHead < b <= poll.head
    ensures var sample := after.samples[b];
            && "benchmark/prometheus_blocks_per_scrape" in sample
            && sample["benchmark/prometheus_blocks_per_scrape"] == (poll.head - before.lastHead) as real
            && (name in sample ==> name == "benchmark/prometheus_blocks_per_scrape" || IsDiagnostic(name))
  {
    var sample, blocks := after.samples[b], poll.head - before.lastHead;
    assert IsSample(sample, poll.scrape, before.previous, blocks);
    assert Maps(sample, BLOCKS_PER_SCRAPE, Expected(poll.scrape, before.previous, blocks, BLOCKS_PER_SCRAPE));
    assert Maps(sample, name, Expected(poll.scrape, before.previous, blocks, name));
  }

  // ---- What the reported numbers mean ----

  /** By how much a counter has gone up since before; one that went down or is new counts from zero. */
  ghost predicate IsIncrease(now: real, before: Option<real>, increase: real) {
    if before.Some? && before.value <= now then before.value + increase == now else increase == now
  }

  ghost function ScalarBefore(s: Snapshot, key: string): Option<Scalar> {
    if key in s.scalars then Some(s.scalars[key]) else None
  }

  ghost function CounterBefore(s: Snapshot, key: string): Option<real> {
    match ScalarBefore(s, key)
    case Some(Counter(value)) => Some(value)
    case _ => None
  }

  ghost function DistributionBefore(s: Snapshot, key: string): Distribution {
    if key in s.distributions then s.distributions[key] else Distribution(None, None)
  }

  /** The distribution has a sum and a count, and the average of its new observations is `v`. */
  ghost predicate IsAverage(current: Snapshot, previous: Snapshot, key: string, v: real) {
    && key in current.distributions
    && var d, before := current.distributions[key], DistributionBefore(previous, key);
       && d.sum.Some? && d.count.Some?
       && exists sum, count :: IsIncrease(d.sum.value, before.sum, sum)
                               && IsIncrease(d.count.value, before.count, count)
                               && count > 0.0 && v * count == sum
  }

  lemma DeltaIsIncrease(now: real, before: Option<real>, increase: real)
    ensures IsIncrease(now, before, increase) <==> increase == CounterDelta(now, before)
  {
  }

  lemma QuotientIs(v: real, n: real, d: real)
    requires d > 0.0
    ensures v == n / d <==> v * d == n
  {
  }

  lemma AverageIs(current: Snapshot, previous: Snapshot, key: string, v: real)
    ensures Average(current, previous, key) == Some(v) <==> IsAverage(current, previous, key, v)
  {
    if key in current.distributions && current.distributions[key].sum.Some? && current.distributions[key].count.Some? {
      var d, before := current.distributions[key], DistributionBefore(previous, key);
      var sum, count := CounterDelta(d.sum.value, before.sum), CounterDelta(d.count.value, before.count);
      forall x, y ensures IsIncrease(d.sum.value, before.sum, x) && IsIncrease(d.count.value, before.count, y)
                          <==> x == sum && y == count
      {
        DeltaIsIncrease(d.sum.value, before.sum, x);
        DeltaIsIncrease(d.count.value, before.count, y);
      }
      assert IsIncrease(d.sum.value, before.sum, sum) && IsIncrease(d.count.value, before.count, count);
      if count > 0.0 {
        QuotientIs(v, sum, count);
      }
    }
  }

  /** A gauge is reported as it is; a counter's increase is shared out evenly over the blocks. */
  ghost predicate IsShare(current: Snapshot, previous: Snapshot, blocks: nat, key: string, v: real) {
    match ScalarBefore(current, key)
    case None => false
    case Some(Gauge(value)) => v == value
    case Some(Counter(value)) =>
      exists increase :: IsIncrease(value, CounterBefore(previous, key), increase)
                         && v * ((if blocks == 0 then 1 else blocks) as real) == increase
  }

  lemma ShareIs(current: Snapshot, previous: Snapshot, blocks: nat, key: string, v: real)
    ensures IsShare(current, previous, blocks, key, v) <==>
            key in current.scalars && ScalarValue(current, previous, blocks, key) == v
  {
    if key in current.scalars && current.scalars[key].Counter? {
      var now, before := current.scalars[key].value, PreviousCounter(previous, key);
      var delta := CounterDelta(now, before);
      forall increase ensures IsIncrease(now, before, increase) <==> increase == delta {
        DeltaIsIncrease(now, before, increase);
      }
      assert CounterBefore(previous, key) == before && Max(blocks, 1) == if blocks == 0 then 1 else blocks;
      assert IsIncrease(now, CounterBefore(previous, key), delta);
      QuotientIs(v, delta, Max(blocks, 1) as real);
    }
  }

  /**
   * What is reported under a name: if it is that of a distribution with new observations, followed by
   * `_avg`, their average; otherwise the gauge of that name or the counter's increase per block.
   */
  lemma ReportedIs(current: Snapshot, previous: Snapshot, blocks: nat, name: string, v: real)
    ensures Reported(current, previous, blocks, name) == Some(v) <==>
            if exists key, w :: name == key + "_avg" && IsAverage(current, previous, key, w)
            then exists key :: name == key + "_avg" && IsAverage(current, previous, key, v)
            else IsShare(current, previous, blocks, name, v)
  {
    forall key, w | name == key + "_avg"
      ensures AverageNamed(current, previous, name) == Some(w) <==> IsAverage(current, previous, key, w)
    {
      AverageName(current, previous, key);
      AverageIs(current, previous, key, w);
    }
    if AverageNamed(current, previous, name).Some? {
      assert name == name[..|name| - |AVG|] + "_avg";
    }
    ShareIs(current, previous, blocks, name, v);
  }

  ghost predicate Continues(name: string, prefixes: seq<string>) {
    exists p, rest :: p in prefixes && name == p + rest
  }

  lemma ContinuesIff(name: string, prefixes: seq<string>)
    ensures Continues(name, prefixes) <==> exists p :: p in prefixes && p <= name
  {
    forall p | p in prefixes && p <= name ensures Continues(name, prefixes) {
      assert name == p + name[|p|..];
    }
    forall p, rest | p in prefixes && name == p + rest ensures p <= name {
    }
  }

  /** The diagnostic metrics are those whose name continues one of the listed prefixes after `reth_`. */
  lemma DiagnosticIff(name: string)
    ensures IsDiagnostic(name) <==> exists tail :: name == "reth_" + tail && Continues(tail, PREFIXES)
  {
    if RETH <= name {
      assert name == "reth_" + name[|RETH|..];
      ContinuesIff(name[|RETH|..], PREFIXES);
    }
    forall tail | name == "reth_" + tail && Continues(tail, PREFIXES) ensures IsDiagnostic(name) {
      assert name[|RETH|..] == tail && RETH <= name;
    }
  }
}
