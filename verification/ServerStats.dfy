/** Server-side statistics of a measurement: per-window differences of the
    server's 64-bit counters, one node per model of an ensemble, and their sum
    over the windows of a stable result. */
module ServerStats {
  import opened Basics

  type uint64 = n: nat | n < UINT64

  /** The statistics of a model; times in nanoseconds. */
  datatype Counters = Counters(
    inferenceCount: uint64,
    executionCount: uint64,
    successCount: uint64,
    queueCount: uint64,
    computeInputCount: uint64,
    computeInferCount: uint64,
    computeOutputCount: uint64,
    cummTime: uint64,
    queueTime: uint64,
    computeInputTime: uint64,
    computeInferTime: uint64,
    computeOutputTime: uint64,
    cacheHitCount: uint64,
    cacheHitTime: uint64,
    cacheMissCount: uint64,
    cacheMissTime: uint64)

  const ZEROS: Counters := Counters(0, 0, 0, 0, 0, 0, 0, 0, 0, 0, 0, 0, 0, 0, 0, 0)

  /** Unsigned subtraction. */
  function Difference(start: uint64, end: uint64): uint64 {
    (end + UINT64 - start) % UINT64
  }

  /** Unsigned addition. */
  function Total(a: uint64, b: uint64): uint64 {
    (a + b) % UINT64
  }

  function Minus(end: Counters, start: Counters): Counters {
    Counters(
      Difference(start.inferenceCount, end.inferenceCount),
      Difference(start.executionCount, end.executionCount), Difference(start.successCount, end.successCount),
      Difference(start.queueCount, end.queueCount), Difference(start.computeInputCount, end.computeInputCount),
      Difference(start.computeInferCount, end.computeInferCount),
      Difference(start.computeOutputCount, end.computeOutputCount), Difference(start.cummTime, end.cummTime),
      Difference(start.queueTime, end.queueTime), Difference(start.computeInputTime, end.computeInputTime),
      Difference(start.computeInferTime, end.computeInferTime),
      Difference(start.computeOutputTime, end.computeOutputTime),
      Difference(start.cacheHitCount, end.cacheHitCount), Difference(start.cacheHitTime, end.cacheHitTime),
      Difference(start.cacheMissCount, end.cacheMissCount), Difference(start.cacheMissTime, end.cacheMissTime))
  }

  function Plus(a: Counters, b: Counters): Counters {
    Counters(
      Total(a.inferenceCount, b.inferenceCount), Total(a.executionCount, b.executionCount),
      Total(a.successCount, b.successCount), Total(a.queueCount, b.queueCount),
      Total(a.computeInputCount, b.computeInputCount), Total(a.computeInferCount, b.computeInferCount),
      Total(a.computeOutputCount, b.computeOutputCount), Total(a.cummTime, b.cummTime),
      Total(a.queueTime, b.queueTime), Total(a.computeInputTime, b.computeInputTime),
      Total(a.computeInferTime, b.computeInferTime), Total(a.computeOutputTime, b.computeOutputTime),
      Total(a.cacheHitCount, b.cacheHitCount), Total(a.cacheHitTime, b.cacheHitTime),
      Total(a.cacheMissCount, b.cacheMissCount), Total(a.cacheMissTime, b.cacheMissTime))
  }

  /** The counters by name. */
  datatype Counter =
    | InferenceCount
    | ExecutionCount
    | SuccessCount
    | QueueCount
    | ComputeInputCount
    | ComputeInferCount
    | ComputeOutputCount
    | CummTime
    | QueueTime
    | ComputeInputTime
    | ComputeInferTime
    | ComputeOutputTime
    | CacheHitCount
    | CacheHitTime
    | CacheMissCount
    | CacheMissTime

  function Value(c: Counters, f: Counter): uint64 {
    match f
    case InferenceCount => c.inferenceCount
    case ExecutionCount => c.executionCount
    case SuccessCount => c.successCount
    case QueueCount => c.queueCount
    case ComputeInputCount => c.computeInputCount
    case ComputeInferCount => c.computeInferCount
    case ComputeOutputCount => c.computeOutputCount
    case CummTime => c.cummTime
    case QueueTime => c.queueTime
    case ComputeInputTime => c.computeInputTime
    case ComputeInferTime => c.computeInferTime
    case ComputeOutputTime => c.computeOutputTime
    case CacheHitCount => c.cacheHitCount
    case CacheHitTime => c.cacheHitTime
    case CacheMissCount => c.cacheMissCount
    case CacheMissTime => c.cacheMissTime
  }

  /** Subtraction and addition act on every counter by itself. */
  lemma CounterMinus(end: Counters, start: Counters, f: Counter)
    ensures Value(Minus(end, start), f) == Difference(Value(start, f), Value(end, f))
  {
  }

  lemma CounterPlus(a: Counters, b: Counters, f: Counter)
    ensures Value(Plus(a, b), f) == (Value(a, f) + Value(b, f)) % UINT64
  {
  }

  /** A difference is what has to be added, modulo 2^64; for a counter that has not
      wrapped around it is the plain difference. */
  lemma DifferenceMeans(start: uint64, end: uint64)
    ensures (start + Difference(start, end)) % UINT64 == end
    ensures start <= end ==> Difference(start, end) == end - start
  {
  }

  datatype Key = Key(name: string, version: int)

  /** A model as the user or an ensemble names it, perhaps without version. */
  datatype ModelId = ModelId(name: string, version: Option<int>)

  type Status = map<Key, Counters>

  function Get(status: Status, k: Key): Counters {
    if k in status then status[k] else ZEROS
  }

  datatype Tree = Node(stats: Counters, composing: map<Key, Tree>)

  // ------------------------------------------------- version

  /** Whether version v of the model has queued something during the window. */
  predicate Advanced(name: string, start: Status, end: Status, v: int) {
    Key(name, v) in end && end[Key(name, v)].queueCount > Get(start, Key(name, v)).queueCount
  }

  /** The highest version that advanced, or -1. */
  ghost predicate IsHighest(name: string, start: Status, end: Status, v: int) {
    && v >= -1 && (v == -1 || Advanced(name, start, end, v))
    && forall u :: Advanced(name, start, end, u) ==> u <= v
  }

  /** The loop over the end statistics. */
  method HighestAdvanced(name: string, start: Status, end: Status) returns (version: int)
    ensures IsHighest(name, start, end, version)
  {
    version := -1;
    var todo := end.Keys;
    while todo != {}
      invariant todo <= end.Keys
      invariant version >= -1 && (version == -1 || Advanced(name, start, end, version))
      invariant forall u :: Advanced(name, start, end, u) ==> u <= version || Key(name, u) in todo
      decreases |todo|
    {
      var k :| k in todo;
      if k.name == name && end[k].queueCount > Get(start, k).queueCount {
        version := if version < k.version then k.version else version;
      }
      todo := todo - {k};
    }
  }

  lemma HighestExists(name: string, start: Status, end: Status, keys: set<Key>) returns (version: int)
    requires keys <= end.Keys
    ensures version >= -1 && (version == -1 || Advanced(name, start, end, version))
    ensures forall u :: Advanced(name, start, end, u) && Key(name, u) in keys ==> u <= version
  {
    if keys == {} {
      version := -1;
    } else {
      var k :| k in keys;
      version := HighestExists(name, start, end, keys - {k});
      if Advanced(name, start, end, k.version) && k.name == name {
        version := if version < k.version then k.version else version;
      }
    }
  }

  lemma HighestTotal(name: string, start: Status, end: Status)
    ensures exists v :: IsHighest(name, start, end, v)
  {
    var v := HighestExists(name, start, end, end.Keys);
    assert IsHighest(name, start, end, v);
  }

  ghost function Highest(name: string, start: Status, end: Status): int {
    HighestTotal(name, start, end);
    var v :| IsHighest(name, start, end, v);
    v
  }

  /** An ensemble: the models each model is composed of, by name. `rank` makes
      the composition acyclic. */
  datatype Ensemble = Ensemble(composing: map<string, set<ModelId>>, rank: map<string, nat>, caching: bool) {
    function Parts(name: string): set<ModelId> {
      if name in composing then composing[name] else {}
    }

    function Rank(name: string): nat {
      if name in rank then rank[name] else 0
    }

    ghost predicate Acyclic() {
      forall name, c :: name in composing && c in composing[name] ==> Rank(c.name) < Rank(name)
    }
  }

  /** The version to report on; -1 stands for none, which is an error unless the
      ensemble may have answered from its cache. */
  ghost function Resolve(e: Ensemble, id: ModelId, start: Status, end: Status): Result<int, Failure> {
    var version :=
      if id.version.None? then Highest(id.name, start, end)
      else if Key(id.name, id.version.value) in end then id.version.value
      else -1;
    if version == -1 && !e.caching then Err(Failure) else Ok(version)
  }

  method DetermineStatsModelVersion(e: Ensemble, id: ModelId, start: Status, end: Status) returns (r: Result<int, Failure>)
    ensures r == Resolve(e, id, start, end)
  {
    var version := -1;
    if id.version.None? {
      version := HighestAdvanced(id.name, start, end);
      HighestTotal(id.name, start, end);
    } else if Key(id.name, id.version.value) in end {
      version := id.version.value;
    }
    if version == -1 && !e.caching {
      return Err(Failure);
    }
    r := Ok(version);
  }

  // ------------------------------------------------- one window

  /** The counters of one model over a window. A model without end statistics
      reports zeros. */
  function NodeStats(k: Key, start: Status, end: Status): Counters {
    if k in end then Minus(end[k], Get(start, k)) else ZEROS
  }

  /** What a window reports of each counter: the end value of a model that was not
      there at its start, else the difference; nothing of a model that is not
      there at its end. */
  lemma NodeCounter(k: Key, start: Status, end: Status, f: Counter)
    ensures Value(NodeStats(k, start, end), f) ==
              if k !in end then 0
              else if k !in start then Value(end[k], f)
              else Difference(Value(start[k], f), Value(end[k], f))
  {
    if k in end {
      CounterMinus(end[k], Get(start, k), f);
      DifferenceMeans(0, Value(end[k], f));
    }
  }

  function Fixed(k: Key): ModelId {
    ModelId(k.name, Some(k.version))
  }

  /** The keys under which the parts of a model are reported. */
  ghost function PartKeys(e: Ensemble, name: string, start: Status, end: Status): (ks: set<Key>)
    ensures forall k :: k in ks ==> exists c :: c in e.Parts(name) && c.name == k.name
  {
    set c | c in e.Parts(name) && Resolve(e, c, start, end).Ok? :: Key(c.name, Resolve(e, c, start, end).value)
  }

  ghost predicate PartsResolve(e: Ensemble, name: string, start: Status, end: Status) {
    forall c :: c in e.Parts(name) ==> Resolve(e, c, start, end).Ok?
  }

  ghost predicate Summarizes(e: Ensemble, id: ModelId, start: Status, end: Status)
    requires e.Acyclic()
    decreases e.Rank(id.name)
  {
    && Resolve(e, id, start, end).Ok? && PartsResolve(e, id.name, start, end)
    && forall k :: k in PartKeys(e, id.name, start, end) ==> Summarizes(e, Fixed(k), start, end)
  }

  /** The report of a window: the tree of the model and its parts. */
  ghost function Summary(e: Ensemble, id: ModelId, start: Status, end: Status): Tree
    requires e.Acyclic() && Summarizes(e, id, start, end)
    decreases e.Rank(id.name)
  {
    Node(NodeStats(Key(id.name, Resolve(e, id, start, end).value), start, end),
         map k | k in PartKeys(e, id.name, start, end) :: Summary(e, Fixed(k), start, end))
  }

  /** The report has a node for every composing model, under its name and resolved
      version, and for nothing else. */
  lemma SummaryNodes(e: Ensemble, id: ModelId, start: Status, end: Status, k: Key)
    requires e.Acyclic() && Summarizes(e, id, start, end)
    ensures k in Summary(e, id, start, end).composing <==>
              && id.name in e.composing
              && exists c :: c in e.composing[id.name] && c.name == k.name && Resolve(e, c, start, end) == Ok(k.version)
  {
  }

  /** What the resolved version is: the one asked for if it is reported, the
      highest one whose queue count grew if none is asked for, and an error
      otherwise, except that an ensemble with a cache may go without. */
  lemma ResolveMeans(e: Ensemble, id: ModelId, start: Status, end: Status, v: int)
    requires v >= 0
    ensures Resolve(e, id, start, end) == Ok(v) <==>
              match id.version
              case Some(u) => u == v && Key(id.name, v) in end
              case None =>
                && Grew(id.name, start, end, v)
                && forall u :: u > v ==> !Grew(id.name, start, end, u)
    ensures Resolve(e, id, start, end).Err? ==> !e.caching
  {
    if id.version.None? {
      var h := Highest(id.name, start, end);
      assert IsHighest(id.name, start, end, h);
      assert forall u :: Grew(id.name, start, end, u) <==> Advanced(id.name, start, end, u);
    }
  }

  /** The model's queue count is higher at the end, where it must be reported. */
  predicate Grew(name: string, start: Status, end: Status, v: int) {
    var k := Key(name, v);
    k in end && (if k in start then start[k].queueCount < end[k].queueCount else end[k].queueCount > 0)
  }

  // ------------------------------------------------- merging windows

  function SumStats(ts: seq<Tree>): Counters {
    if ts == [] then ZEROS else Plus(SumStats(ts[..|ts| - 1]), ts[|ts| - 1].stats)
  }

  /** Looking up a missing part inserts an empty node. */
  function Child(t: Tree, k: Key): Tree {
    if k in t.composing then t.composing[k] else Node(ZEROS, map[])
  }

  function Children(ts: seq<Tree>, k: Key): (r: seq<Tree>)
    ensures |r| == |ts|
  {
    seq(|ts|, i requires 0 <= i < |ts| => Child(ts[i], k))
  }

  ghost predicate Merges(ts: seq<Tree>)
    requires ts != []
    decreases ts[0]
  {
    && (forall i :: 0 <= i < |ts| ==> |ts[i].composing| == |ts[0].composing|)
    && forall k :: k in ts[0].composing ==> Merges(Children(ts, k))
  }

  ghost function Merged(ts: seq<Tree>): Tree
    requires ts != [] && Merges(ts)
    decreases ts[0]
  {
    Node(SumStats(ts), map k | k in ts[0].composing :: Merged(Children(ts, k)))
  }

  /** A tree is the merged one when it agrees at the node and at every part. */
  lemma {:induction false} MergedNode(ts: seq<Tree>, target: Tree)
    requires ts != [] && target.composing.Keys == ts[0].composing.Keys && SumStats(ts) == target.stats
    requires forall i :: 0 <= i < |ts| ==> |ts[i].composing| == |ts[0].composing|
    requires forall k :: k in ts[0].composing ==>
               Merges(Children(ts, k)) && Merged(Children(ts, k)) == target.composing[k]
    ensures Merges(ts) && Merged(ts) == target
  {
    assert Merges(ts);
    assert Merged(ts).composing == target.composing;
  }

  /** Merging a single report gives that report. */
  lemma {:induction false} MergedAlone(t: Tree)
    ensures Merges([t]) && Merged([t]) == t
    decreases t
  {
    forall k | k in t.composing
      ensures Merges(Children([t], k)) && Merged(Children([t], k)) == t.composing[k]
    {
      MergedAlone(t.composing[k]);
      assert Children([t], k) == [t.composing[k]];
    }
    SumAlone(t);
    MergedNode([t], t);
  }

  lemma SumAlone(t: Tree)
    ensures SumStats([t]) == t.stats
  {
    assert [t][..0] == [];
    assert Plus(ZEROS, t.stats) == t.stats;
  }

  /** Merging adds up every counter over the reports. */
  lemma MergedAdds(ts: seq<Tree>, t: Tree, f: Counter)
    ensures Value(SumStats(ts + [t]), f) == (Value(SumStats(ts), f) + Value(t.stats, f)) % UINT64
  {
    assert (ts + [t])[..|ts|] == ts;
    CounterPlus(SumStats(ts), t.stats, f);
  }

  // ------------------------------------------------- the two recursions

  /** SummarizeServerStats: fails exactly when the model or one of its parts
      cannot be resolved. */
  method SummarizeServerStats(e: Ensemble, id: ModelId, start: Status, end: Status) returns (r: Result<Tree, Failure>)
    requires e.Acyclic()
    ensures r.Ok? <==> Summarizes(e, id, start, end)
    ensures r.Ok? ==> r.value == Summary(e, id, start, end)
    decreases e.Rank(id.name), 1
  {
    var version := DetermineStatsModelVersion(e, id, start, end);
    if version.Err? {
      return Err(Failure);
    }
    var parts := SummarizeParts(e, id.name, start, end);
    if parts.Err? {
      return Err(Failure);
    }
    var stats := NodeStats(Key(id.name, version.value), start, end);
    NodeSummarizes(e, id, start, end);
    SummaryParts(e, id, start, end, parts.value);
    r := Ok(Node(stats, parts.value));
  }

  lemma {:induction false} NodeSummarizes(e: Ensemble, id: ModelId, start: Status, end: Status)
    requires e.Acyclic() && Resolve(e, id, start, end).Ok? && PartsSummarize(e, id.name, start, end)
    ensures Summarizes(e, id, start, end)
  {
  }

  lemma {:induction false} SummaryParts(e: Ensemble, id: ModelId, start: Status, end: Status, parts: map<Key, Tree>)
    requires e.Acyclic() && Summarizes(e, id, start, end)
    requires parts.Keys == PartKeys(e, id.name, start, end)
    requires forall k :: k in parts ==> IsSummary(e, k, start, end, parts[k])
    ensures Summary(e, id, start, end).composing == parts
  {
  }

  /** Every part could be resolved and summarized. */
  ghost predicate PartsSummarize(e: Ensemble, name: string, start: Status, end: Status)
    requires e.Acyclic()
  {
    && PartsResolve(e, name, start, end)
    && forall k :: k in PartKeys(e, name, start, end) ==> Summarizes(e, Fixed(k), start, end)
  }

  ghost predicate IsSummary(e: Ensemble, k: Key, start: Status, end: Status, t: Tree)
    requires e.Acyclic()
  {
    Summarizes(e, Fixed(k), start, end) && t == Summary(e, Fixed(k), start, end)
  }

  /** The report on one composing model, under its resolved version. */
  method SummarizePart(e: Ensemble, c: ModelId, start: Status, end: Status) returns (r: Result<(Key, Tree), Failure>)
    requires e.Acyclic()
    ensures r.Ok? ==> Resolve(e, c, start, end) == Ok(r.value.0.version) && r.value.0.name == c.name
    ensures r.Ok? ==> IsSummary(e, r.value.0, start, end, r.value.1)
    ensures r.Err? ==>
              var v := Resolve(e, c, start, end); v.Err? || !Summarizes(e, Fixed(Key(c.name, v.value)), start, end)
    decreases e.Rank(c.name), 2
  {
    var v := DetermineStatsModelVersion(e, c, start, end);
    if v.Err? {
      return Err(Failure);
    }
    var k := Key(c.name, v.value);
    var part := SummarizeServerStats(e, Fixed(k), start, end);
    if part.Err? {
      return Err(Failure);
    }
    r := Ok((k, part.value));
  }

  /** The loop over the composing models. */
  method SummarizeParts(e: Ensemble, name: string, start: Status, end: Status) returns (r: Result<map<Key, Tree>, Failure>)
    requires e.Acyclic()
    ensures r.Ok? <==> PartsSummarize(e, name, start, end)
    ensures r.Ok? ==> r.value.Keys == PartKeys(e, name, start, end)
    ensures r.Ok? ==> forall k :: k in r.value ==> IsSummary(e, k, start, end, r.value[k])
    decreases e.Rank(name), 0
  {
    var parts: map<Key, Tree> := map[];
    var todo := e.Parts(name);
    while todo != {}
      invariant todo <= e.Parts(name)
      invariant forall c :: c in e.Parts(name) - todo ==>
                  Resolve(e, c, start, end).Ok? && Key(c.name, Resolve(e, c, start, end).value) in parts
      invariant forall k :: k in parts ==> k in PartKeys(e, name, start, end) && IsSummary(e, k, start, end, parts[k])
      decreases |todo|
    {
      var c :| c in todo;
      var part := SummarizePart(e, c, start, end);
      if part.Err? {
        PartMissing(e, name, c, start, end);
        return Err(Failure);
      }
      var (k, t) := part.value;
      assert k in PartKeys(e, name, start, end);
      parts := parts[k := t];
      todo := todo - {c};
    }
    r := Ok(parts);
  }

  lemma PartMissing(e: Ensemble, name: string, c: ModelId, start: Status, end: Status)
    requires e.Acyclic() && c in e.Parts(name)
    requires var v := Resolve(e, c, start, end); v.Err? || !Summarizes(e, Fixed(Key(c.name, v.value)), start, end)
    ensures !PartsSummarize(e, name, start, end)
  {
    var v := Resolve(e, c, start, end);
    if v.Ok? {
      assert Key(c.name, v.value) in PartKeys(e, name, start, end);
    }
  }

  /** MergeServerSideStats: fails exactly when two windows differ in the number
      of parts of some node. */
  method MergeServerSideStats(ts: seq<Tree>) returns (r: Result<Tree, Failure>)
    requires ts != []
    ensures r.Ok? <==> Merges(ts)
    ensures r.Ok? ==> r.value == Merged(ts)
    decreases ts[0]
  {
    var uniform := SameSize(ts);
    if !uniform {
      return Err(Failure);
    }
    var parts: map<Key, Tree> := map[];
    var todo := ts[0].composing.Keys;
    while todo != {}
      invariant todo <= ts[0].composing.Keys && parts.Keys == ts[0].composing.Keys - todo
      invariant forall k :: k in parts ==> Merges(Children(ts, k)) && parts[k] == Merged(Children(ts, k))
      decreases |todo|
    {
      var k :| k in todo;
      var part := MergeServerSideStats(Children(ts, k));
      if part.Err? {
        return Err(Failure);
      }
      parts := parts[k := part.value];
      todo := todo - {k};
    }
    var stats := AddStats(ts);
    MergedNode(ts, Node(stats, parts));
    r := Ok(Node(stats, parts));
  }

  method SameSize(ts: seq<Tree>) returns (uniform: bool)
    requires ts != []
    ensures uniform <==> forall i :: 0 <= i < |ts| ==> |ts[i].composing| == |ts[0].composing|
  {
    for i := 1 to |ts|
      invariant forall j :: 0 <= j < i ==> |ts[j].composing| == |ts[0].composing|
    {
      if |ts[i].composing| != |ts[0].composing| {
        return false;
      }
    }
    uniform := true;
  }

  method AddStats(ts: seq<Tree>) returns (stats: Counters)
    ensures stats == SumStats(ts)
  {
    stats := ZEROS;
    for i := 0 to |ts|
      invariant stats == SumStats(ts[..i])
    {
      assert ts[..i + 1][..i] == ts[..i];
      stats := Plus(stats, ts[i].stats);
    }
    assert ts[..|ts|] == ts;
  }
}
