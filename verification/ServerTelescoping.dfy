/** The merged server statistics of consecutive windows are the differences over
    the whole time, at every node of the ensemble tree. Each window starts from
    the statistics with which the previous one ended. */
module ServerTelescoping {
  import opened Basics
  import opened ServerStats

  // ------------------------------------------------- one node

  lemma DifferencesAdd(a: uint64, b: uint64, c: uint64)
    ensures Total(Difference(a, b), Difference(b, c)) == Difference(a, c)
  {
  }

  lemma MinusAdds(a: Counters, b: Counters, c: Counters)
    ensures Plus(Minus(b, a), Minus(c, b)) == Minus(c, a)
  {
    DifferencesAdd(a.inferenceCount, b.inferenceCount, c.inferenceCount);
    DifferencesAdd(a.executionCount, b.executionCount, c.executionCount);
    DifferencesAdd(a.successCount, b.successCount, c.successCount);
    DifferencesAdd(a.queueCount, b.queueCount, c.queueCount);
    DifferencesAdd(a.computeInputCount, b.computeInputCount, c.computeInputCount);
    DifferencesAdd(a.computeInferCount, b.computeInferCount, c.computeInferCount);
    DifferencesAdd(a.computeOutputCount, b.computeOutputCount, c.computeOutputCount);
    DifferencesAdd(a.cummTime, b.cummTime, c.cummTime);
    DifferencesAdd(a.queueTime, b.queueTime, c.queueTime);
    DifferencesAdd(a.computeInputTime, b.computeInputTime, c.computeInputTime);
    DifferencesAdd(a.computeInferTime, b.computeInferTime, c.computeInferTime);
    DifferencesAdd(a.computeOutputTime, b.computeOutputTime, c.computeOutputTime);
    DifferencesAdd(a.cacheHitCount, b.cacheHitCount, c.cacheHitCount);
    DifferencesAdd(a.cacheHitTime, b.cacheHitTime, c.cacheHitTime);
    DifferencesAdd(a.cacheMissCount, b.cacheMissCount, c.cacheMissCount);
    DifferencesAdd(a.cacheMissTime, b.cacheMissTime, c.cacheMissTime);
  }

  lemma MinusSelf(a: Counters)
    ensures Minus(a, a) == ZEROS
  {
  }

  /** A sum of differences between neighbours is one difference. */
  lemma {:induction false} SumTelescopes(ts: seq<Tree>, at: seq<Counters>)
    requires |at| == |ts| + 1
    requires forall i :: 0 <= i < |ts| ==> ts[i].stats == Minus(at[i + 1], at[i])
    ensures SumStats(ts) == Minus(at[|ts|], at[0])
  {
    if ts == [] {
      MinusSelf(at[0]);
    } else {
      var k := |ts| - 1;
      SumTelescopes(ts[..k], at[..k + 1]);
      MinusAdds(at[0], at[k], at[k + 1]);
    }
  }

  // ------------------------------------------------- windows

  /** The server numbers its versions from 0. */
  ghost predicate RealVersions(st: seq<Status>) {
    forall i, k :: 0 <= i < |st| && k in st[i] ==> k.version >= 0
  }

  /** A window that resolves a model to a version has seen that version at its
      end. */
  lemma ResolvedIsReported(e: Ensemble, id: ModelId, start: Status, end: Status)
    requires Resolve(e, id, start, end).Ok? && Resolve(e, id, start, end).value != -1
    ensures Key(id.name, Resolve(e, id, start, end).value) in end
  {
    HighestTotal(id.name, start, end);
  }

  /** Every window of the run could be summarized. */
  ghost predicate AllSummarize(e: Ensemble, id: ModelId, st: seq<Status>)
    requires e.Acyclic()
  {
    forall i :: 0 <= i < |st| - 1 ==> Summarizes(e, id, st[i], st[i + 1])
  }

  ghost predicate SameVersion(e: Ensemble, id: ModelId, st: seq<Status>)
    requires |st| >= 2
  {
    forall i :: 0 <= i < |st| - 1 ==> Resolve(e, id, st[i], st[i + 1]) == Resolve(e, id, st[0], st[1])
  }

  /** Every window resolves the model and all its parts to the same versions. */
  ghost predicate Steady(e: Ensemble, id: ModelId, st: seq<Status>)
    requires e.Acyclic() && |st| >= 2
    decreases e.Rank(id.name)
  {
    && SameVersion(e, id, st)
    && (forall c :: c in e.Parts(id.name) ==> SameVersion(e, c, st))
    && forall k :: k in PartKeys(e, id.name, st[0], st[1]) ==> Steady(e, Fixed(k), st)
  }

  ghost function Reports(e: Ensemble, id: ModelId, st: seq<Status>): (ts: seq<Tree>)
    requires e.Acyclic() && |st| >= 2 && AllSummarize(e, id, st)
    ensures |ts| == |st| - 1
    ensures forall i :: 0 <= i < |ts| ==> ts[i] == Summary(e, id, st[i], st[i + 1])
  {
    seq(|st| - 1, i requires 0 <= i < |st| - 1 => Summary(e, id, st[i], st[i + 1]))
  }

  /** What the merged report should say: last end minus first start, everywhere. */
  ghost function Overall(e: Ensemble, id: ModelId, st: seq<Status>): Tree
    requires e.Acyclic() && |st| >= 2 && AllSummarize(e, id, st)
    decreases e.Rank(id.name)
  {
    var key := Key(id.name, Resolve(e, id, st[0], st[1]).value);
    Node(Minus(Get(st[|st| - 1], key), Get(st[0], key)),
         map k | k in PartKeys(e, id.name, st[0], st[1]) && AllSummarize(e, Fixed(k), st) :: Overall(e, Fixed(k), st))
  }

  lemma SameKeys(e: Ensemble, id: ModelId, st: seq<Status>, i: nat)
    requires e.Acyclic() && |st| >= 2 && AllSummarize(e, id, st) && Steady(e, id, st) && i < |st| - 1
    ensures PartKeys(e, id.name, st[i], st[i + 1]) == PartKeys(e, id.name, st[0], st[1])
  {
    forall c | c in e.Parts(id.name)
      ensures Resolve(e, c, st[i], st[i + 1]) == Resolve(e, c, st[0], st[1])
    {
      assert SameVersion(e, c, st);
    }
  }

  lemma PartsSummarize(e: Ensemble, id: ModelId, st: seq<Status>, k: Key)
    requires e.Acyclic() && |st| >= 2 && AllSummarize(e, id, st) && Steady(e, id, st)
    requires k in PartKeys(e, id.name, st[0], st[1])
    ensures AllSummarize(e, Fixed(k), st)
  {
    forall i | 0 <= i < |st| - 1
      ensures Summarizes(e, Fixed(k), st[i], st[i + 1])
    {
      SameKeys(e, id, st, i);
      assert Summarizes(e, id, st[i], st[i + 1]);
    }
  }

  lemma PartReports(e: Ensemble, id: ModelId, st: seq<Status>, k: Key)
    requires e.Acyclic() && |st| >= 2 && AllSummarize(e, id, st) && Steady(e, id, st)
    requires k in PartKeys(e, id.name, st[0], st[1]) && AllSummarize(e, Fixed(k), st)
    ensures Children(Reports(e, id, st), k) == Reports(e, Fixed(k), st)
  {
    var ts := Reports(e, id, st);
    forall i | 0 <= i < |ts|
      ensures Children(ts, k)[i] == Reports(e, Fixed(k), st)[i]
    {
      SameKeys(e, id, st, i);
    }
  }

  lemma NodeTelescopes(e: Ensemble, id: ModelId, st: seq<Status>)
    requires e.Acyclic() && |st| >= 2 && RealVersions(st) && AllSummarize(e, id, st) && SameVersion(e, id, st)
    ensures var key := Key(id.name, Resolve(e, id, st[0], st[1]).value);
            SumStats(Reports(e, id, st)) == Minus(Get(st[|st| - 1], key), Get(st[0], key))
  {
    var key := Key(id.name, Resolve(e, id, st[0], st[1]).value);
    var ts := Reports(e, id, st);
    var at := seq(|st|, i requires 0 <= i < |st| => Get(st[i], key));
    forall i | 0 <= i < |ts|
      ensures ts[i].stats == Minus(at[i + 1], at[i])
    {
      assert Resolve(e, id, st[i], st[i + 1]) == Resolve(e, id, st[0], st[1]);
      if key.version != -1 {
        ResolvedIsReported(e, id, st[i], st[i + 1]);
      } else {
        MinusSelf(ZEROS);
      }
    }
    SumTelescopes(ts, at);
  }

  lemma SameSizes(e: Ensemble, id: ModelId, st: seq<Status>, i: nat)
    requires e.Acyclic() && |st| >= 2 && AllSummarize(e, id, st) && Steady(e, id, st) && i < |st| - 1
    ensures |Reports(e, id, st)[i].composing| == |Reports(e, id, st)[0].composing|
  {
    var ts := Reports(e, id, st);
    SameKeys(e, id, st, i);
    assert ts[i].composing.Keys == ts[0].composing.Keys;
    assert |ts[i].composing| == |ts[i].composing.Keys| && |ts[0].composing| == |ts[0].composing.Keys|;
  }

  lemma OverallKeys(e: Ensemble, id: ModelId, st: seq<Status>)
    requires e.Acyclic() && |st| >= 2 && AllSummarize(e, id, st) && Steady(e, id, st)
    ensures Overall(e, id, st).composing.Keys == Reports(e, id, st)[0].composing.Keys
  {
    forall k | k in PartKeys(e, id.name, st[0], st[1])
      ensures AllSummarize(e, Fixed(k), st)
    {
      PartsSummarize(e, id, st, k);
    }
  }

  lemma {:induction false} PartTelescopes(e: Ensemble, id: ModelId, st: seq<Status>, k: Key)
    requires e.Acyclic() && |st| >= 2 && RealVersions(st) && AllSummarize(e, id, st) && Steady(e, id, st)
    requires k in Reports(e, id, st)[0].composing && k in Overall(e, id, st).composing
    ensures Merges(Children(Reports(e, id, st), k))
    ensures Merged(Children(Reports(e, id, st), k)) == Overall(e, id, st).composing[k]
    decreases e.Rank(id.name), 0
  {
    PartsSummarize(e, id, st, k);
    PartReports(e, id, st, k);
    assert exists c :: c in e.Parts(id.name) && c.name == k.name;
    MergeTelescopes(e, Fixed(k), st);
  }

  /** Merging the reports of consecutive windows that resolve every model to the
      same version succeeds and gives last end minus first start, modulo 2^64,
      in every counter of every node. */
  lemma {:induction false} MergeTelescopes(e: Ensemble, id: ModelId, st: seq<Status>)
    requires e.Acyclic() && |st| >= 2 && RealVersions(st) && AllSummarize(e, id, st) && Steady(e, id, st)
    ensures Merges(Reports(e, id, st)) && Merged(Reports(e, id, st)) == Overall(e, id, st)
    decreases e.Rank(id.name), 1
  {
    var ts, target := Reports(e, id, st), Overall(e, id, st);
    NodeTelescopes(e, id, st);
    OverallKeys(e, id, st);
    forall i | 0 <= i < |ts|
      ensures |ts[i].composing| == |ts[0].composing|
    {
      SameSizes(e, id, st, i);
    }
    forall k | k in ts[0].composing
      ensures Merges(Children(ts, k)) && Merged(Children(ts, k)) == target.composing[k]
    {
      PartTelescopes(e, id, st, k);
    }
    MergedNode(ts, target);
  }

  // ------------------------------------------------- every counter of every node

  /** What a counter of a model has risen by, modulo 2^64, from the first status to
      the last; a model that was not there at first counts from 0. */
  ghost predicate Risen(first: Status, last: Status, key: Key, f: Counter, value: uint64) {
    if key !in last then value == 0
    else if key !in first then value == Value(last[key], f)
    else value == Difference(Value(first[key], f), Value(last[key], f))
  }

  lemma OverallCounter(e: Ensemble, id: ModelId, st: seq<Status>, f: Counter)
    requires e.Acyclic() && |st| >= 2 && RealVersions(st) && AllSummarize(e, id, st) && SameVersion(e, id, st)
    ensures Risen(st[0], st[|st| - 1], Key(id.name, Resolve(e, id, st[0], st[1]).value), f, Value(Overall(e, id, st).stats, f))
  {
    var key := Key(id.name, Resolve(e, id, st[0], st[1]).value);
    var last := st[|st| - 1];
    CounterMinus(Get(last, key), Get(st[0], key), f);
    if key.version != -1 {
      assert Resolve(e, id, st[|st| - 2], last) == Resolve(e, id, st[0], st[1]);
      ResolvedIsReported(e, id, st[|st| - 2], last);
      DifferenceMeans(0, Value(last[key], f));
    }
  }

  /** The node reached by going from part to part. */
  ghost function NodeAt(t: Tree, path: seq<Key>): Option<Tree>
    decreases |path|
  {
    if path == [] then Some(t)
    else if path[0] in t.composing then NodeAt(t.composing[path[0]], path[1..])
    else None
  }

  /** The model a node stands for. */
  function ModelAt(id: ModelId, path: seq<Key>): ModelId {
    if path == [] then id else Fixed(path[|path| - 1])
  }

  /** The parts of the merged report are the merged reports of the parts. */
  lemma MergedPart(e: Ensemble, id: ModelId, st: seq<Status>, k: Key)
    requires e.Acyclic() && |st| >= 2 && RealVersions(st) && AllSummarize(e, id, st) && Steady(e, id, st)
    requires Merges(Reports(e, id, st)) && k in Merged(Reports(e, id, st)).composing
    ensures k in PartKeys(e, id.name, st[0], st[1]) && Steady(e, Fixed(k), st) && AllSummarize(e, Fixed(k), st)
    ensures Merges(Reports(e, Fixed(k), st)) && Merged(Reports(e, id, st)).composing[k] == Merged(Reports(e, Fixed(k), st))
  {
    MergeTelescopes(e, id, st);
    PartsSummarize(e, id, st, k);
    MergeTelescopes(e, Fixed(k), st);
  }

  lemma MergedRoot(e: Ensemble, id: ModelId, st: seq<Status>, f: Counter)
    requires e.Acyclic() && |st| >= 2 && RealVersions(st) && AllSummarize(e, id, st) && Steady(e, id, st)
    requires Merges(Reports(e, id, st))
    ensures Resolve(e, id, st[0], st[1]).Ok?
    ensures Risen(st[0], st[|st| - 1], Key(id.name, Resolve(e, id, st[0], st[1]).value), f,
                  Value(Merged(Reports(e, id, st)).stats, f))
  {
    assert Summarizes(e, id, st[0], st[1]);
    MergeTelescopes(e, id, st);
    OverallCounter(e, id, st, f);
  }

  /** At every node of the merged report, every one of the sixteen counters is what
      that model's counter has risen by from the first start to the last end. */
  lemma {:induction false} MergedCounter(e: Ensemble, id: ModelId, st: seq<Status>, path: seq<Key>, node: Tree, f: Counter)
    requires e.Acyclic() && |st| >= 2 && RealVersions(st) && AllSummarize(e, id, st) && Steady(e, id, st)
    requires Merges(Reports(e, id, st)) && NodeAt(Merged(Reports(e, id, st)), path) == Some(node)
    ensures var model := ModelAt(id, path);
            && Resolve(e, model, st[0], st[1]).Ok?
            && Risen(st[0], st[|st| - 1], Key(model.name, Resolve(e, model, st[0], st[1]).value), f, Value(node.stats, f))
    decreases |path|
  {
    if path == [] {
      MergedRoot(e, id, st, f);
    } else {
      var k := path[0];
      MergedPart(e, id, st, k);
      MergedCounter(e, Fixed(k), st, path[1..], node, f);
      assert path[1..] != [] ==> path[1..][|path| - 2] == path[|path| - 1];
    }
  }
}
