/** The measurement window of the profiler: which of the collected request
    records it takes out, and what it computes from them. */
module RecordWindows {
  import opened Basics
  import opened RequestRecords
  import opened Filters

  /** The record of a request that got nothing but an empty final response. */
  predicate NullOnly(r: RequestRecord) {
    r.nullLast && |r.responses| <= 1
  }

  /** When the last response with content came in; the start for a record that
      has none. */
  function EndTime(r: RequestRecord): int {
    if |r.responses| <= One(r.nullLast) then r.start else r.responses[|r.responses| - 1 - One(r.nullLast)]
  }

  /** Whether a record counts in the closed window [lo, hi]. */
  predicate Counts(r: RequestRecord, lo: int, hi: int) {
    !NullOnly(r) && r.start <= EndTime(r) && lo <= EndTime(r) <= hi
  }

  /** What a window counts, and what it takes out of the collected records. */
  function Counted(lo: int, hi: int): RequestRecord -> bool {
    (r: RequestRecord) => Counts(r, lo, hi)
  }

  function Removed(lo: int, hi: int): RequestRecord -> bool {
    (r: RequestRecord) => NullOnly(r) || Counts(r, lo, hi)
  }

  // ------------------------------------------------- quantities

  function Latency(r: RequestRecord): int {
    EndTime(r) - r.start
  }

  /** Responses with content. */
  function Contents(r: RequestRecord): int {
    |r.responses| - One(r.nullLast)
  }

  function EndsSequence(r: RequestRecord): int {
    One(r.sequenceEnd)
  }

  function IsDelayed(r: RequestRecord): int {
    One(r.delayed)
  }

  function Map(rs: seq<RequestRecord>, f: RequestRecord -> int): (s: seq<int>)
    ensures |s| == |rs|
  {
    if rs == [] then [] else Map(rs[..|rs| - 1], f) + [f(rs[|rs| - 1])]
  }

  function Sum(rs: seq<RequestRecord>, f: RequestRecord -> int): int {
    if rs == [] then 0 else Sum(rs[..|rs| - 1], f) + f(rs[|rs| - 1])
  }

  /** What a record means: an ordinary one ends with its last response; if a
      response was empty the last one is left out; with nothing else there is no
      content at all. */
  lemma EndMeans(r: RequestRecord, rs: seq<int>, t: int, u: int)
    ensures !r.nullLast && r.responses == rs + [t] ==> !NullOnly(r) && EndTime(r) == t && Contents(r) == |rs| + 1
    ensures r.nullLast && r.responses == rs + [t, u] ==> !NullOnly(r) && EndTime(r) == t && Contents(r) == |rs| + 1
    ensures r.nullLast && r.responses == [u] ==> NullOnly(r) && Contents(r) == 0
  {
  }

  /** A window counts a record with content that started before it ended and ended
      in the window, both ends included, and takes out also those without
      content. */
  lemma WindowMeans(r: RequestRecord, lo: int, hi: int)
    ensures Counted(lo, hi)(r) <==> !NullOnly(r) && r.start <= EndTime(r) && lo <= EndTime(r) && EndTime(r) <= hi
    ensures Removed(lo, hi)(r) <==> NullOnly(r) || Counted(lo, hi)(r)
    ensures Latency(r) == EndTime(r) - r.start
  {
  }

  /** Lists of values and sums are taken record by record. */
  lemma {:induction false} MapMeans(a: seq<RequestRecord>, b: seq<RequestRecord>, f: RequestRecord -> int)
    ensures Map(a + b, f) == Map(a, f) + Map(b, f) && Sum(a + b, f) == Sum(a, f) + Sum(b, f)
  {
    if b == [] {
      assert a + b == a;
    } else {
      var n := |b| - 1;
      MapMeans(a, b[..n], f);
      assert (a + b)[..|a + b| - 1] == a + b[..n];
    }
  }

  lemma MapOne(r: RequestRecord, f: RequestRecord -> int)
    ensures Map([r], f) == [f(r)] && Sum([r], f) == f(r)
  {
    assert [r][..0] == [];
  }

  // ------------------------------------------------- sorting

  ghost predicate Ascending(s: seq<int>) {
    forall i, j :: 0 <= i <= j < |s| ==> s[i] <= s[j]
  }

  lemma InsertBelow(front: seq<int>, s: seq<int>, x: int, bound: int)
    requires multiset(front) == multiset(s) + multiset{x} && x <= bound
    requires forall i :: 0 <= i < |s| ==> s[i] <= bound
    ensures forall i :: 0 <= i < |front| ==> front[i] <= bound
  {
    forall i | 0 <= i < |front|
      ensures front[i] <= bound
    {
      assert front[i] in multiset(front);
    }
  }

  function Insert(s: seq<int>, x: int): (r: seq<int>)
    requires Ascending(s)
    ensures Ascending(r) && multiset(r) == multiset(s) + multiset{x}
  {
    if s == [] || s[|s| - 1] <= x then s + [x]
    else
      var k := |s| - 1;
      var front := Insert(s[..k], x);
      assert s[..k] + [s[k]] == s;
      InsertBelow(front, s[..k], x, s[k]);
      front + [s[k]]
  }

  /** Stands for the sort of the standard library. */
  function Sort(s: seq<int>): (r: seq<int>)
    ensures Ascending(r) && multiset(r) == multiset(s)
  {
    if s == [] then []
    else
      var k := |s| - 1;
      assert s == s[..k] + [s[k]];
      Insert(Sort(s[..k]), s[k])
  }

  // ------------------------------------------------- the measurement

  /** The counts a window reports. */
  datatype Totals = Totals(sequences: int, responses: int, delayed: int)

  function TotalsOf(rs: seq<RequestRecord>): Totals {
    Totals(Sum(rs, EndsSequence), Sum(rs, Contents), Sum(rs, IsDelayed))
  }

  function Add(t: Totals, r: RequestRecord): Totals {
    Totals(t.sequences + One(r.sequenceEnd), t.responses + Contents(r), t.delayed + One(r.delayed))
  }

  /** What the first loop has gathered after a prefix of the records. */
  datatype Scanned = Scanned(latencies: seq<int>, totals: Totals, positions: seq<nat>)

  ghost function ScanOf(rs: seq<RequestRecord>, lo: int, hi: int): Scanned {
    if rs == [] then Scanned([], Totals(0, 0, 0), [])
    else
      var k := |rs| - 1;
      var s, r := ScanOf(rs[..k], lo, hi), rs[k];
      if Counts(r, lo, hi) then Scanned(s.latencies + [Latency(r)], Add(s.totals, r), s.positions + [k])
      else if NullOnly(r) then s.(positions := s.positions + [k])
      else s
  }

  lemma MapSnoc(rs: seq<RequestRecord>, r: RequestRecord)
    ensures Map(rs + [r], Latency) == Map(rs, Latency) + [Latency(r)]
    ensures TotalsOf(rs + [r]) == Add(TotalsOf(rs), r)
  {
    assert (rs + [r])[..|rs|] == rs;
  }

  lemma {:induction false} ScanMeaning(rs: seq<RequestRecord>, lo: int, hi: int)
    ensures ScanOf(rs, lo, hi).positions == Positions(rs, Removed(lo, hi))
    ensures ScanOf(rs, lo, hi).latencies == Map(Select(rs, Counted(lo, hi)), Latency)
    ensures ScanOf(rs, lo, hi).totals == TotalsOf(Select(rs, Counted(lo, hi)))
  {
    if rs != [] {
      var k := |rs| - 1;
      ScanMeaning(rs[..k], lo, hi);
      MapSnoc(Select(rs[..k], Counted(lo, hi)), rs[k]);
    }
  }

  class RecordStore {
    /** all_request_records_ */
    var records: seq<RequestRecord>

    /** The first loop: latencies and counts of the window, and the positions to
        take out. */
    method Scan(lo: int, hi: int, delayedBefore: int) returns (latencies: seq<int>, totals: Totals, positions: seq<nat>)
      requires forall i :: 0 <= i < |records| ==> records[i].responses != []
      ensures Scanned(latencies, totals.(delayed := totals.delayed - delayedBefore), positions)
              == ScanOf(records, lo, hi)
    {
      latencies, positions := [], [];
      var sequences, responses, delayed := 0, 0, delayedBefore;
      for i := 0 to |records|
        invariant Scanned(latencies, Totals(sequences, responses, delayed - delayedBefore), positions)
                  == ScanOf(records[..i], lo, hi)
      {
        var r := records[i];
        assert records[..i + 1][..i] == records[..i];
        var end;
        if !r.nullLast {
          end := r.responses[|r.responses| - 1];
        } else if |r.responses| > 1 {
          end := r.responses[|r.responses| - 2];
        } else {
          positions := positions + [i];
          continue;
        }
        assert end == EndTime(r);
        if r.start <= end && end >= lo && end <= hi {
          latencies := latencies + [end - r.start];
          responses := responses + |r.responses|;
          if r.nullLast {
            responses := responses - 1;
          }
          positions := positions + [i];
          if r.sequenceEnd {
            sequences := sequences + 1;
          }
          if r.delayed {
            delayed := delayed + 1;
          }
        }
      }
      assert records[..|records|] == records;
      totals := Totals(sequences, responses, delayed);
    }

    /** The two loops over the positions: copy out, then erase from the back. */
    method Extract(positions: seq<nat>) returns (valid: seq<RequestRecord>)
      requires Increasing(positions) && Below(positions, |records|)
      modifies this
      ensures valid == At(old(records), positions)
      ensures records == EraseBackwards(old(records), positions)
    {
      valid := [];
      for i := 0 to |positions|
        invariant valid == At(records, positions[..i])
      {
        valid := valid + [records[positions[i]]];
      }
      assert positions[..|positions|] == positions;
      var k := |positions|;
      while k > 0
        invariant 0 <= k <= |positions| && Below(positions[..k], |records|)
        invariant EraseBackwards(records, positions[..k]) == EraseBackwards(old(records), positions)
      {
        assert positions[..k][..k - 1] == positions[..k - 1];
        k := k - 1;
        records := RemoveAt(records, positions[k]);
      }
    }

    /** The records taken and the records left are an order-preserving partition.
        The latencies are those of the counted records, sorted. The number of
        delayed requests is added to what the caller passes in. */
    method ValidLatencyMeasurement(lo: int, hi: int, delayedBefore: int)
      returns (latencies: seq<int>, totals: Totals, valid: seq<RequestRecord>)
      requires forall i :: 0 <= i < |records| ==> records[i].responses != []
      modifies this
      ensures valid == Select(old(records), Removed(lo, hi)) && records == Reject(old(records), Removed(lo, hi))
      ensures Ascending(latencies) && multiset(latencies) == multiset(Map(Select(valid, Counted(lo, hi)), Latency))
      ensures totals == TotalsOf(Select(valid, Counted(lo, hi))).(delayed := totals.delayed)
      ensures totals.delayed == delayedBefore + TotalsOf(Select(valid, Counted(lo, hi))).delayed
    {
      var unsorted, positions;
      unsorted, totals, positions := Scan(lo, hi, delayedBefore);
      ScanMeaning(records, lo, hi);
      AtPositions(records, Removed(lo, hi));
      EraseRejects(records, Removed(lo, hi));
      SelectSelect(records, Removed(lo, hi), Counted(lo, hi));
      valid := Extract(positions);
      latencies := Sort(unsorted);
    }
  }

  /** A window from 10 to 20 over four records: one that ended at 15 after a
      sequence end, one with nothing but an empty response, one whose last response
      with content came at 20, and one that ended too late. */
  method ExampleWindow() returns (latencies: seq<int>, totals: Totals, valid: seq<RequestRecord>, left: seq<RequestRecord>)
    ensures latencies == [8, 12] && totals == Totals(1, 3, 1)
    ensures |valid| == 3 && valid[1].responses == [16] && left == [RequestRecord(5, [21], false, false, false)]
  {
    var store := new RecordStore;
    var a := RequestRecord(3, [15], true, false, false);
    var b := RequestRecord(4, [16], false, false, true);
    var c := RequestRecord(12, [18, 20, 22], false, true, true);
    var d := RequestRecord(5, [21], false, false, false);
    store.records := [a, b, c, d];
    Selects(a, b, c, d);
    latencies, totals, valid := store.ValidLatencyMeasurement(10, 20, 0);
    left := store.records;
    assert multiset(latencies) == multiset([12, 8]) && latencies == [8, 12] by {
      SortedPair(latencies);
    }
  }

  lemma SortedPair(s: seq<int>)
    requires Ascending(s) && multiset(s) == multiset([12, 8])
    ensures s == [8, 12]
  {
    assert |s| == |multiset(s)| == 2;
    assert s == [s[0], s[1]];
    assert s[0] in multiset(s) && s[1] in multiset(s);
    assert multiset(s)[8] == 1 && multiset(s)[12] == 1;
  }

  ghost predicate Examples(a: RequestRecord, b: RequestRecord, c: RequestRecord, d: RequestRecord) {
    && a == RequestRecord(3, [15], true, false, false) && b == RequestRecord(4, [16], false, false, true)
    && c == RequestRecord(12, [18, 20, 22], false, true, true) && d == RequestRecord(5, [21], false, false, false)
  }

  lemma ExampleConditions(a: RequestRecord, b: RequestRecord, c: RequestRecord, d: RequestRecord)
    requires Examples(a, b, c, d)
    ensures var p, q := Removed(10, 20), Counted(10, 20); p(a) && p(b) && p(c) && !p(d) && q(a) && !q(b) && q(c)
    ensures Latency(a) == 12 && Latency(c) == 8 && Contents(a) == 1 && Contents(c) == 2
  {
  }

  lemma SelectFour(a: RequestRecord, b: RequestRecord, c: RequestRecord, d: RequestRecord, p: RequestRecord -> bool)
    requires p(a) && p(b) && p(c) && !p(d)
    ensures Select([a, b, c, d], p) == [a, b, c] && Reject([a, b, c, d], p) == [d]
  {
    assert [a, b, c, d][..3] == [a, b, c] && [a, b, c][..2] == [a, b] && [a, b][..1] == [a] && [a][..0] == [];
    assert Select([a], p) == [a] && Select([a, b], p) == [a, b] && Select([a, b, c], p) == [a, b, c];
    assert Reject([a], p) == [] && Reject([a, b], p) == [] && Reject([a, b, c], p) == [];
  }

  lemma SelectThree(a: RequestRecord, b: RequestRecord, c: RequestRecord, q: RequestRecord -> bool)
    requires q(a) && !q(b) && q(c)
    ensures Select([a, b, c], q) == [a, c]
  {
    assert [a, b, c][..2] == [a, b] && [a, b][..1] == [a] && [a][..0] == [];
    assert Select([a], q) == [a] && Select([a, b], q) == [a];
  }

  lemma Selects(a: RequestRecord, b: RequestRecord, c: RequestRecord, d: RequestRecord)
    requires Examples(a, b, c, d)
    ensures Select([a, b, c, d], Removed(10, 20)) == [a, b, c] && Reject([a, b, c, d], Removed(10, 20)) == [d]
    ensures Select([a, b, c], Counted(10, 20)) == [a, c]
    ensures Map([a, c], Latency) == [12, 8] && TotalsOf([a, c]) == Totals(1, 3, 1)
  {
    ExampleConditions(a, b, c, d);
    SelectFour(a, b, c, d, Removed(10, 20));
    SelectThree(a, b, c, Counted(10, 20));
    MapTwo(a, c, Latency);
    MapTwo(a, c, EndsSequence);
    MapTwo(a, c, Contents);
    MapTwo(a, c, IsDelayed);
  }

  lemma MapTwo(a: RequestRecord, c: RequestRecord, f: RequestRecord -> int)
    ensures Map([a, c], f) == [f(a), f(c)] && Sum([a, c], f) == f(a) + f(c)
  {
    MapOne(a, f);
    MapOne(c, f);
    MapMeans([a], [c], f);
    assert [a] + [c] == [a, c];
  }
}
