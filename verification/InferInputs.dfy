/** The two precomputed stores of request inputs: one input object per thread,
    tensor, stream and step, and one shared-memory region per tensor, stream and
    step. Both must agree with looking the data up directly. */
module InferInputs {
  import opened Basics
  import opened RequestKeys
  import opened DataLoaders

  // ------------------------------------------------- the direct lookup

  /** What the managers read: the streams behind the loader, the shape of each
      tensor at each step, and the batch size. */
  datatype Source = Source(inputs: seq<Input>, streams: seq<seq<Step>>, shape: (string, nat, nat) -> seq<int>, batch: nat)

  ghost predicate Readable(src: Source) {
    AllOk(src.inputs, src.streams)
  }

  ghost function Piece(src: Source, name: string, s: nat, k: nat): Option<Data> {
    if Has(src.inputs, src.streams, name, s, k) then Some(src.streams[s][k][name].data) else None
  }

  /** The step that element i of the batch starting at step k uses. */
  function Wrap(k: nat, i: nat, total: nat): (r: nat)
    requires total > 0
    ensures r < total
  {
    (k + i) % total
  }

  function Count(src: Source, input: Input): nat {
    if input.isShape then 1 else src.batch
  }

  ghost function Batch(src: Source, name: string, s: nat, k: nat, n: nat): (ps: seq<Option<Data>>)
    requires s < |src.streams| && k < |src.streams[s]|
    ensures |ps| == n
    ensures forall i :: 0 <= i < n ==> ps[i] == Piece(src, name, s, Wrap(k, i, |src.streams[s]|))
  {
    seq(n, i requires 0 <= i < n => Piece(src, name, s, Wrap(k, i, |src.streams[s]|)))
  }

  function BytesOf(p: Option<Data>): Data {
    match p case Some(d) => d case None => []
  }

  function Concat(ps: seq<Option<Data>>): Data {
    if ps == [] then []
    else Concat(ps[..|ps| - 1]) + BytesOf(ps[|ps| - 1])
  }

  function Missing(ps: seq<Option<Data>>): nat {
    if ps == [] then 0 else Missing(ps[..|ps| - 1]) + if ps[|ps| - 1].None? then 1 else 0
  }

  /** A batch starts at its own step and takes the steps that follow. */
  lemma BatchInOrder(src: Source, name: string, s: nat, k: nat, n: nat, i: nat)
    requires s < |src.streams| && k + i < |src.streams[s]| && i < n
    ensures Batch(src, name, s, k, n)[i] == Piece(src, name, s, k + i)
  {
    DivModUnique(k + i, |src.streams[s]|, 0, k + i);
  }

  /** After the last step of the stream comes its first: a batch without its first
      piece is the batch of the next step. */
  lemma BatchWraps(src: Source, name: string, s: nat, k: nat, n: nat, i: nat)
    requires s < |src.streams| && k < |src.streams[s]| && i + 1 < n
    ensures var next := if k + 1 == |src.streams[s]| then 0 else k + 1;
            Batch(src, name, s, k, n)[i + 1] == Batch(src, name, s, next, n)[i]
  {
    var total := |src.streams[s]|;
    if k + 1 == total {
      DivModUnique(i + total, total, i / total + 1, i % total);
    }
  }

  /** Concatenation keeps the order of the pieces. */
  lemma {:induction false} ConcatInOrder(a: seq<Option<Data>>, b: seq<Option<Data>>)
    ensures Concat(a + b) == Concat(a) + Concat(b)
  {
    if b == [] {
      assert a + b == a;
    } else {
      var n := |b| - 1;
      ConcatInOrder(a, b[..n]);
      assert (a + b)[..|a + b| - 1] == a + b[..n];
    }
  }

  lemma ConcatOne(p: Option<Data>)
    ensures Concat([p]) == if p.Some? then p.value else []
  {
    assert [p][..0] == [];
  }

  lemma {:induction false} MissingBounds(ps: seq<Option<Data>>)
    ensures Missing(ps) <= |ps|
    ensures Missing(ps) == 0 <==> forall i :: 0 <= i < |ps| ==> ps[i].Some?
    ensures Missing(ps) == |ps| <==> forall i :: 0 <= i < |ps| ==> ps[i].None?
  {
    if ps != [] {
      MissingBounds(ps[..|ps| - 1]);
    }
  }

  // ------------------------------------------------- what to expect

  /** Whether a shape fits the first one of the batch: it is equal to it as far
      as it goes. */
  predicate Fits(shape: seq<int>, first: seq<int>) {
    shape <= first
  }

  ghost predicate ShapesAgree(src: Source, input: Input, s: nat, k: nat)
    requires s < |src.streams| && k < |src.streams[s]|
  {
    forall i :: 1 <= i < Count(src, input) ==>
      Fits(src.shape(input.name, s, Wrap(k, i, |src.streams[s]|)), src.shape(input.name, s, Wrap(k, 0, |src.streams[s]|)))
  }

  /** A shape tensor is sent once, so it must be the same in the whole batch. */
  ghost predicate ShapeTensorAgrees(src: Source, input: Input, s: nat, k: nat)
    requires s < |src.streams| && k < |src.streams[s]|
  {
    input.isShape ==>
      forall i :: 1 <= i < src.batch ==>
        BytesOf(Piece(src, input.name, s, Wrap(k, i, |src.streams[s]|)))
        == BytesOf(Piece(src, input.name, s, Wrap(k, 0, |src.streams[s]|)))
  }

  datatype Expected = Broken | Absent | Holds(bytes: Data)

  /** The input for a batch: the bytes of all its pieces, or nothing if the whole
      batch lacks the tensor; a mixed batch is an error. */
  ghost function Expect(src: Source, input: Input, s: nat, k: nat): Expected
    requires s < |src.streams| && k < |src.streams[s]|
  {
    var ps := Batch(src, input.name, s, k, Count(src, input));
    if !ShapesAgree(src, input, s, k) || !ShapeTensorAgrees(src, input, s, k) then Broken
    else if forall i :: 0 <= i < |ps| ==> ps[i].Some? then Holds(Concat(ps))
    else if forall i :: 0 <= i < |ps| ==> ps[i].None? then Absent
    else Broken
  }

  /** The pieces and shapes at the steps k, k + 1, ... of a stream, read
      cyclically. */
  ghost predicate AtSteps(src: Source, name: string, s: nat, k: nat, pieces: seq<Option<Data>>, shapes: seq<seq<int>>)
    requires s < |src.streams| && k < |src.streams[s]|
  {
    && |pieces| == |shapes| == src.batch
    && (forall i :: 0 <= i < |pieces| ==> pieces[i] == Piece(src, name, s, (k + i) % |src.streams[s]|))
    && forall i :: 0 <= i < |shapes| ==> shapes[i] == src.shape(name, s, (k + i) % |src.streams[s]|)
  }

  /** What is expected of an ordinary tensor: the bytes of all pieces in order if
      all are there, nothing if none is, an error if only some are or if a shape
      does not begin the first one. */
  lemma ExpectOrdinary(src: Source, input: Input, s: nat, k: nat, pieces: seq<Option<Data>>, shapes: seq<seq<int>>)
    requires s < |src.streams| && k < |src.streams[s]| && src.batch > 0 && !input.isShape
    requires AtSteps(src, input.name, s, k, pieces, shapes)
    ensures var e := Expect(src, input, s, k);
            && (e.Holds? <==> (forall i :: 0 <= i < |shapes| ==> shapes[i] <= shapes[0])
                              && forall i :: 0 <= i < |pieces| ==> pieces[i].Some?)
            && (e.Absent? <==> (forall i :: 0 <= i < |shapes| ==> shapes[i] <= shapes[0])
                               && forall i :: 0 <= i < |pieces| ==> pieces[i].None?)
            && (e.Holds? ==> e.bytes == Concat(pieces))
  {
    assert pieces == Batch(src, input.name, s, k, src.batch);
    assert pieces[0].Some? || pieces[0].None?;
    ShapesInBatch(src, input, s, k, pieces, shapes);
  }

  lemma ShapesInBatch(src: Source, input: Input, s: nat, k: nat, pieces: seq<Option<Data>>, shapes: seq<seq<int>>)
    requires s < |src.streams| && k < |src.streams[s]| && src.batch > 0 && !input.isShape
    requires AtSteps(src, input.name, s, k, pieces, shapes)
    ensures ShapesAgree(src, input, s, k) <==> forall i :: 0 <= i < |shapes| ==> shapes[i] <= shapes[0]
  {
    var total := |src.streams[s]|;
    assert forall i: nat :: i < src.batch ==> shapes[i] == src.shape(input.name, s, Wrap(k, i, total));
  }

  /** A shape tensor is sent once: the bytes at the first step, if the bytes of the
      whole batch are the same. */
  lemma ExpectShapeTensor(src: Source, input: Input, s: nat, k: nat, pieces: seq<Option<Data>>, shapes: seq<seq<int>>)
    requires s < |src.streams| && k < |src.streams[s]| && src.batch > 0 && input.isShape
    requires AtSteps(src, input.name, s, k, pieces, shapes)
    ensures var e := Expect(src, input, s, k);
            && (e.Broken? <==> exists i :: 0 <= i < |pieces| && BytesOf(pieces[i]) != BytesOf(pieces[0]))
            && (e.Holds? ==> pieces[0] == Some(e.bytes))
            && (e.Absent? ==> pieces[0] == None)
  {
    TensorInBatch(src, input, s, k, pieces, shapes);
    var ps := Batch(src, input.name, s, k, 1);
    assert ps == [pieces[0]];
    ConcatOne(pieces[0]);
    assert ps[0].Some? || ps[0].None?;
  }

  lemma TensorInBatch(src: Source, input: Input, s: nat, k: nat, pieces: seq<Option<Data>>, shapes: seq<seq<int>>)
    requires s < |src.streams| && k < |src.streams[s]| && src.batch > 0 && input.isShape
    requires AtSteps(src, input.name, s, k, pieces, shapes)
    ensures ShapeTensorAgrees(src, input, s, k) <==> forall i :: 0 <= i < |pieces| ==> BytesOf(pieces[i]) == BytesOf(pieces[0])
  {
    var total := |src.streams[s]|;
    assert forall i: nat :: i < src.batch ==> pieces[i] == Piece(src, input.name, s, Wrap(k, i, total));
  }

  /** A mandatory input is never absent. */
  lemma MandatoryHeld(src: Source, i: nat, s: nat, k: nat)
    requires Readable(src) && i < |src.inputs| && !src.inputs[i].optional
    requires s < |src.streams| && k < |src.streams[s]| && Count(src, src.inputs[i]) > 0
    ensures !Expect(src, src.inputs[i], s, k).Absent?
  {
    var total := |src.streams[s]|;
    MandatoryPresent(src.inputs, src.streams, s, Wrap(k, 0, total), i);
    assert Batch(src, src.inputs[i].name, s, k, Count(src, src.inputs[i]))[0].Some?;
  }

  // ------------------------------------------------- fetching a batch

  ghost predicate Serves(loader: DataLoader, src: Source)
    reads loader
  {
    loader.Valid() && loader.streams == src.streams && loader.inputs == src.inputs
  }

  /** Looks up one piece through the loader. */
  method Fetch(loader: DataLoader, ghost src: Source, i: nat, s: nat, k: nat) returns (p: Option<Data>)
    requires Serves(loader, src) && i < |src.inputs| && s < |src.streams| && k < |src.streams[s]|
    ensures p == Piece(src, src.inputs[i].name, s, k)
  {
    var input := loader.inputs[i];
    assert HasName(loader.inputs, input.name);
    if !input.optional {
      MandatoryPresent(src.inputs, src.streams, s, k, i);
    }
    var r := loader.GetInputData(input, s, k);
    p := r.value;
  }

  /** The pieces of a batch, with the check of their shapes. */
  method FetchBatch(loader: DataLoader, src: Source, i: nat, s: nat, k: nat) returns (r: Result<seq<Option<Data>>, Failure>)
    requires Serves(loader, src) && i < |src.inputs| && s < |src.streams| && k < |src.streams[s]|
    ensures r.Ok? <==> ShapesAgree(src, src.inputs[i], s, k)
    ensures r.Ok? ==> r.value == Batch(src, src.inputs[i].name, s, k, Count(src, src.inputs[i]))
    ensures r.Ok? ==> |r.value| == if src.inputs[i].isShape then 1 else src.batch
    ensures r.Ok? && r.value != [] ==> r.value[0] == Piece(src, src.inputs[i].name, s, k)
  {
    var input, total := src.inputs[i], |src.streams[s]|;
    var ps, first := [], [];
    DivModUnique(k, total, 0, k);
    for count := 0 to Count(src, input)
      invariant |ps| == count && forall j :: 0 <= j < count ==> ps[j] == Piece(src, input.name, s, Wrap(k, j, total))
      invariant count > 0 ==> first == src.shape(input.name, s, Wrap(k, 0, total))
      invariant forall j :: 1 <= j < count ==> Fits(src.shape(input.name, s, Wrap(k, j, total)), first)
    {
      var shape := src.shape(input.name, s, Wrap(k, count, total));
      if count == 0 {
        first := shape;
      } else if !Fits(shape, first) {
        return Err(Failure);
      }
      var p := Fetch(loader, src, i, s, Wrap(k, count, total));
      ps := ps + [p];
    }
    r := Ok(ps);
  }

  method ValidateShapeTensor(loader: DataLoader, src: Source, i: nat, s: nat, k: nat, first: Option<Data>) returns (ok: bool)
    requires Serves(loader, src) && i < |src.inputs| && s < |src.streams| && k < |src.streams[s]|
    requires src.inputs[i].isShape && first == Piece(src, src.inputs[i].name, s, Wrap(k, 0, |src.streams[s]|))
    ensures ok <==> ShapeTensorAgrees(src, src.inputs[i], s, k)
  {
    var total := |src.streams[s]|;
    var count := 1;
    while count < src.batch
      invariant 1 <= count
      invariant forall j :: 1 <= j < count ==>
                  BytesOf(Piece(src, src.inputs[i].name, s, Wrap(k, j, total))) == BytesOf(first)
    {
      var p := Fetch(loader, src, i, s, Wrap(k, count, total));
      if BytesOf(p) != BytesOf(first) {
        return false;
      }
      count := count + 1;
    }
    ok := true;
  }

  // ------------------------------------------------- the plain store

  datatype Coord = Coord(thread: nat, name: string, s: nat, k: nat)

  ghost function Look(cache: map<Coord, Data>, c: Coord): Option<Data> {
    if c in cache then Some(cache[c]) else None
  }

  function Found(e: Expected): Option<Data> {
    match e case Holds(bytes) => Some(bytes) case _ => None
  }

  /** `after` differs from `before` at one coordinate only. */
  ghost predicate SetAt(before: map<Coord, Data>, after: map<Coord, Data>, c: Coord, value: Option<Data>) {
    forall d: Coord :: Look(after, d) == if d == c then value else Look(before, d)
  }

  ghost predicate DistinctNames(inputs: seq<Input>) {
    forall i, j :: 0 <= i < j < |inputs| ==> inputs[i].name != inputs[j].name
  }

  /** The store holds what it should at one step. */
  ghost predicate Right(src: Source, cache: map<Coord, Data>, thread: nat, i: nat, s: nat, k: nat)
    requires i < |src.inputs| && s < |src.streams| && k < |src.streams[s]|
  {
    Look(cache, Coord(thread, src.inputs[i].name, s, k)) == Found(Expect(src, src.inputs[i], s, k))
  }

  ghost predicate Fine(src: Source, i: nat, s: nat, k: nat)
    requires i < |src.inputs| && s < |src.streams| && k < |src.streams[s]|
  {
    !Expect(src, src.inputs[i], s, k).Broken?
  }

  ghost predicate FineStream(src: Source, i: nat, s: nat)
    requires i < |src.inputs| && s < |src.streams|
  {
    forall k: nat :: k < |src.streams[s]| ==> Fine(src, i, s, k)
  }

  ghost predicate FineInput(src: Source, i: nat)
    requires i < |src.inputs|
  {
    forall s: nat :: s < |src.streams| ==> FineStream(src, i, s)
  }

  ghost predicate FineAll(src: Source) {
    forall i: nat :: i < |src.inputs| ==> FineInput(src, i)
  }

  ghost predicate RightStream(src: Source, cache: map<Coord, Data>, thread: nat, i: nat, s: nat)
    requires i < |src.inputs| && s < |src.streams|
  {
    forall k: nat :: k < |src.streams[s]| ==> Right(src, cache, thread, i, s, k)
  }

  ghost predicate RightInput(src: Source, cache: map<Coord, Data>, thread: nat, i: nat)
    requires i < |src.inputs|
  {
    forall s: nat :: s < |src.streams| ==> RightStream(src, cache, thread, i, s)
  }

  ghost predicate RightThread(src: Source, cache: map<Coord, Data>, thread: nat) {
    forall i: nat :: i < |src.inputs| ==> RightInput(src, cache, thread, i)
  }

  /** The part of the store that belongs to a stream, a tensor or a thread. */
  predicate InStream(d: Coord, thread: nat, name: string, s: nat) {
    d.thread == thread && d.name == name && d.s == s
  }

  predicate InInput(d: Coord, thread: nat, name: string) {
    d.thread == thread && d.name == name
  }

  ghost predicate FineUpTo(src: Source, i: nat, s: nat, n: nat)
    requires i < |src.inputs| && s < |src.streams| && n <= |src.streams[s]|
  {
    forall k: nat :: k < n ==> Fine(src, i, s, k)
  }

  ghost predicate RightUpTo(src: Source, cache: map<Coord, Data>, thread: nat, i: nat, s: nat, n: nat)
    requires i < |src.inputs| && s < |src.streams| && n <= |src.streams[s]|
  {
    forall k: nat :: k < n ==> Right(src, cache, thread, i, s, k)
  }

  ghost predicate SameOutside(before: map<Coord, Data>, after: map<Coord, Data>, thread: nat, name: string, s: nat) {
    forall d: Coord :: !InStream(d, thread, name, s) ==> Look(after, d) == Look(before, d)
  }

  ghost predicate EmptyFrom(cache: map<Coord, Data>, thread: nat, name: string, s: nat, k: nat) {
    forall d: Coord :: InStream(d, thread, name, s) && d.k >= k ==> Look(cache, d).None?
  }

  lemma StepFills(src: Source, first: map<Coord, Data>, before: map<Coord, Data>, after: map<Coord, Data>,
                  thread: nat, i: nat, s: nat, k: nat)
    requires i < |src.inputs| && s < |src.streams| && k < |src.streams[s]|
    requires RightUpTo(src, before, thread, i, s, k) && EmptyFrom(before, thread, src.inputs[i].name, s, k)
    requires SameOutside(first, before, thread, src.inputs[i].name, s)
    requires SetAt(before, after, Coord(thread, src.inputs[i].name, s, k), Found(Expect(src, src.inputs[i], s, k)))
    ensures RightUpTo(src, after, thread, i, s, k + 1) && EmptyFrom(after, thread, src.inputs[i].name, s, k + 1)
    ensures SameOutside(first, after, thread, src.inputs[i].name, s)
  {
    forall j: nat | j < k + 1
      ensures Right(src, after, thread, i, s, j)
    {
      assert j < k ==> Right(src, before, thread, i, s, j);
    }
  }

  ghost predicate FineStreams(src: Source, i: nat, n: nat)
    requires i < |src.inputs| && n <= |src.streams|
  {
    forall s: nat :: s < n ==> FineStream(src, i, s)
  }

  ghost predicate RightStreams(src: Source, cache: map<Coord, Data>, thread: nat, i: nat, n: nat)
    requires i < |src.inputs| && n <= |src.streams|
  {
    forall s: nat :: s < n ==> RightStream(src, cache, thread, i, s)
  }

  ghost predicate SameOutsideInput(before: map<Coord, Data>, after: map<Coord, Data>, thread: nat, name: string) {
    forall d: Coord :: !InInput(d, thread, name) ==> Look(after, d) == Look(before, d)
  }

  ghost predicate EmptyStreams(cache: map<Coord, Data>, thread: nat, name: string, s: nat) {
    forall d: Coord :: InInput(d, thread, name) && d.s >= s ==> Look(cache, d).None?
  }

  lemma StreamFills(src: Source, first: map<Coord, Data>, before: map<Coord, Data>, after: map<Coord, Data>,
                    thread: nat, i: nat, s: nat)
    requires i < |src.inputs| && s < |src.streams|
    requires RightStreams(src, before, thread, i, s) && EmptyStreams(before, thread, src.inputs[i].name, s)
    requires SameOutsideInput(first, before, thread, src.inputs[i].name)
    requires RightStream(src, after, thread, i, s) && SameOutside(before, after, thread, src.inputs[i].name, s)
    ensures RightStreams(src, after, thread, i, s + 1) && EmptyStreams(after, thread, src.inputs[i].name, s + 1)
    ensures SameOutsideInput(first, after, thread, src.inputs[i].name)
  {
    forall r: nat | r < s + 1
      ensures RightStream(src, after, thread, i, r)
    {
      if r < s {
        RightStreamFrame(src, before, after, thread, i, r);
      }
    }
  }

  ghost predicate FineInputs(src: Source, n: nat)
    requires n <= |src.inputs|
  {
    forall i: nat :: i < n ==> FineInput(src, i)
  }

  ghost predicate RightInputs(src: Source, cache: map<Coord, Data>, thread: nat, n: nat)
    requires n <= |src.inputs|
  {
    forall i: nat :: i < n ==> RightInput(src, cache, thread, i)
  }

  ghost predicate SameOutsideThread(before: map<Coord, Data>, after: map<Coord, Data>, thread: nat) {
    forall d: Coord :: d.thread != thread ==> Look(after, d) == Look(before, d)
  }

  ghost predicate EmptyInputs(src: Source, cache: map<Coord, Data>, thread: nat, n: nat) {
    forall i: nat :: n <= i < |src.inputs| ==> EmptyStreams(cache, thread, src.inputs[i].name, 0)
  }

  lemma EmptyStreamsFrame(before: map<Coord, Data>, after: map<Coord, Data>, thread: nat, name: string, other: string)
    requires SameOutsideInput(before, after, thread, name) && EmptyStreams(before, thread, other, 0) && name != other
    ensures EmptyStreams(after, thread, other, 0)
  {
  }

  lemma InputFills(src: Source, first: map<Coord, Data>, before: map<Coord, Data>, after: map<Coord, Data>, thread: nat, i: nat)
    requires i < |src.inputs| && DistinctNames(src.inputs)
    requires RightInputs(src, before, thread, i) && EmptyInputs(src, before, thread, i)
    requires SameOutsideThread(first, before, thread)
    requires RightInput(src, after, thread, i) && SameOutsideInput(before, after, thread, src.inputs[i].name)
    ensures RightInputs(src, after, thread, i + 1) && EmptyInputs(src, after, thread, i + 1)
    ensures SameOutsideThread(first, after, thread)
  {
    forall j: nat | j < i + 1
      ensures RightInput(src, after, thread, j)
    {
      if j < i {
        RightInputFrame(src, before, after, thread, j);
      }
    }
    forall j: nat | i + 1 <= j < |src.inputs|
      ensures EmptyStreams(after, thread, src.inputs[j].name, 0)
    {
      EmptyStreamsFrame(before, after, thread, src.inputs[i].name, src.inputs[j].name);
    }
  }

  ghost predicate RightThreads(src: Source, cache: map<Coord, Data>, n: nat) {
    forall thread: nat :: thread < n ==> RightThread(src, cache, thread)
  }

  ghost predicate EmptyThreads(cache: map<Coord, Data>, n: nat) {
    forall d: Coord :: d.thread >= n ==> Look(cache, d).None?
  }

  lemma ThreadFills(src: Source, before: map<Coord, Data>, after: map<Coord, Data>, thread: nat)
    requires RightThreads(src, before, thread) && EmptyThreads(before, thread)
    requires RightThread(src, after, thread) && SameOutsideThread(before, after, thread)
    ensures RightThreads(src, after, thread + 1) && EmptyThreads(after, thread + 1)
  {
    forall t: nat | t < thread + 1
      ensures RightThread(src, after, t)
    {
      if t < thread {
        forall i: nat | i < |src.inputs|
          ensures RightInput(src, after, t, i)
        {
          assert RightThread(src, before, t);
          RightInputFrame(src, before, after, t, i);
        }
      }
    }
  }

  lemma RightInputFrame(src: Source, before: map<Coord, Data>, after: map<Coord, Data>, thread: nat, i: nat)
    requires i < |src.inputs| && RightInput(src, before, thread, i)
    requires forall d: Coord :: InInput(d, thread, src.inputs[i].name) ==> Look(after, d) == Look(before, d)
    ensures RightInput(src, after, thread, i)
  {
    forall s: nat | s < |src.streams|
      ensures RightStream(src, after, thread, i, s)
    {
      RightStreamFrame(src, before, after, thread, i, s);
    }
  }

  lemma RightStreamFrame(src: Source, before: map<Coord, Data>, after: map<Coord, Data>, thread: nat, i: nat, s: nat)
    requires i < |src.inputs| && s < |src.streams| && RightStream(src, before, thread, i, s)
    requires forall d: Coord :: InStream(d, thread, src.inputs[i].name, s) ==> Look(after, d) == Look(before, d)
    ensures RightStream(src, after, thread, i, s)
  {
    forall k: nat | k < |src.streams[s]|
      ensures Right(src, after, thread, i, s, k)
    {
      assert Right(src, before, thread, i, s, k);
      assert InStream(Coord(thread, src.inputs[i].name, s, k), thread, src.inputs[i].name, s);
    }
  }

  /** Counts the missing pieces and appends the others. */
  method Assemble(ps: seq<Option<Data>>) returns (missing: nat, bytes: Data)
    ensures missing == Missing(ps) && bytes == Concat(ps)
  {
    missing, bytes := 0, [];
    for j := 0 to |ps|
      invariant missing == Missing(ps[..j]) && bytes == Concat(ps[..j])
    {
      assert ps[..j + 1][..j] == ps[..j];
      if ps[j].None? {
        missing := missing + 1;
      } else {
        bytes := bytes + ps[j].value;
      }
    }
    assert ps[..|ps|] == ps;
  }

  /** The input for one tensor, stream and step, if any. */
  method AssembleInput(loader: DataLoader, src: Source, i: nat, s: nat, k: nat) returns (r: Result<Option<Data>, Failure>)
    requires Serves(loader, src) && i < |src.inputs| && s < |src.streams| && k < |src.streams[s]|
    ensures r.Ok? <==> Fine(src, i, s, k)
    ensures r.Ok? ==> r.value == Found(Expect(src, src.inputs[i], s, k))
  {
    var input := src.inputs[i];
    var fetched := FetchBatch(loader, src, i, s, k);
    if fetched.Err? {
      return Err(Failure);
    }
    var ps := fetched.value;
    if input.isShape {
      var ok := ValidateShapeTensor(loader, src, i, s, k, ps[0]);
      if !ok {
        return Err(Failure);
      }
    }
    var missing, bytes := Assemble(ps);
    MissingBounds(ps);
    if missing == 0 {
      return Ok(Some(bytes));
    } else if missing > 0 && missing < |ps| {
      return Err(Failure);
    }
    r := Ok(None);
  }

  class InferDataManager {
    const maxThreads: nat
    var cache: map<Coord, Data>

    constructor (maxThreads: nat)
      ensures this.maxThreads == maxThreads && cache == map[]
    {
      this.maxThreads := maxThreads;
      cache := map[];
    }

    /** Builds the input of one thread, tensor, stream and step. */
    method CreateAndPopulateInput(loader: DataLoader, src: Source, thread: nat, i: nat, s: nat, k: nat) returns (ok: bool)
      requires Serves(loader, src) && i < |src.inputs| && s < |src.streams| && k < |src.streams[s]|
      requires Coord(thread, src.inputs[i].name, s, k) !in cache
      modifies this
      ensures ok <==> Fine(src, i, s, k)
      ensures !ok ==> cache == old(cache)
      ensures ok ==> SetAt(old(cache), cache, Coord(thread, src.inputs[i].name, s, k), Found(Expect(src, src.inputs[i], s, k)))
    {
      var r := AssembleInput(loader, src, i, s, k);
      ok := r.Ok?;
      if ok && r.value.Some? {
        cache := cache[Coord(thread, src.inputs[i].name, s, k) := r.value.value];
      }
    }

    method PopulateStream(loader: DataLoader, src: Source, thread: nat, i: nat, s: nat) returns (ok: bool)
      requires Serves(loader, src) && i < |src.inputs| && s < |src.streams|
      requires EmptyFrom(cache, thread, src.inputs[i].name, s, 0)
      modifies this
      ensures ok <==> FineStream(src, i, s)
      ensures ok ==> RightStream(src, cache, thread, i, s)
      ensures SameOutside(old(cache), cache, thread, src.inputs[i].name, s)
    {
      for k := 0 to |src.streams[s]|
        invariant FineUpTo(src, i, s, k) && RightUpTo(src, cache, thread, i, s, k)
        invariant SameOutside(old(cache), cache, thread, src.inputs[i].name, s)
        invariant EmptyFrom(cache, thread, src.inputs[i].name, s, k)
      {
        ghost var before := cache;
        assert Look(cache, Coord(thread, src.inputs[i].name, s, k)).None?;
        ok := CreateAndPopulateInput(loader, src, thread, i, s, k);
        if !ok {
          return;
        }
        StepFills(src, old(cache), before, cache, thread, i, s, k);
      }
      ok := true;
    }

    method PopulateInput(loader: DataLoader, src: Source, thread: nat, i: nat) returns (ok: bool)
      requires Serves(loader, src) && i < |src.inputs| && EmptyStreams(cache, thread, src.inputs[i].name, 0)
      modifies this
      ensures ok <==> FineInput(src, i)
      ensures ok ==> RightInput(src, cache, thread, i)
      ensures SameOutsideInput(old(cache), cache, thread, src.inputs[i].name)
    {
      for s := 0 to |src.streams|
        invariant FineStreams(src, i, s) && RightStreams(src, cache, thread, i, s)
        invariant SameOutsideInput(old(cache), cache, thread, src.inputs[i].name)
        invariant EmptyStreams(cache, thread, src.inputs[i].name, s)
      {
        ghost var before := cache;
        ok := PopulateStream(loader, src, thread, i, s);
        if !ok {
          return;
        }
        StreamFills(src, old(cache), before, cache, thread, i, s);
      }
      ok := true;
    }

    method PopulateThread(loader: DataLoader, src: Source, thread: nat) returns (ok: bool)
      requires Serves(loader, src) && DistinctNames(src.inputs) && EmptyThreads(cache, thread)
      modifies this
      ensures ok <==> FineAll(src)
      ensures ok ==> RightThread(src, cache, thread) && SameOutsideThread(old(cache), cache, thread)
    {
      for i := 0 to |src.inputs|
        invariant FineInputs(src, i) && RightInputs(src, cache, thread, i)
        invariant SameOutsideThread(old(cache), cache, thread)
        invariant EmptyInputs(src, cache, thread, i)
      {
        ghost var before := cache;
        ok := PopulateInput(loader, src, thread, i);
        if !ok {
          return;
        }
        InputFills(src, old(cache), before, cache, thread, i);
      }
      ok := true;
    }

    /** Init of a fresh manager. It fails exactly when some batch is broken; and
        when it succeeds, every thread finds the right input at every step. */
    method CreateAndPopulateInputs(loader: DataLoader, src: Source) returns (ok: bool)
      requires Serves(loader, src) && DistinctNames(src.inputs) && cache == map[]
      modifies this
      ensures ok <==> maxThreads == 0 || FineAll(src)
      ensures ok ==> RightThreads(src, cache, maxThreads)
    {
      for thread := 0 to maxThreads
        invariant RightThreads(src, cache, thread) && EmptyThreads(cache, thread)
        invariant thread > 0 ==> FineAll(src)
      {
        ghost var before := cache;
        ok := PopulateThread(loader, src, thread);
        if !ok {
          return;
        }
        ThreadFills(src, before, cache, thread);
      }
      ok := true;
    }

    /** What UpdateInputs puts into a request: the cached inputs of the step, in
        the order of the model's inputs, without the absent ones. */
    method UpdateInputs(src: Source, thread: nat, s: nat, k: nat) returns (valid: seq<(string, Data)>)
      requires RightThreads(src, cache, maxThreads) && thread < maxThreads
      requires s < |src.streams| && k < |src.streams[s]|
      ensures valid == RequestInputs(src, s, k, |src.inputs|)
    {
      valid := [];
      for i := 0 to |src.inputs|
        invariant valid == RequestInputs(src, s, k, i)
      {
        var c := Coord(thread, src.inputs[i].name, s, k);
        LookRight(src, cache, thread, i, s, k, maxThreads);
        PresentNext(src, s, k, i);
        if c in cache {
          valid := valid + [(c.name, cache[c])];
        }
      }
    }
  }

  lemma LookRight(src: Source, cache: map<Coord, Data>, thread: nat, i: nat, s: nat, k: nat, threads: nat)
    requires RightThreads(src, cache, threads) && thread < threads
    requires i < |src.inputs| && s < |src.streams| && k < |src.streams[s]|
    ensures var c, e := Coord(thread, src.inputs[i].name, s, k), Expect(src, src.inputs[i], s, k);
            && (c in cache <==> e.Holds?)
            && (c in cache ==> cache[c] == e.bytes)
  {
    assert RightThread(src, cache, thread);
    assert RightInput(src, cache, thread, i);
    assert RightStream(src, cache, thread, i, s);
    assert Right(src, cache, thread, i, s, k);
  }

  /** The inputs that are present, in order. */
  function Present(inputs: seq<Input>, es: seq<Expected>): seq<(string, Data)>
    requires |inputs| == |es|
  {
    if es == [] then []
    else
      var n := |es| - 1;
      match es[n]
      case Holds(bytes) => Present(inputs[..n], es[..n]) + [(inputs[n].name, bytes)]
      case _ => Present(inputs[..n], es[..n])
  }

  /** What is expected of the first n inputs at one step. */
  ghost function ExpectAll(src: Source, s: nat, k: nat, n: nat): (es: seq<Expected>)
    requires s < |src.streams| && k < |src.streams[s]| && n <= |src.inputs|
    ensures |es| == n && forall i :: 0 <= i < n ==> es[i] == Expect(src, src.inputs[i], s, k)
  {
    seq(n, i requires 0 <= i < n => Expect(src, src.inputs[i], s, k))
  }

  /** The inputs of a request, looked up directly. */
  ghost function RequestInputs(src: Source, s: nat, k: nat, n: nat): seq<(string, Data)>
    requires s < |src.streams| && k < |src.streams[s]| && n <= |src.inputs|
  {
    Present(src.inputs[..n], ExpectAll(src, s, k, n))
  }

  lemma PresentNext(src: Source, s: nat, k: nat, n: nat)
    requires s < |src.streams| && k < |src.streams[s]| && n < |src.inputs|
    ensures RequestInputs(src, s, k, n + 1) == RequestInputs(src, s, k, n) +
              match Expect(src, src.inputs[n], s, k) case Holds(bytes) => [(src.inputs[n].name, bytes)] case _ => []
  {
    assert src.inputs[..n + 1][..n] == src.inputs[..n];
    assert ExpectAll(src, s, k, n + 1)[..n] == ExpectAll(src, s, k, n);
  }

  /** With all inputs present, a request carries them in the model's order. */
  lemma {:induction false} PresentInOrder(inputs: seq<Input>, es: seq<Expected>, i: nat)
    requires i < |inputs| == |es| && forall j :: 0 <= j < |es| ==> es[j].Holds?
    ensures |Present(inputs, es)| == |es| && Present(inputs, es)[i] == (inputs[i].name, es[i].bytes)
  {
    var n := |es| - 1;
    if n > 0 {
      PresentInOrder(inputs[..n], es[..n], if i < n then i else 0);
    }
  }

  /** An input is in the request, with its bytes, if and only if it is present. */
  lemma {:induction false} PresentIff(inputs: seq<Input>, es: seq<Expected>, p: (string, Data))
    requires |inputs| == |es|
    ensures p in Present(inputs, es) <==> exists i :: 0 <= i < |es| && inputs[i].name == p.0 && es[i] == Holds(p.1)
  {
    if es != [] {
      var n := |es| - 1;
      PresentIff(inputs[..n], es[..n], p);
      assert forall i :: 0 <= i < n ==> inputs[..n][i] == inputs[i] && es[..n][i] == es[i];
    }
  }

  // ------------------------------------------------- shared memory

  /** The region of one tensor, stream and step. Optional data is not supported:
      every piece must be there. */
  method CreateInputRegion(loader: DataLoader, src: Source, i: nat, s: nat, k: nat) returns (r: Result<array<nat>, Failure>)
    requires Serves(loader, src) && i < |src.inputs| && s < |src.streams| && k < |src.streams[s]|
    ensures r.Ok? <==> Expect(src, src.inputs[i], s, k).Holds?
    ensures r.Ok? ==> r.value[..] == Expect(src, src.inputs[i], s, k).bytes
  {
    var input := src.inputs[i];
    var fetched := FetchBatch(loader, src, i, s, k);
    if fetched.Err? {
      return Err(Failure);
    }
    var ps := fetched.value;
    if input.isShape {
      var ok := ValidateShapeTensor(loader, src, i, s, k, ps[0]);
      if !ok {
        return Err(Failure);
      }
    }
    var size := RegionSize(ps);
    if size.Err? {
      return Err(Failure);
    }
    var region := new nat[size.value];
    CopySharedMemory(region, ps);
    r := Ok(region);
  }

  method RegionSize(ps: seq<Option<Data>>) returns (r: Result<nat, Failure>)
    ensures r.Ok? <==> forall j :: 0 <= j < |ps| ==> ps[j].Some?
    ensures r.Ok? ==> r.value == |Concat(ps)|
  {
    var size := 0;
    for j := 0 to |ps|
      invariant size == |Concat(ps[..j])| && forall m :: 0 <= m < j ==> ps[m].Some?
    {
      assert ps[..j + 1][..j] == ps[..j];
      if ps[j].None? {
        return Err(Failure);
      }
      size := size + |ps[j].value|;
    }
    assert ps[..|ps|] == ps;
    r := Ok(size);
  }

  /** Copies the pieces one behind the other and fills the region exactly. */
  method CopySharedMemory(region: array<nat>, ps: seq<Option<Data>>)
    requires region.Length == |Concat(ps)| && forall j :: 0 <= j < |ps| ==> ps[j].Some?
    modifies region
    ensures region[..] == Concat(ps)
  {
    var offset := 0;
    for count := 0 to |ps|
      invariant offset == |Concat(ps[..count])| <= region.Length && region[..offset] == Concat(ps[..count])
    {
      ConcatPrefix(ps, count);
      CopyAt(region, offset, ps[count].value);
      offset := offset + |ps[count].value|;
    }
    assert ps[..|ps|] == ps;
  }

  lemma {:induction false} ConcatGrows(ps: seq<Option<Data>>, n: nat)
    requires n <= |ps|
    ensures |Concat(ps[..n])| <= |Concat(ps)|
    decreases |ps| - n
  {
    if n < |ps| {
      ConcatGrows(ps, n + 1);
      assert ps[..n + 1][..n] == ps[..n];
    } else {
      assert ps[..n] == ps;
    }
  }

  lemma ConcatPrefix(ps: seq<Option<Data>>, n: nat)
    requires n < |ps| && ps[n].Some?
    ensures Concat(ps[..n + 1]) == Concat(ps[..n]) + ps[n].value
    ensures |Concat(ps[..n])| + |ps[n].value| <= |Concat(ps)|
  {
    assert ps[..n + 1][..n] == ps[..n];
    ConcatGrows(ps, n + 1);
  }

  /** memcpy. */
  method CopyAt(region: array<nat>, offset: nat, data: Data)
    requires offset + |data| <= region.Length
    modifies region
    ensures region[..offset + |data|] == old(region[..offset]) + data
  {
    for j := 0 to |data|
      invariant region[..offset + j] == old(region[..offset]) + data[..j]
    {
      region[offset + j] := data[j];
    }
  }

  /** TensorToRegionName: slashes are dropped. */
  function RegionName(name: string): string {
    if name == "" then ""
    else
      var c := name[|name| - 1];
      if c == '/' || c == '\\' then RegionName(name[..|name| - 1]) else RegionName(name[..|name| - 1]) + [c]
  }

  /** Slashes are dropped, everything else is kept, in order. */
  lemma {:induction false} RegionNameKeeps(a: string, b: string)
    ensures RegionName(a + b) == RegionName(a) + RegionName(b)
  {
    if b == "" {
      assert a + b == a;
    } else {
      var n := |b| - 1;
      RegionNameKeeps(a, b[..n]);
      assert (a + b)[..|a + b| - 1] == a + b[..n];
    }
  }

  lemma RegionNameOfChar(c: char)
    ensures RegionName([c]) == if c in {'/', '\\'} then "" else [c]
  {
    assert [c][..0] == "";
  }

  function RegionKey(name: string, s: nat, k: nat): string {
    TensorKey(RegionName(name), s, k)
  }

  /** Two regions share a key if and only if they are for the same step and their
      names agree but for slashes. */
  lemma RegionKeyShared(name: string, s: nat, k: nat, name': string, s': nat, k': nat)
    ensures RegionKey(name, s, k) == RegionKey(name', s', k') <==> RegionName(name) == RegionName(name') && s == s' && k == k'
  {
    if RegionKey(name, s, k) == RegionKey(name', s', k') {
      TensorKeyInjective(RegionName(name), s, k, RegionName(name'), s', k');
    }
  }

  /** Tensor names that differ only in slashes collide. */
  lemma SlashCollision(s: nat, k: nat)
    ensures RegionKey("a/b", s, k) == RegionKey("ab", s, k)
  {
    assert RegionName("a/b") == RegionName("ab") by {
      assert "a/b"[..2] == "a/" && "a/"[..1] == "a" && "ab"[..1] == "a" && "a"[..0] == "";
    }
  }
}
