/** The shared-memory regions of all inputs. A region is found by its name, and
    names are built from tensor names without their slashes: creating a region
    under a name that exists gives the same memory, resized. */
module SharedRegions {
  import opened Basics
  import opened DataLoaders
  import opened InferInputs

  predicate IsStep(src: Source, s: nat, k: nat) {
    s < |src.streams| && k < |src.streams[s]|
  }

  /** The bytes one input needs at one step. */
  ghost function BytesAt(src: Source, i: nat, s: nat, k: nat): Data
    requires i < |src.inputs| && IsStep(src, s, k)
  {
    match Expect(src, src.inputs[i], s, k) case Holds(bytes) => bytes case _ => []
  }

  function Key(src: Source, i: nat, s: nat, k: nat): string
    requires i < |src.inputs|
  {
    RegionKey(src.inputs[i].name, s, k)
  }

  predicate SameName(src: Source, i: nat, j: nat)
    requires i < |src.inputs| && j < |src.inputs|
  {
    RegionName(src.inputs[i].name) == RegionName(src.inputs[j].name)
  }

  /** The last of the first n inputs that writes to the region of input j. */
  function LastWriter(src: Source, j: nat, n: nat): (i: nat)
    requires j < n <= |src.inputs|
    ensures j <= i < n && SameName(src, i, j)
  {
    if j == n - 1 || SameName(src, n - 1, j) then n - 1 else LastWriter(src, j, n - 1)
  }

  /** After the first n inputs, every region of a step holds what its last writer
      put there. */
  ghost predicate Held(src: Source, memory: map<string, Data>, s: nat, k: nat, n: nat)
    requires IsStep(src, s, k) && n <= |src.inputs|
  {
    forall j: nat :: j < n ==>
      Key(src, j, s, k) in memory && memory[Key(src, j, s, k)] == BytesAt(src, LastWriter(src, j, n), s, k)
  }

  function Writers(i: nat, s': nat, k': nat, s: nat, k: nat): nat {
    if s' < s || (s' == s && k' < k) then i + 1 else i
  }

  /** The regions when input i has been written up to stream s and step k. */
  ghost predicate Progress(src: Source, memory: map<string, Data>, i: nat, s: nat, k: nat)
    requires i < |src.inputs|
  {
    forall s': nat, k': nat :: IsStep(src, s', k') ==>
      Held(src, memory, s', k', Writers(i, s', k', s, k))
  }

  lemma WriteHere(src: Source, memory: map<string, Data>, i: nat, s: nat, k: nat)
    requires i < |src.inputs| && IsStep(src, s, k) && Held(src, memory, s, k, i)
    ensures Held(src, memory[Key(src, i, s, k) := BytesAt(src, i, s, k)], s, k, i + 1)
  {
    forall j: nat | j < i + 1
      ensures Key(src, j, s, k) == Key(src, i, s, k) <==> SameName(src, i, j)
    {
      RegionKeyShared(src.inputs[j].name, s, k, src.inputs[i].name, s, k);
    }
  }

  lemma WriteElsewhere(src: Source, memory: map<string, Data>, i: nat, s: nat, k: nat, s': nat, k': nat, n: nat)
    requires i < |src.inputs| && IsStep(src, s, k)
    requires IsStep(src, s', k') && n <= |src.inputs| && Held(src, memory, s', k', n)
    requires (s', k') != (s, k)
    ensures Held(src, memory[Key(src, i, s, k) := BytesAt(src, i, s, k)], s', k', n)
  {
    forall j: nat | j < n
      ensures Key(src, j, s', k') != Key(src, i, s, k)
    {
      RegionKeyShared(src.inputs[j].name, s', k', src.inputs[i].name, s, k);
    }
  }

  lemma WriteProgress(src: Source, memory: map<string, Data>, i: nat, s: nat, k: nat)
    requires i < |src.inputs| && IsStep(src, s, k) && Progress(src, memory, i, s, k)
    ensures Progress(src, memory[Key(src, i, s, k) := BytesAt(src, i, s, k)], i, s, k + 1)
  {
    var after := memory[Key(src, i, s, k) := BytesAt(src, i, s, k)];
    forall s': nat, k': nat | IsStep(src, s', k')
      ensures Held(src, after, s', k', Writers(i, s', k', s, k + 1))
    {
      assert Held(src, memory, s', k', Writers(i, s', k', s, k));
      if (s', k') == (s, k) {
        WriteHere(src, memory, i, s, k);
      } else {
        WriteElsewhere(src, memory, i, s, k, s', k', Writers(i, s', k', s, k));
      }
    }
  }

  /** Every batch of input i, up to stream s and step k, is complete. */
  ghost predicate Complete(src: Source, i: nat, s: nat, k: nat)
    requires i < |src.inputs| && IsStep(src, s, k)
  {
    Expect(src, src.inputs[i], s, k).Holds?
  }

  ghost predicate CompleteStream(src: Source, i: nat, s: nat)
    requires i < |src.inputs| && s < |src.streams|
  {
    forall k: nat :: k < |src.streams[s]| ==> Complete(src, i, s, k)
  }

  ghost predicate CompleteInput(src: Source, i: nat)
    requires i < |src.inputs|
  {
    forall s: nat :: s < |src.streams| ==> CompleteStream(src, i, s)
  }

  ghost predicate CompleteInputs(src: Source, n: nat)
    requires n <= |src.inputs|
  {
    forall i: nat :: i < n ==> CompleteInput(src, i)
  }

  lemma NothingHeld(src: Source, memory: map<string, Data>)
    ensures AllHeld(src, memory, 0)
  {
  }

  /** All regions, from the writer of each. */
  ghost predicate AllHeld(src: Source, memory: map<string, Data>, n: nat)
    requires n <= |src.inputs|
  {
    forall s: nat, k: nat :: IsStep(src, s, k) ==> Held(src, memory, s, k, n)
  }

  lemma StartInput(src: Source, memory: map<string, Data>, i: nat)
    requires i < |src.inputs| && AllHeld(src, memory, i)
    ensures Progress(src, memory, i, 0, 0)
  {
  }

  lemma NextStream(src: Source, memory: map<string, Data>, i: nat, s: nat)
    requires i < |src.inputs| && s < |src.streams| && Progress(src, memory, i, s, |src.streams[s]|)
    ensures Progress(src, memory, i, s + 1, 0)
  {
    forall s': nat, k': nat | IsStep(src, s', k')
      ensures Held(src, memory, s', k', Writers(i, s', k', s + 1, 0))
    {
      assert Held(src, memory, s', k', Writers(i, s', k', s, |src.streams[s]|));
    }
  }

  lemma EndInput(src: Source, memory: map<string, Data>, i: nat)
    requires i < |src.inputs| && Progress(src, memory, i, |src.streams|, 0)
    ensures AllHeld(src, memory, i + 1)
  {
    forall s: nat, k: nat | IsStep(src, s, k)
      ensures Held(src, memory, s, k, i + 1)
    {
      assert Held(src, memory, s, k, Writers(i, s, k, |src.streams|, 0));
    }
  }

  class InferDataManagerShm {
    /** The memory behind each region name. */
    var memory: map<string, Data>

    constructor ()
      ensures memory == map[]
    {
      memory := map[];
    }

    method PopulateStream(loader: DataLoader, src: Source, i: nat, s: nat) returns (ok: bool)
      requires Serves(loader, src) && i < |src.inputs| && s < |src.streams| && Progress(src, memory, i, s, 0)
      modifies this
      ensures ok <==> CompleteStream(src, i, s)
      ensures ok ==> Progress(src, memory, i, s + 1, 0)
    {
      for k := 0 to |src.streams[s]|
        invariant Progress(src, memory, i, s, k)
        invariant forall j: nat :: j < k ==> Complete(src, i, s, j)
      {
        var r := CreateInputRegion(loader, src, i, s, k);
        if r.Err? {
          assert !Complete(src, i, s, k);
          return false;
        }
        WriteProgress(src, memory, i, s, k);
        assert r.value[..] == BytesAt(src, i, s, k);
        memory := memory[Key(src, i, s, k) := r.value[..]];
      }
      NextStream(src, memory, i, s);
      ok := true;
    }

    method PopulateInput(loader: DataLoader, src: Source, i: nat) returns (ok: bool)
      requires Serves(loader, src) && i < |src.inputs| && AllHeld(src, memory, i)
      modifies this
      ensures ok <==> CompleteInput(src, i)
      ensures ok ==> AllHeld(src, memory, i + 1)
    {
      StartInput(src, memory, i);
      for s := 0 to |src.streams|
        invariant Progress(src, memory, i, s, 0)
        invariant forall r: nat :: r < s ==> CompleteStream(src, i, r)
      {
        ok := PopulateStream(loader, src, i, s);
        if !ok {
          return;
        }
      }
      EndInput(src, memory, i);
      ok := true;
    }

    /** Builds the regions of all inputs, streams and steps. It fails exactly when
        some batch lacks data. */
    method CreateAndPopulateInputMemoryRegions(loader: DataLoader, src: Source) returns (ok: bool)
      requires Serves(loader, src) && memory == map[]
      modifies this
      ensures ok <==> CompleteInputs(src, |src.inputs|)
      ensures ok ==> AllHeld(src, memory, |src.inputs|)
    {
      NothingHeld(src, memory);
      for i := 0 to |src.inputs|
        invariant AllHeld(src, memory, i) && CompleteInputs(src, i)
      {
        ok := PopulateInput(loader, src, i);
        if !ok {
          return;
        }
      }
      ok := true;
    }
  }

  /** Input i finds its own bytes at a step. */
  ghost predicate FindsOwn(src: Source, memory: map<string, Data>, i: nat, s: nat, k: nat)
    requires i < |src.inputs| && IsStep(src, s, k)
  {
    Key(src, i, s, k) in memory && memory[Key(src, i, s, k)] == BytesAt(src, i, s, k)
  }

  ghost predicate NoHarmfulCollision(src: Source, s: nat, k: nat)
    requires IsStep(src, s, k)
  {
    forall i: nat, j: nat :: i < j < |src.inputs| && SameName(src, i, j) ==>
      BytesAt(src, i, s, k) == BytesAt(src, j, s, k)
  }

  /** Once all regions are built, every input finds its own bytes at a step if and
      only if any two inputs whose names differ only in slashes have the same
      bytes there. */
  lemma RegionsRightIff(src: Source, memory: map<string, Data>, s: nat, k: nat)
    requires AllHeld(src, memory, |src.inputs|) && IsStep(src, s, k)
    ensures (forall i: nat :: i < |src.inputs| ==> FindsOwn(src, memory, i, s, k)) <==> NoHarmfulCollision(src, s, k)
  {
    var n := |src.inputs|;
    assert Held(src, memory, s, k, n);
    if NoHarmfulCollision(src, s, k) {
      forall i: nat | i < n
        ensures FindsOwn(src, memory, i, s, k)
      {
        var w := LastWriter(src, i, n);
        assert i < w ==> SameName(src, i, w);
      }
    } else {
      var i: nat, j: nat :| i < j < n && SameName(src, i, j) && BytesAt(src, i, s, k) != BytesAt(src, j, s, k);
      RegionKeyShared(src.inputs[i].name, s, k, src.inputs[j].name, s, k);
      assert !FindsOwn(src, memory, i, s, k) || !FindsOwn(src, memory, j, s, k);
    }
  }

  /** Two inputs whose names differ in a slash, with different bytes at the only
      step. */
  function TwoInputs(): Source {
    Source([Input("a/b", false, false), Input("ab", false, false)],
           [[map["a/b" := Bytes([1]), "ab" := Bytes([2])]]],
           (name: string, s: nat, k: nat) => [], 1)
  }

  lemma OneByte(i: nat)
    requires i < 2
    ensures IsStep(TwoInputs(), 0, 0) && Expect(TwoInputs(), TwoInputs().inputs[i], 0, 0) == Holds([i + 1])
  {
    var src := TwoInputs();
    var input := src.inputs[i];
    assert HasName(src.inputs, input.name);
    assert Wrap(0, 0, 1) == 0;
    var ps := Batch(src, input.name, 0, 0, 1);
    assert ps == [Some([i + 1])];
    assert ps[..0] == [] && Concat(ps) == [] + [i + 1];
  }

  /** Whatever memory the manager ends with, the first input reads the bytes of
      the second. */
  lemma WrongBytes(memory: map<string, Data>)
    requires AllHeld(TwoInputs(), memory, 2)
    ensures IsStep(TwoInputs(), 0, 0) && Key(TwoInputs(), 0, 0, 0) in memory
    ensures memory[Key(TwoInputs(), 0, 0, 0)] == BytesAt(TwoInputs(), 1, 0, 0) == [2]
    ensures BytesAt(TwoInputs(), 0, 0, 0) == [1] && !FindsOwn(TwoInputs(), memory, 0, 0, 0)
  {
    var src := TwoInputs();
    OneByte(0);
    OneByte(1);
    SlashCollision(0, 0);
    RegionKeyShared("a/b", 0, 0, "ab", 0, 0);
    assert Held(src, memory, 0, 0, 2);
    assert SameName(src, 1, 0) && LastWriter(src, 0, 2) == 1;
  }
}
