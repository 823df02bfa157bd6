/** The data loader: a flat store keyed by strings that stands for a list of
    streams of steps, built up from any number of parsed files. */
module DataLoaders {
  import opened Basics
  import opened RequestKeys

  /** The bytes of a tensor. */
  type Data = seq<nat>

  datatype Input = Input(name: string, optional: bool, isShape: bool)

  /** The value given for a tensor: readable and of the right size, or not. */
  datatype Content = Bytes(data: Data) | Malformed

  type Step = map<string, Content>

  /** One element of the "data" array of a file. */
  datatype Element = Steps(steps: seq<Step>) | Object(step: Step)

  // ------------------------------------------------- steps

  predicate HasName(inputs: seq<Input>, name: string) {
    exists i :: 0 <= i < |inputs| && inputs[i].name == name
  }

  predicate InputOk(input: Input, step: Step) {
    if input.name in step then step[input.name].Bytes? else input.optional
  }

  /** Every tensor is readable, none is missing and none is unknown. */
  ghost predicate StepOk(inputs: seq<Input>, step: Step) {
    && (forall i :: 0 <= i < |inputs| ==> InputOk(inputs[i], step))
    && forall name :: name in step ==> HasName(inputs, name) || name == "model"
  }

  /** A step is refused for a missing mandatory tensor, for an unreadable one, and
      for a name that is neither an input nor "model"; for nothing else. */
  lemma StepMeans(inputs: seq<Input>, step: Step)
    ensures StepOk(inputs, step) <==>
              && (forall i :: 0 <= i < |inputs| && !inputs[i].optional ==> inputs[i].name in step)
              && (forall i :: 0 <= i < |inputs| && inputs[i].name in step ==> !step[inputs[i].name].Malformed?)
              && forall name :: name in step && name != "model" ==> exists i :: 0 <= i < |inputs| && inputs[i].name == name
  {
    if StepOk(inputs, step) {
      forall i | 0 <= i < |inputs|
        ensures (!inputs[i].optional ==> inputs[i].name in step)
        ensures (inputs[i].name in step ==> !step[inputs[i].name].Malformed?)
      {
        assert InputOk(inputs[i], step);
      }
    }
  }

  /** The store after the tensors of one step have been put in. */
  function AddStep(data: map<string, Data>, inputs: seq<Input>, step: Step, s: nat, k: nat): map<string, Data> {
    if inputs == [] then data
    else
      var name := inputs[|inputs| - 1].name;
      var front := AddStep(data, inputs[..|inputs| - 1], step, s, k);
      if name in step && step[name].Bytes? then front[TensorKey(name, s, k) := step[name].data] else front
  }

  lemma {:induction false} AddStepAt(data: map<string, Data>, inputs: seq<Input>, step: Step, s: nat, k: nat,
                                     name: string, s': nat, k': nat)
    ensures var key := TensorKey(name, s', k');
            var added := s' == s && k' == k && HasName(inputs, name) && name in step && step[name].Bytes?;
            var after := AddStep(data, inputs, step, s, k);
            && (key in after <==> added || key in data)
            && (key in after ==> after[key] == if added then step[name].data else data[key])
  {
    if inputs != [] {
      var n := |inputs| - 1;
      AddStepAt(data, inputs[..n], step, s, k, name, s', k');
      if TensorKey(name, s', k') == TensorKey(inputs[n].name, s, k) {
        TensorKeyInjective(name, s', k', inputs[n].name, s, k);
      }
      assert HasName(inputs, name) <==> HasName(inputs[..n], name) || inputs[n].name == name;
    }
  }

  // ------------------------------------------------- streams

  /** Whether the streams hold data for a tensor. */
  predicate Has(inputs: seq<Input>, streams: seq<seq<Step>>, name: string, s: nat, k: nat) {
    && s < |streams| && k < |streams[s]|
    && HasName(inputs, name) && name in streams[s][k] && streams[s][k][name].Bytes?
  }

  ghost predicate Agrees(inputs: seq<Input>, data: map<string, Data>, streams: seq<seq<Step>>, name: string, s: nat, k: nat) {
    var key := TensorKey(name, s, k);
    && (key in data <==> Has(inputs, streams, name, s, k))
    && (key in data ==> data[key] == streams[s][k][name].data)
  }

  /** The flat store holds exactly the data of the streams. */
  ghost predicate Refines(inputs: seq<Input>, data: map<string, Data>, streams: seq<seq<Step>>) {
    forall name, s: nat, k: nat :: Agrees(inputs, data, streams, name, s, k)
  }

  function Push(streams: seq<seq<Step>>, s: nat, step: Step): seq<seq<Step>>
    requires s < |streams|
  {
    streams[s := streams[s] + [step]]
  }

  lemma PushRefines(inputs: seq<Input>, data: map<string, Data>, streams: seq<seq<Step>>, s: nat, step: Step)
    requires s < |streams| && Refines(inputs, data, streams)
    ensures Refines(inputs, AddStep(data, inputs, step, s, |streams[s]|), Push(streams, s, step))
  {
    var after, grown := AddStep(data, inputs, step, s, |streams[s]|), Push(streams, s, step);
    forall name, s': nat, k': nat
      ensures Agrees(inputs, after, grown, name, s', k')
    {
      assert Agrees(inputs, data, streams, name, s', k');
      AddStepAt(data, inputs, step, s, |streams[s]|, name, s', k');
    }
  }

  lemma EmptyStreamRefines(inputs: seq<Input>, data: map<string, Data>, streams: seq<seq<Step>>)
    requires Refines(inputs, data, streams)
    ensures Refines(inputs, data, streams + [[]])
  {
    forall name, s: nat, k: nat
      ensures Agrees(inputs, data, streams + [[]], name, s, k)
    {
      assert Agrees(inputs, data, streams, name, s, k);
    }
  }

  ghost predicate AllOk(inputs: seq<Input>, streams: seq<seq<Step>>) {
    forall s, k :: 0 <= s < |streams| && 0 <= k < |streams[s]| ==> StepOk(inputs, streams[s][k])
  }

  lemma ReadableHere(inputs: seq<Input>, streams: seq<seq<Step>>, s: nat, k: nat, name: string)
    requires AllOk(inputs, streams) && s < |streams| && k < |streams[s]| && HasName(inputs, name)
    ensures Has(inputs, streams, name, s, k) <==> name in streams[s][k]
    ensures name in streams[s][k] ==> streams[s][k][name].Bytes?
  {
    var i :| 0 <= i < |inputs| && inputs[i].name == name;
    assert StepOk(inputs, streams[s][k]);
    assert InputOk(inputs[i], streams[s][k]);
  }

  // ------------------------------------------------- files

  ghost predicate ElementOk(inputs: seq<Input>, e: Element, multiple: bool) {
    match e
    case Steps(steps) => multiple && forall k :: 0 <= k < |steps| ==> StepOk(inputs, steps[k])
    case Object(step) => !multiple && StepOk(inputs, step)
  }

  /** Whether a file can be read: all its elements are of one kind, the kind of
      the files before it, and all its steps are fine. */
  ghost predicate FileOk(inputs: seq<Input>, first: bool, multiple: bool, json: seq<Element>) {
    forall i :: 0 <= i < |json| ==> ElementOk(inputs, json[i], if first then json[0].Steps? else multiple)
  }

  /** A file that mixes arrays and objects is refused, and so is one of the other
      kind than the files before it. */
  lemma MixedRefused(inputs: seq<Input>, first: bool, multiple: bool, json: seq<Element>, i: nat, j: nat)
    requires i < |json| && j < |json|
    ensures json[i].Steps? != json[j].Steps? ==> !FileOk(inputs, first, multiple, json)
    ensures !first && json[i].Steps? != multiple ==> !FileOk(inputs, first, multiple, json)
  {
    if FileOk(inputs, first, multiple, json) {
      var kind := if first then json[0].Steps? else multiple;
      assert ElementOk(inputs, json[i], kind) && ElementOk(inputs, json[j], kind);
    }
  }

  /** The streams after a file: arrays are appended as streams, objects as steps
      of stream 0. */
  ghost function Extended(streams: seq<seq<Step>>, json: seq<Element>): seq<seq<Step>> {
    if json == [] then streams
    else
      var n := |json| - 1;
      var before := Extended(streams, json[..n]);
      match json[n]
      case Steps(steps) => before + [steps]
      case Object(step) => if before == [] then [[step]] else Push(before, 0, step)
  }

  ghost function Started(streams: seq<seq<Step>>): seq<seq<Step>> {
    if streams == [] then [[]] else streams
  }

  lemma ExtendFlat(streams: seq<seq<Step>>, json: seq<Element>, m: nat)
    requires m < |json| && json[m].Object?
    ensures Extended(streams, json[..m + 1]) == Push(Started(Extended(streams, json[..m])), 0, json[m].step)
  {
    assert json[..m + 1][..m] == json[..m];
    assert [] + [json[m].step] == [json[m].step];
  }

  class DataLoader {
    const inputs: seq<Input>
    var stepNum: seq<nat>
    var streamCount: nat
    var multiple: bool
    var inputData: map<string, Data>
    /** What the other fields stand for. */
    ghost var streams: seq<seq<Step>>

    ghost predicate Stored()
      reads this
    {
      Refines(inputs, inputData, streams) && AllOk(inputs, streams)
    }

    ghost predicate Sized()
      reads this
    {
      |stepNum| == |streams| && forall i :: 0 <= i < |stepNum| ==> stepNum[i] == |streams[i]|
    }

    ghost predicate Valid()
      reads this
    {
      Stored() && Sized() && streamCount == |stepNum| && (stepNum != [] && !multiple ==> streamCount == 1)
    }

    constructor (inputs: seq<Input>)
      ensures this.inputs == inputs && streams == [] && Valid()
    {
      this.inputs := inputs;
      stepNum, streamCount, multiple, inputData, streams := [], 0, false, map[], [];
    }

    /** Puts the tensors of one step into the store. */
    method ReadTensorData(step: Step, s: nat, k: nat) returns (ok: bool)
      modifies this`inputData
      ensures ok <==> StepOk(inputs, step)
      ensures ok ==> inputData == AddStep(old(inputData), inputs, step, s, k)
    {
      for i := 0 to |inputs|
        invariant inputData == AddStep(old(inputData), inputs[..i], step, s, k)
        invariant forall j :: 0 <= j < i ==> InputOk(inputs[j], step)
      {
        assert inputs[..i + 1][..i] == inputs[..i];
        var input := inputs[i];
        if input.name in step {
          if step[input.name].Malformed? {
            return false;
          }
          inputData := inputData[TensorKey(input.name, s, k) := step[input.name].data];
        } else if !input.optional {
          return false;
        }
      }
      assert inputs[..|inputs|] == inputs;
      ok := true;
      var names := step.Keys;
      while names != {}
        invariant names <= step.Keys
        invariant ok <==> forall name :: name in step.Keys - names ==> HasName(inputs, name) || name == "model"
        decreases |names|
      {
        var name :| name in names;
        if !HasName(inputs, name) && name != "model" {
          ok := false;
        }
        names := names - {name};
      }
    }

    /** Reads a step that becomes number k of stream s. */
    method ReadStep(step: Step, s: nat, k: nat) returns (ok: bool)
      requires Stored() && s < |streams| && k == |streams[s]|
      modifies this`inputData, this`streams
      ensures ok <==> StepOk(inputs, step)
      ensures ok ==> Stored() && streams == Push(old(streams), s, step)
    {
      PushRefines(inputs, inputData, streams, s, step);
      ok := ReadTensorData(step, s, k);
      if ok {
        streams := Push(streams, s, step);
      }
    }

    /** Reads the steps of a new stream. */
    method ReadStream(steps: seq<Step>) returns (ok: bool)
      requires Stored() && Sized()
      modifies this`stepNum, this`inputData, this`streams
      ensures ok <==> forall k :: 0 <= k < |steps| ==> StepOk(inputs, steps[k])
      ensures ok ==> Stored() && Sized() && streams == old(streams) + [steps]
    {
      var s := |stepNum|;
      stepNum := stepNum + [|steps|];
      EmptyStreamRefines(inputs, inputData, streams);
      streams := streams + [[]];
      ghost var sizes := stepNum;
      for k := 0 to stepNum[s]
        invariant stepNum == sizes && Stored() && streams == old(streams) + [steps[..k]]
        invariant forall j :: 0 <= j < k ==> StepOk(inputs, steps[j])
      {
        ok := ReadStep(steps[k], s, k);
        if !ok {
          return;
        }
        assert steps[..k + 1] == steps[..k] + [steps[k]];
      }
      assert steps[..|steps|] == steps;
      ok := true;
    }

    /** Reads the elements of a file as steps of stream 0. */
    method ReadFlat(json: seq<Element>) returns (ok: bool)
      requires Stored() && Sized() && |stepNum| <= 1 && json != []
      modifies this`stepNum, this`inputData, this`streams
      ensures ok <==> forall i :: 0 <= i < |json| ==> ElementOk(inputs, json[i], false)
      ensures ok ==> Stored() && Sized() && |stepNum| == 1 && streams == Extended(old(streams), json)
    {
      var offset := 0;
      if stepNum == [] {
        stepNum := [|json|];
        EmptyStreamRefines(inputs, inputData, streams);
        streams := streams + [[]];
      } else {
        offset := stepNum[0];
        stepNum := [stepNum[0] + |json|];
      }
      ghost var sizes := stepNum;
      assert json[..0] == [];
      for k := offset to stepNum[0]
        invariant stepNum == sizes && Stored() && |streams| == 1 && |streams[0]| == k
        invariant streams == Started(Extended(old(streams), json[..k - offset]))
        invariant k > offset ==> streams == Extended(old(streams), json[..k - offset])
        invariant forall i :: 0 <= i < k - offset ==> ElementOk(inputs, json[i], false)
      {
        var m := k - offset;
        if json[m].Steps? {
          return false;
        }
        ExtendFlat(old(streams), json, m);
        ok := ReadStep(json[m].step, 0, k);
        if !ok {
          return;
        }
      }
      assert json[..|json|] == json;
      ok := true;
    }

    /** The kind of the first element ever read decides for all files. */
    method ValidateParsingMode(e: Element) returns (ok: bool)
      modifies this`multiple
      ensures multiple == (if stepNum == [] then e.Steps? else old(multiple)) && ok == (e.Steps? == multiple)
    {
      if stepNum == [] {
        multiple := e.Steps?;
      }
      ok := e.Steps? == multiple;
    }

    /** Adds a parsed file. It is refused exactly when its elements are not of one
        kind or a step is faulty; otherwise the loader stands for the streams
        extended by the file. */
    method ParseData(json: seq<Element>) returns (ok: bool)
      requires Valid()
      modifies this
      ensures ok <==> FileOk(inputs, old(stepNum) == [], old(multiple), json)
      ensures ok ==> Valid() && streams == Extended(old(streams), json)
      ensures ok ==> multiple == if old(stepNum) == [] && json != [] then json[0].Steps? else old(multiple)
    {
      streamCount := streamCount + |json|;
      var offset := |stepNum|;
      var i := offset;
      while i < streamCount
        invariant offset <= i <= streamCount == offset + |json| && i == |stepNum|
        invariant Stored() && Sized() && streams == Extended(old(streams), json[..i - offset])
        invariant i == offset ==> stepNum == old(stepNum) && multiple == old(multiple)
        invariant i > offset ==> multiple && (if old(stepNum) == [] then json[0].Steps? else old(multiple))
        invariant forall j :: 0 <= j < i - offset ==> ElementOk(inputs, json[j], true)
      {
        var m := i - offset;
        assert json[..m + 1][..m] == json[..m];
        ok := ValidateParsingMode(json[m]);
        if !ok {
          return;
        }
        if json[m].Object? {
          streamCount := 1;
          ok := ReadFlat(json);
          return;
        }
        ok := ReadStream(json[m].steps);
        if !ok {
          return;
        }
        i := i + 1;
      }
      assert json[..|json|] == json;
      ok := true;
    }

    predicate IndexesOk(s: int, k: int)
      reads this
      requires streamCount <= |stepNum|
    {
      0 <= s < streamCount && 0 <= k < stepNum[s]
    }

    /** The data of an input at a step, straight from the streams: missing data is
        an error only for a mandatory input. */
    method GetInputData(input: Input, s: int, k: int) returns (r: Result<Option<Data>, Failure>)
      requires Valid() && HasName(inputs, input.name)
      ensures r.Ok? && r.value.Some? <==> 0 <= s && 0 <= k && Has(inputs, streams, input.name, s, k)
      ensures r.Ok? && r.value.Some? ==> r.value.value == streams[s][k][input.name].data
      ensures 0 <= s < |streams| && 0 <= k < |streams[s]| ==>
                && (r.Ok? && r.value.Some? <==> input.name in streams[s][k])
                && (input.name in streams[s][k] ==> streams[s][k][input.name] == Bytes(r.value.value))
      ensures IndexesOk(s, k) <==> 0 <= s < |streams| && 0 <= k < |streams[s]|
      ensures r.Err? <==> (inputData != map[] && !IndexesOk(s, k)) || (!input.optional && !(r.Ok? && r.value.Some?))
    {
      var found := None;
      assert 0 <= s && 0 <= k ==> Agrees(inputs, inputData, streams, input.name, s, k);
      assert IndexesOk(s, k) <==> 0 <= s < |streams| && 0 <= k < |streams[s]|;
      if 0 <= s < |streams| && 0 <= k < |streams[s]| {
        ReadableHere(inputs, streams, s, k, input.name);
      }
      if inputData != map[] {
        if !(0 <= s < streamCount && 0 <= k < stepNum[s]) {
          return Err(Failure);
        }
        var key := TensorKey(input.name, s, k);
        if key in inputData {
          found := Some(inputData[key]);
        }
      }
      if !input.optional && found.None? {
        return Err(Failure);
      }
      r := Ok(found);
    }
  }

  /** Loads any number of files in order. They are refused exactly when a single
      file with all their elements would be. */
  method LoadFiles(loader: DataLoader, files: seq<seq<Element>>) returns (ok: bool)
    requires loader.Valid() && loader.streams == []
    modifies loader
    ensures ok <==> FileOk(loader.inputs, true, false, Joined(files))
    ensures ok ==> loader.Valid() && loader.streams == Extended([], Joined(files))
  {
    for i := 0 to |files|
      invariant loader.Valid() && loader.streams == Extended([], Joined(files[..i]))
      invariant FileOk(loader.inputs, true, false, Joined(files[..i]))
      invariant Joined(files[..i]) != [] ==> loader.multiple == Joined(files[..i])[0].Steps?
    {
      var before := Joined(files[..i]);
      assert files[..i + 1][..i] == files[..i];
      ExtendedJoins([], before, files[i]);
      ExtendedEmpty(before);
      FilesJoin(loader.inputs, before, files[i], loader.multiple);
      ok := loader.ParseData(files[i]);
      if !ok {
        JoinedPrefix(loader.inputs, files, i + 1);
        return;
      }
    }
    assert files[..|files|] == files;
    ok := true;
  }

  // ------------------------------------------------- what the streams are

  ghost function Joined(files: seq<seq<Element>>): seq<Element> {
    if files == [] then [] else Joined(files[..|files| - 1]) + files[|files| - 1]
  }

  lemma {:induction false} ExtendedEmpty(json: seq<Element>)
    ensures Extended([], json) == [] <==> json == []
  {
    if json != [] {
      ExtendedEmpty(json[..|json| - 1]);
    }
  }

  /** A file is accepted behind accepted ones if and only if it would be accepted
      as their continuation. */
  lemma FilesJoin(inputs: seq<Input>, a: seq<Element>, b: seq<Element>, multiple: bool)
    requires FileOk(inputs, true, false, a) && (a != [] ==> multiple == a[0].Steps?)
    ensures FileOk(inputs, true, false, a + b) <==> FileOk(inputs, a == [], multiple, b)
  {
    var all := a + b;
    assert forall i :: 0 <= i < |a| ==> all[i] == a[i];
    assert forall i :: 0 <= i < |b| ==> all[|a| + i] == b[i];
    if a != [] {
      assert all[0] == a[0];
    } else {
      assert all == b;
    }
  }

  /** A refused beginning is never made good. */
  lemma {:induction false} JoinedPrefix(inputs: seq<Input>, files: seq<seq<Element>>, n: nat)
    requires n <= |files| && !FileOk(inputs, true, false, Joined(files[..n]))
    ensures !FileOk(inputs, true, false, Joined(files))
    decreases |files| - n
  {
    if n < |files| {
      assert files[..n + 1][..n] == files[..n];
      RefusedPrefix(inputs, Joined(files[..n]), files[n]);
      JoinedPrefix(inputs, files, n + 1);
    } else {
      assert files[..n] == files;
    }
  }

  lemma RefusedPrefix(inputs: seq<Input>, a: seq<Element>, b: seq<Element>)
    requires !FileOk(inputs, true, false, a)
    ensures !FileOk(inputs, true, false, a + b)
  {
    var i :| 0 <= i < |a| && !ElementOk(inputs, a[i], a[0].Steps?);
    assert (a + b)[i] == a[i] && (a + b)[0] == a[0];
  }

  /** Two files in a row are like one file with the elements of both. */
  lemma {:induction false} ExtendedJoins(streams: seq<seq<Step>>, a: seq<Element>, b: seq<Element>)
    ensures Extended(streams, a + b) == Extended(Extended(streams, a), b)
  {
    if b == [] {
      assert a + b == a;
    } else {
      var n := |b| - 1;
      ExtendedJoins(streams, a, b[..n]);
      assert (a + b)[..|a + b| - 1] == a + b[..n];
    }
  }

  function StepsOf(json: seq<Element>): seq<seq<Step>>
    requires forall i :: 0 <= i < |json| ==> json[i].Steps?
  {
    seq(|json|, i requires 0 <= i < |json| => json[i].steps)
  }

  function ObjectsOf(json: seq<Element>): seq<Step>
    requires forall i :: 0 <= i < |json| ==> json[i].Object?
  {
    seq(|json|, i requires 0 <= i < |json| => json[i].step)
  }

  /** Arrays become streams, in order. */
  lemma {:induction false} ArraysAppendStreams(streams: seq<seq<Step>>, json: seq<Element>)
    requires forall i :: 0 <= i < |json| ==> json[i].Steps?
    ensures Extended(streams, json) == streams + StepsOf(json)
  {
    if json != [] {
      ArraysAppendStreams(streams, json[..|json| - 1]);
    }
  }

  /** Objects become the steps of a single stream, in order. */
  lemma {:induction false} ObjectsFillOneStream(json: seq<Element>)
    requires json != [] && forall i :: 0 <= i < |json| ==> json[i].Object?
    ensures Extended([], json) == [ObjectsOf(json)]
  {
    var n := |json| - 1;
    ExtendFlat([], json, n);
    assert json[..|json|] == json;
    if n > 0 {
      ObjectsFillOneStream(json[..n]);
      assert ObjectsOf(json) == ObjectsOf(json[..n]) + [json[n].step];
    } else {
      assert Extended([], json[..0]) == [];
      assert ObjectsOf(json) == [] + [json[0].step];
    }
  }

  /** Every step that ValidateIndexes accepts has data for every mandatory input. */
  lemma MandatoryPresent(inputs: seq<Input>, streams: seq<seq<Step>>, s: nat, k: nat, i: nat)
    requires AllOk(inputs, streams) && s < |streams| && k < |streams[s]| && i < |inputs| && !inputs[i].optional
    ensures Has(inputs, streams, inputs[i].name, s, k)
  {
    assert StepOk(inputs, streams[s][k]);
    assert InputOk(inputs[i], streams[s][k]);
  }
}
