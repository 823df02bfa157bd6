/** The two kinds of string key the program builds out of numbers: the id under
    which an asynchronous request is kept in flight, and the
    "name_stream_step" key under which the data loader files a tensor. */
module RequestKeys {
  import opened Basics

  const THREAD_SHIFT: nat := 0x1_0000_0000_0000  // 2^48
  const MAX_THREADS: nat := 0x1_0000             // 2^16

  /** The digits '0'..'9'. */
  function Digit(d: nat): (c: char)
    requires d < 10
    ensures '0' <= c <= '9'
    ensures c as int == '0' as int + d
  {
    '0' + d as char
  }

  /** std::to_string on an unsigned value. */
  function Decimal(n: nat): (s: string)
    ensures |s| > 0
    ensures forall i :: 0 <= i < |s| ==> '0' <= s[i] <= '9'
  {
    if n < 10 then [Digit(n)] else Decimal(n / 10) + [Digit(n % 10)]
  }

  /** The inverse of Decimal: reads a non-empty string of digits. */
  function ParseDecimal(s: string): (n: nat)
    requires forall i :: 0 <= i < |s| ==> '0' <= s[i] <= '9'
  {
    if s == [] then 0
    else 10 * ParseDecimal(s[..|s| - 1]) + (s[|s| - 1] as int - '0' as int)
  }

  lemma {:induction false} DecimalRoundTrip(n: nat)
    ensures ParseDecimal(Decimal(n)) == n
  {
    if n < 10 {
      assert Decimal(n)[..0] == [];
    } else {
      DecimalRoundTrip(n / 10);
      var s := Decimal(n);
      assert s[..|s| - 1] == Decimal(n / 10);
      assert s[|s| - 1] == Digit(n % 10);
    }
  }

  lemma DecimalInjective(a: nat, b: nat)
    requires Decimal(a) == Decimal(b)
    ensures a == b
  {
    DecimalRoundTrip(a);
    DecimalRoundTrip(b);
  }

  /** (thread_id << 48) | ((request_id << 16) >> 16) in 64-bit arithmetic. The
      two halves occupy disjoint bits, so the bitwise or is a sum. */
  function PackId(thread: nat, request: nat): nat {
    (thread * THREAD_SHIFT) % UINT64 + request % THREAD_SHIFT
  }

  /** The packed id fits 64 bits and both halves can be read back, each reduced
      to the width it was given. */
  lemma PackIdRoundTrip(thread: nat, request: nat)
    ensures PackId(thread, request) < UINT64
    ensures PackId(thread, request) / THREAD_SHIFT == thread % MAX_THREADS
    ensures PackId(thread, request) % THREAD_SHIFT == request % THREAD_SHIFT
  {
    var q, t := thread / MAX_THREADS, thread % MAX_THREADS;
    assert thread * THREAD_SHIFT == q * UINT64 + t * THREAD_SHIFT;
    assert (thread * THREAD_SHIFT) % UINT64 == t * THREAD_SHIFT;
  }

  /** The key of a request in async_req_map_. */
  function RequestKey(thread: nat, request: nat): string {
    Decimal(PackId(thread, request))
  }

  /** Two requests share a key exactly when they agree on the low 16 bits of the
      thread id and the low 48 bits of the request id. */
  lemma RequestKeyInjective(t: nat, r: nat, t': nat, r': nat)
    ensures RequestKey(t, r) == RequestKey(t', r') <==>
            t % MAX_THREADS == t' % MAX_THREADS && r % THREAD_SHIFT == r' % THREAD_SHIFT
  {
    PackIdRoundTrip(t, r);
    PackIdRoundTrip(t', r');
    if RequestKey(t, r) == RequestKey(t', r') {
      DecimalInjective(PackId(t, r), PackId(t', r'));
    }
  }

  /** The key of one tensor in the data loader's maps. */
  function TensorKey(name: string, stream: nat, step: nat): string {
    name + "_" + Decimal(stream) + "_" + Decimal(step)
  }

  ghost predicate NoSeparator(s: string) {
    forall i :: 0 <= i < |s| ==> s[i] != '_'
  }

  /** A suffix without the separator is determined by the whole string, whatever
      the prefix contains. */
  lemma SplitAtLastSeparator(a: string, d: string, b: string, e: string)
    requires NoSeparator(d) && NoSeparator(e)
    requires a + "_" + d == b + "_" + e
    ensures a == b && d == e
  {
    var s := a + "_" + d;
    assert s[|s| - 1 - |d|] == '_';
    assert (b + "_" + e)[|s| - 1 - |e|] == '_';
    assert |d| == |e|;
    assert a == s[..|a|] == b;
    assert d == s[|a| + 1..] == e;
  }

  /** Names may themselves contain separators and digits: the key still
      identifies name, stream and step. */
  lemma TensorKeyInjective(name: string, stream: nat, step: nat, name': string, stream': nat, step': nat)
    requires TensorKey(name, stream, step) == TensorKey(name', stream', step')
    ensures name == name' && stream == stream' && step == step'
  {
    SplitAtLastSeparator(name + "_" + Decimal(stream), Decimal(step),
                         name' + "_" + Decimal(stream'), Decimal(step'));
    SplitAtLastSeparator(name, Decimal(stream), name', Decimal(stream'));
    DecimalInjective(stream, stream');
    DecimalInjective(step, step');
  }
}
