/** The NUL-packed string lists that librados and librbd return, and the pointer loops that read them. */
module NulLists {
  import opened Wrappers
  import opened Bytes

  type Field = Buffer

  datatype Overrun = ReadsPastTheBuffer

  function Pack(fields: seq<Field>): Buffer
  {
    if fields == [] then [] else fields[0] + [0] + Pack(fields[1..])
  }

  /** The fields before the first empty one. */
  function UpToEmpty(fields: seq<Field>): seq<Field>
  {
    if fields == [] || fields[0] == [] then [] else [fields[0]] + UpToEmpty(fields[1..])
  }

  predicate AllNulFree(fields: seq<Field>) { forall i :: 0 <= i < |fields| ==> NulFree(fields[i]) }

  predicate NoneEmpty(fields: seq<Field>) { forall i :: 0 <= i < |fields| ==> fields[i] != [] }

  function Prepend(fields: seq<Field>, r: Result<seq<Field>, Overrun>): Result<seq<Field>, Overrun>
  {
    match r
    case Err(e) => Err(e)
    case Ok(rest) => Ok(fields + rest)
  }

  lemma PrependTwice(a: seq<Field>, b: seq<Field>, r: Result<seq<Field>, Overrun>)
    ensures Prepend(a, Prepend(b, r)) == Prepend(a + b, r) && Prepend([], r) == r
  {
    if r.Ok? {
      assert a + (b + r.value) == (a + b) + r.value;
      assert [] + r.value == r.value;
    }
  }

  /** The scan from `p` on of a list that takes up the first `length` bytes of the memory. */
  function ScanFrom(memory: Buffer, length: nat, p: nat): Result<seq<Field>, Overrun>
    requires length <= |memory| && p <= |memory|
    decreases |memory| - p
  {
    if p >= length || memory[p] == 0 then Ok([])
    else
      var q := NulFrom(memory, p);
      if q == |memory| then Err(ReadsPastTheBuffer) else Prepend([memory[p..q]], ScanFrom(memory, length, q + 1))
  }

  function Scan(memory: Buffer): Result<seq<Field>, Overrun> { ScanFrom(memory, |memory|, 0) }

  /**
   These fields lie in the memory from `p` on: each is not empty, begins before `length` and ends at its NUL,
   wherever that is; and behind the last the list is at its end or holds an empty field.
   */
  predicate Reads(memory: Buffer, length: nat, p: nat, fields: seq<Field>)
    requires length <= |memory| && p <= |memory|
    decreases |fields|
  {
    if fields == [] then p >= length || memory[p] == 0
    else
      var q := p + |fields[0]|;
      && p < length && p < q < |memory| && memory[p..q] == fields[0] && NulFree(fields[0]) && memory[q] == 0
      && Reads(memory, length, q + 1, fields[1..])
  }

  lemma FirstRead(memory: Buffer, length: nat, p: nat, fields: seq<Field>)
    requires length <= |memory| && p <= |memory| && fields != [] && Reads(memory, length, p, fields)
    ensures NulFrom(memory, p) == p + |fields[0]| && memory[p] != 0
  {
    var q := p + |fields[0]|;
    assert forall i :: p <= i < q ==> memory[i] == memory[p..q][i - p];
    NulFromUnique(memory, p, q);
  }

  lemma {:induction false} ReadsScan(memory: Buffer, length: nat, p: nat, fields: seq<Field>)
    requires length <= |memory| && p <= |memory| && Reads(memory, length, p, fields)
    ensures ScanFrom(memory, length, p) == Ok(fields)
    decreases |fields|
  {
    if fields != [] {
      FirstRead(memory, length, p, fields);
      ReadsScan(memory, length, p + |fields[0]| + 1, fields[1..]);
      assert fields == [fields[0]] + fields[1..];
    }
  }

  lemma {:induction false} ScanIsRead(memory: Buffer, length: nat, p: nat)
    requires length <= |memory| && p <= |memory| && ScanFrom(memory, length, p).Ok?
    ensures Reads(memory, length, p, ScanFrom(memory, length, p).value)
    decreases |memory| - p
  {
    if p < length && memory[p] != 0 {
      var q := NulFrom(memory, p);
      var rest := ScanFrom(memory, length, q + 1).value;
      ScanIsRead(memory, length, q + 1);
      assert ([memory[p..q]] + rest)[1..] == rest;
    }
  }

  /** What the scan returns, exactly, for a list of any length in any buffer. */
  lemma ScanReads(memory: Buffer, length: nat, p: nat, fields: seq<Field>)
    requires length <= |memory| && p <= |memory|
    ensures ScanFrom(memory, length, p) == Ok(fields) <==> Reads(memory, length, p, fields)
  {
    if Reads(memory, length, p, fields) {
      ReadsScan(memory, length, p, fields);
    } else if ScanFrom(memory, length, p) == Ok(fields) {
      ScanIsRead(memory, length, p);
    }
  }

  /** The C string at `p`; None when `strlen` would leave the buffer. */
  method ReadString(memory: array<Byte>, p: nat) returns (s: Option<Field>)
    requires p <= memory.Length
    ensures var q := NulFrom(memory[..], p);
            s == if q == memory.Length then None else Some(memory[..][p..q])
  {
    var i := p;
    while i < memory.Length && memory[i] != 0
      invariant p <= i <= memory.Length
      invariant NulFrom(memory[..], p) == NulFrom(memory[..], i)
    {
      i := i + 1;
    }
    s := if i == memory.Length then None else Some(memory[p..i]);
  }

  /** The scan with its next field read. */
  lemma ScanOn(memory: Buffer, length: nat, p: nat, out: seq<Field>)
    requires p < length <= |memory| && memory[p] != 0
    ensures var q := NulFrom(memory, p);
            Prepend(out, ScanFrom(memory, length, p)) ==
            if q == |memory| then Err(ReadsPastTheBuffer)
            else Prepend(out + [memory[p..q]], ScanFrom(memory, length, q + 1))
  {
    var q := NulFrom(memory, p);
    if q < |memory| {
      PrependTwice(out, [memory[p..q]], ScanFrom(memory, length, q + 1));
    }
  }

  /** `nul_strings`; the loop of `Pools` is the same. */
  method NulStrings(memory: array<Byte>, length: nat) returns (r: Result<seq<Field>, Overrun>)
    requires length <= memory.Length
    ensures r == ScanFrom(memory[..], length, 0)
  {
    ghost var bytes := memory[..];
    var out: seq<Field> := [];
    var p := 0;
    PrependTwice([], [], ScanFrom(bytes, length, 0));
    while p < length && memory[p] != 0
      invariant p <= memory.Length
      invariant ScanFrom(bytes, length, 0) == Prepend(out, ScanFrom(bytes, length, p))
      decreases memory.Length - p
    {
      ScanOn(bytes, length, p, out);
      var s := ReadString(memory, p);
      if s.None? {
        return Err(ReadsPastTheBuffer);
      }
      out := out + [s.value];
      p := p + |s.value| + 1;
    }
    assert out + [] == out;
    r := Ok(out);
  }

  // ---------------------------------------------------------------- packed lists

  /** Scanning from `p + r` is scanning the buffer behind `p` from `r`. */
  lemma {:induction false} ScanShift(memory: Buffer, p: nat, r: nat)
    requires p + r <= |memory|
    ensures ScanFrom(memory, |memory|, p + r) == ScanFrom(memory[p..], |memory| - p, r)
    decreases |memory| - r
  {
    var behind := memory[p..];
    if p + r < |memory| && memory[p + r] != 0 {
      var q := NulFrom(memory, p + r);
      NulFromUnique(behind, r, q - p);
      assert behind[r..q - p] == memory[p + r..q];
      if q < |memory| {
        ScanShift(memory, p, q - p + 1);
      }
    }
  }

  /** A terminated field at the start of a buffer. */
  lemma FirstField(field: Field, rest: Buffer)
    requires NulFree(field)
    ensures var memory := field + [0] + rest;
            NulFrom(memory, 0) == |field| && memory[..|field|] == field && memory[|field| + 1..] == rest
  {
    NulFromUnique(field + [0] + rest, 0, |field|);
  }

  lemma ScanFirst(field: Field, rest: Buffer)
    requires NulFree(field)
    ensures Scan(field + [0] + rest) == if field == [] then Ok([]) else Prepend([field], Scan(rest))
  {
    var memory := field + [0] + rest;
    FirstField(field, rest);
    if field != [] {
      ScanShift(memory, |field| + 1, 0);
    }
  }

  lemma ScanTail(tail: Buffer)
    requires NulFree(tail)
    ensures Scan(tail) == if tail == [] then Ok([]) else Err(ReadsPastTheBuffer)
  {
    NulFromUnique(tail, 0, |tail|);
  }

  lemma PackFirst(fields: seq<Field>, tail: Buffer)
    requires fields != []
    ensures Pack(fields) + tail == fields[0] + [0] + (Pack(fields[1..]) + tail)
  {
  }

  lemma UpToEmptyStep(fields: seq<Field>)
    requires fields != []
    ensures UpToEmpty(fields) == fields <==> fields[0] != [] && UpToEmpty(fields[1..]) == fields[1..]
  {
    assert fields == [fields[0]] + fields[1..];
    if fields[0] != [] {
      assert UpToEmpty(fields)[1..] == UpToEmpty(fields[1..]);
    }
  }

  /** What the scan of these fields and this unterminated tail comes to. */
  function Outcome(fields: seq<Field>, tail: Buffer): Result<seq<Field>, Overrun>
  {
    if tail == [] || UpToEmpty(fields) != fields then Ok(UpToEmpty(fields)) else Err(ReadsPastTheBuffer)
  }

  lemma OutcomeStep(fields: seq<Field>, tail: Buffer)
    requires fields != []
    ensures Outcome(fields, tail) ==
            if fields[0] == [] then Ok([]) else Prepend([fields[0]], Outcome(fields[1..], tail))
  {
    UpToEmptyStep(fields);
  }

  lemma {:induction false} PackedOutcome(fields: seq<Field>, tail: Buffer)
    requires AllNulFree(fields) && NulFree(tail)
    ensures Scan(Pack(fields) + tail) == Outcome(fields, tail)
  {
    if fields == [] {
      assert [] + tail == tail;
      ScanTail(tail);
    } else {
      PackFirst(fields, tail);
      ScanFirst(fields[0], Pack(fields[1..]) + tail);
      PackedOutcome(fields[1..], tail);
      OutcomeStep(fields, tail);
    }
  }

  /**
   The scan of any buffer, read from `p` on as terminated fields and an unterminated tail: it returns
   the fields before the first empty one, and leaves the buffer exactly if there is no empty field
   but a tail.
   */
  lemma ScanPackedFrom(memory: Buffer, p: nat, fields: seq<Field>, tail: Buffer)
    requires AllNulFree(fields) && NulFree(tail)
    requires p <= |memory| && memory[p..] == Pack(fields) + tail
    ensures ScanFrom(memory, |memory|, p) ==
            if tail == [] || UpToEmpty(fields) != fields then Ok(UpToEmpty(fields)) else Err(ReadsPastTheBuffer)
  {
    ScanShift(memory, p, 0);
    PackedOutcome(fields, tail);
  }

  lemma {:induction false} UpToEmptyWhole(fields: seq<Field>)
    ensures UpToEmpty(fields) == fields <==> NoneEmpty(fields)
    ensures UpToEmpty(fields) <= fields && NoneEmpty(UpToEmpty(fields))
    ensures |UpToEmpty(fields)| < |fields| ==> fields[|UpToEmpty(fields)|] == []
  {
    if fields != [] {
      UpToEmptyWhole(fields[1..]);
      assert fields == [fields[0]] + fields[1..];
      if fields[0] != [] && UpToEmpty(fields) == fields {
        assert UpToEmpty(fields[1..]) == UpToEmpty(fields)[1..];
      }
    }
  }

  /** A list has one packing only. */
  lemma {:induction false} PackInjective(f: seq<Field>, g: seq<Field>)
    requires AllNulFree(f) && AllNulFree(g) && Pack(f) == Pack(g)
    ensures f == g
    decreases |f|
  {
    if f != [] && g != [] {
      FirstField(f[0], Pack(f[1..]));
      FirstField(g[0], Pack(g[1..]));
      PackInjective(f[1..], g[1..]);
      assert f == [f[0]] + f[1..] && g == [g[0]] + g[1..];
    }
  }

  /** Parsing is exact: a packed list reads back as its longest prefix without an empty string, inside the buffer. */
  lemma ScanPack(fields: seq<Field>)
    requires AllNulFree(fields)
    ensures Scan(Pack(fields)) == Ok(UpToEmpty(fields))
  {
    assert Pack(fields) + [] == Pack(fields);
    PackedOutcome(fields, []);
  }

  /** So the whole list comes back exactly if it has no empty string. */
  lemma ScanPackWhole(fields: seq<Field>)
    requires AllNulFree(fields)
    ensures Scan(Pack(fields)) == Ok(fields) <==> NoneEmpty(fields)
  {
    ScanPack(fields);
    UpToEmptyWhole(fields);
  }

  /** An empty field begins behind `p` and before `length`. */
  predicate DoubleNul(memory: Buffer, length: nat, p: nat)
    requires length <= |memory|
  {
    exists i :: p <= i < length - 1 && memory[i] == 0 == memory[i + 1]
  }

  /** Some NUL ends the field that the last byte of the list belongs to. */
  predicate Terminated(memory: Buffer, length: nat)
    requires length <= |memory|
  {
    exists j :: 0 <= j < |memory| && length - 1 <= j && memory[j] == 0
  }

  /** From `p` on, the list is at its end, holds an empty field, or its last field is terminated inside the buffer. */
  predicate Safe(memory: Buffer, length: nat, p: nat)
    requires length <= |memory| && p <= |memory|
  {
    p >= length || memory[p] == 0 || DoubleNul(memory, length, p) || Terminated(memory, length)
  }

  lemma SafeAfterField(memory: Buffer, length: nat, p: nat, q: nat)
    requires length <= |memory| && p < length && p < q < |memory| && q == NulFrom(memory, p)
    ensures Safe(memory, length, p) <==> Safe(memory, length, q + 1)
  {
    if length <= q + 1 {
      assert memory[q] == 0 && Terminated(memory, length);
    } else {
      if DoubleNul(memory, length, p) {
        var i :| p <= i < length - 1 && memory[i] == 0 == memory[i + 1];
        assert i >= q;
      }
      if memory[q + 1] == 0 {
        assert memory[q] == 0 == memory[q + 1];
      }
    }
  }

  /** Exactly when the scan of a list of any length stays inside its buffer: a test of the buffer's bytes. */
  lemma {:induction false} ScanSafeIff(memory: Buffer, length: nat, p: nat)
    requires length <= |memory| && p <= |memory|
    ensures ScanFrom(memory, length, p).Ok? <==> Safe(memory, length, p)
    decreases |memory| - p
  {
    if p < length && memory[p] != 0 {
      var q := NulFrom(memory, p);
      if q < |memory| {
        SafeAfterField(memory, length, p, q);
        ScanSafeIff(memory, length, q + 1);
      }
    }
  }

  /** Whatever is scanned, the strings that come out are non-empty and NUL-free. */
  lemma {:induction false} ScannedFields(memory: Buffer, length: nat, p: nat)
    requires length <= |memory| && p <= |memory| && ScanFrom(memory, length, p).Ok?
    ensures AllNulFree(ScanFrom(memory, length, p).value) && NoneEmpty(ScanFrom(memory, length, p).value)
    decreases |memory| - p
  {
    if p < length && memory[p] != 0 {
      ScannedFields(memory, length, NulFrom(memory, p) + 1);
    }
  }

  /** What lies behind a terminated list is never read. */
  lemma {:induction false} SlackIgnored(memory: Buffer, length: nat, p: nat)
    requires 0 < length <= |memory| && memory[length - 1] == 0 && p <= length
    ensures ScanFrom(memory, length, p) == ScanFrom(memory[..length], length, p) && ScanFrom(memory, length, p).Ok?
    decreases |memory| - p
  {
    var list := memory[..length];
    if p < length && memory[p] != 0 {
      var q := NulFrom(memory, p);
      assert q < length;
      NulFromUnique(list, p, q);
      assert list[p..q] == memory[p..q];
      SlackIgnored(memory, length, q + 1);
    }
  }

  // ---------------------------------------------------------------- MetadataList

  function Min(a: nat, b: nat): (m: nat)
    ensures m <= a && m <= b && (m == a || m == b)
  {
    if a <= b then a else b
  }

  /** Each pair is a key with the value at its position, and there are as many as the shorter list has. */
  predicate Zips(keys: seq<Field>, values: seq<Field>, pairs: seq<(Field, Field)>)
  {
    && |pairs| == Min(|keys|, |values|)
    && forall i :: 0 <= i < |pairs| ==> pairs[i].0 == keys[i] && pairs[i].1 == values[i]
  }

  /** The second half of `MetadataList`: scan the reported lengths of both buffers and pair what they hold. */
  method PairUp(keys: array<Byte>, kl: nat, values: array<Byte>, vl: nat)
    returns (r: Result<seq<(Field, Field)>, Overrun>)
    requires kl <= keys.Length && vl <= values.Length
    ensures var ks, vs := ScanFrom(keys[..], kl, 0), ScanFrom(values[..], vl, 0);
            && (r.Ok? <==> ks.Ok? && vs.Ok?)
            && (r.Ok? ==>
                  && |r.value| == Min(|ks.value|, |vs.value|)
                  && forall i :: 0 <= i < |r.value| ==> r.value[i].0 == ks.value[i] && r.value[i].1 == vs.value[i])
  {
    var ks := NulStrings(keys, kl);
    var vs := NulStrings(values, vl);
    if ks.Err? || vs.Err? {
      return Err(ReadsPastTheBuffer);
    }
    var out: seq<(Field, Field)> := [];
    var i := 0;
    while i < |ks.value| && i < |vs.value|
      invariant |out| == i <= |ks.value| && i <= |vs.value|
      invariant forall k :: 0 <= k < i ==> out[k].0 == ks.value[k] && out[k].1 == vs.value[k]
    {
      out := out + [(ks.value[i], vs.value[i])];
      i := i + 1;
    }
    r := Ok(out);
  }

  /** How many pairs come before the first with an empty key or an empty value. */
  function FullPairs(keys: seq<Field>, values: seq<Field>): (n: nat)
    requires |keys| == |values|
    ensures n <= |keys|
    ensures forall i :: 0 <= i < n ==> keys[i] != [] && values[i] != []
    ensures n < |keys| ==> keys[n] == [] || values[n] == []
  {
    if keys == [] || keys[0] == [] || values[0] == [] then 0 else 1 + FullPairs(keys[1..], values[1..])
  }

  /** A list at the start of a larger buffer is scanned as if it were alone. */
  lemma ScanPackAt(memory: Buffer, fields: seq<Field>)
    requires AllNulFree(fields) && Pack(fields) <= memory
    ensures ScanFrom(memory, |Pack(fields)|, 0) == Ok(UpToEmpty(fields))
  {
    if fields != [] {
      var list := Pack(fields);
      PackEndsInNul(fields);
      ScanPack(fields);
      SlackIgnored(memory, |list|, 0);
      assert memory[..|list|] == list;
    }
  }

  lemma {:induction false} PackEndsInNul(fields: seq<Field>)
    requires fields != []
    ensures Pack(fields) != [] && Pack(fields)[|Pack(fields)| - 1] == 0
  {
    if |fields| > 1 {
      PackEndsInNul(fields[1..]);
    }
  }

  /**
   The metadata that comes back, from lists that may be shorter than their buffers: whatever pairs the two
   scans position by position has exactly the pairs before the first empty key or value, each key with its
   own value.
   */
  lemma MetadataPrefix(keyMemory: Buffer, keys: seq<Field>, valueMemory: Buffer, values: seq<Field>,
                       pairs: seq<(Field, Field)>)
    requires |keys| == |values| && AllNulFree(keys) && AllNulFree(values)
    requires Pack(keys) <= keyMemory && Pack(values) <= valueMemory
    ensures var ks, vs := ScanFrom(keyMemory, |Pack(keys)|, 0), ScanFrom(valueMemory, |Pack(values)|, 0);
            && ks.Ok? && vs.Ok?
            && (Zips(ks.value, vs.value, pairs) <==>
                  && |pairs| == FullPairs(keys, values)
                  && forall i :: 0 <= i < |pairs| ==> pairs[i].0 == keys[i] && pairs[i].1 == values[i])
  {
    ScanPackAt(keyMemory, keys);
    ScanPackAt(valueMemory, values);
    UpToEmptyWhole(keys);
    UpToEmptyWhole(values);
    var n := Min(|UpToEmpty(keys)|, |UpToEmpty(values)|);
    assert forall i :: 0 <= i < n ==> UpToEmpty(keys)[i] == keys[i] && UpToEmpty(values)[i] == values[i];
    assert n == FullPairs(keys, values);
  }
}
