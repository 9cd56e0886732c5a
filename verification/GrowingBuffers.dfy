/**
 The three loops that look a value up with a buffer of a guessed size and retry with a larger one.

 The library call is a method over the buffer it fills, and its contract is an assumption: it answers
 "too small" only when the buffer is too small, and what it stores does not change between attempts.
 */
module GrowingBuffers {
  import opened Wrappers
  import opened Handles
  import opened Bytes

  const ENAMETOOLONG := 36
  const ERANGE := 34
  const XATTR_LIMIT := 64 * 1024 * 1024
  const SIZE_LIMIT: nat := 0x1_0000_0000_0000_0000

  /** What the library would find under a key, or the error it would give whatever the buffer. */
  datatype Stored = Value(bytes: Buffer) | Missing(code: int)

  function Doubled(base: nat, k: nat): (n: nat)
    ensures base > 0 ==> n > 0
  {
    if k == 0 then base else 2 * Doubled(base, k - 1)
  }

  lemma {:induction false} DoubledGrows(base: nat, j: nat, k: nat)
    requires j <= k && base > 0
    ensures Doubled(base, j) + (k - j) <= Doubled(base, k)
  {
    if j < k {
      DoubledGrows(base, j, k - 1);
    }
  }

  /** `k` is the first attempt whose buffer holds `needed` bytes. */
  predicate FirstFit(base: nat, k: nat, needed: nat)
  {
    needed <= Doubled(base, k) && (k > 0 ==> Doubled(base, k - 1) < needed)
  }

  /** The last of these attempts, and so each of them, was too small. */
  predicate TooSmall(base: nat, attempts: nat, needed: nat) { attempts > 0 && Doubled(base, attempts - 1) < needed }

  /** All earlier attempts were too small, so there is only one first fit. */
  lemma FirstFitUnique(base: nat, j: nat, k: nat, needed: nat)
    requires base > 0 && FirstFit(base, j, needed) && FirstFit(base, k, needed)
    ensures j == k
  {
    if j < k {
      DoubledGrows(base, j, k - 1);
    } else if k < j {
      DoubledGrows(base, k, j - 1);
    }
  }

  /** Lay `bytes` down at the start of the buffer. */
  method Fill(buffer: array<Byte>, bytes: Buffer)
    requires |bytes| <= buffer.Length
    modifies buffer
    ensures buffer[..|bytes|] == bytes && buffer[|bytes|..] == old(buffer[|bytes|..])
  {
    for i := 0 to |bytes|
      invariant buffer[..i] == bytes[..i] && buffer[|bytes|..] == old(buffer[|bytes|..])
    {
      buffer[i] := bytes[i];
    }
  }

  // ---------------------------------------------------------------- ConfigGet

  /** `rados_conf_get` on the stored `s`. */
  method ConfGet(s: Stored, buffer: array<Byte>) returns (rc: int)
    requires s.Missing? ==> s.code < 0 && s.code != -ENAMETOOLONG
    modifies buffer
    ensures s.Missing? ==> rc == s.code
    ensures s.Value? ==> rc == if |s.bytes| < buffer.Length then 0 else -ENAMETOOLONG
    ensures rc == 0 ==> |s.bytes| < buffer.Length && buffer[..|s.bytes|] == s.bytes && buffer[|s.bytes|] == 0
  {
    match s
    case Missing(code) => rc := code;
    case Value(bytes) =>
      if |bytes| < buffer.Length {
        Fill(buffer, bytes);
        buffer[|bytes|] := 0;
        rc := 0;
      } else {
        rc := -ENAMETOOLONG;
      }
  }

  /** `ConfigGet`: `open(k)` says whether the `use` of attempt `k` finds the cluster handle open. */
  method ConfigGet(s: Stored, open: nat -> bool) returns (r: Result<Buffer, CallError>, attempts: nat)
    requires s.Missing? ==> s.code < 0 && s.code != -ENAMETOOLONG
    requires s.Value? ==> |s.bytes| < SIZE_LIMIT / 2
    ensures forall k :: 0 <= k < attempts ==> open(k)
    ensures r == Err(Thrown(ResourceIsClosed)) ==>
              !open(attempts) && (attempts == 0 || (s.Value? && TooSmall(256, attempts, |s.bytes| + 1)))
    ensures r != Err(Thrown(ResourceIsClosed)) && s.Missing? ==> r == Err(Ceph(s.code)) && attempts == 1
    ensures r != Err(Thrown(ResourceIsClosed)) && s.Value? ==>
              r.Ok? && CString(s.bytes, r.value) && attempts > 0 && FirstFit(256, attempts - 1, |s.bytes| + 1)
  {
    attempts := 0;
    var size := 256;
    var rc := 0;
    var buffer := new Byte[size](_ => 0);
    while true
      invariant buffer.Length == size == Doubled(256, attempts) && fresh(buffer)
      invariant forall k :: 0 <= k < attempts ==> open(k)
      invariant attempts > 0 ==> s.Value? && TooSmall(256, attempts, |s.bytes| + 1)
      decreases if s.Value? then |s.bytes| + 1 - size else 0
    {
      if !open(attempts) {
        return Err(Thrown(ResourceIsClosed)), attempts;
      }
      rc := ConfGet(s, buffer);
      attempts := attempts + 1;
      if rc != -ENAMETOOLONG {
        break;
      }
      assert size * 2 < SIZE_LIMIT;
      size := size * 2;
      buffer := new Byte[size](_ => 0);
    }
    if rc < 0 {
      return Err(Ceph(rc)), attempts;
    }
    CutTerminated(buffer[..], s.bytes, size);
    assert buffer[..][..size] == buffer[..];
    r := Ok(Cut(buffer[..]));
  }

  // ---------------------------------------------------------------- GetXattr

  /** `rados_getxattr` on the stored `s`. */
  method XattrGet(s: Stored, buffer: array<Byte>) returns (rc: int)
    requires s.Missing? ==> s.code < 0
    modifies buffer
    ensures s.Missing? ==> rc == s.code
    ensures s.Value? ==> rc == if |s.bytes| <= buffer.Length then |s.bytes| else -ERANGE
    ensures s.Value? && rc >= 0 ==> buffer[..|s.bytes|] == s.bytes
  {
    match s
    case Missing(code) => rc := code;
    case Value(bytes) =>
      if |bytes| <= buffer.Length {
        Fill(buffer, bytes);
        rc := |bytes|;
      } else {
        rc := -ERANGE;
      }
  }

  lemma XattrSizes()
    ensures Doubled(4096, 14) == XATTR_LIMIT
  {
    assert Doubled(4096, 4) == 65536;
    assert Doubled(4096, 8) == 1048576;
    assert Doubled(4096, 12) == 16777216;
  }

  /** Attempts are numbered from 0 to 14. */
  lemma WithinLimit(k: nat)
    ensures Doubled(4096, k) <= XATTR_LIMIT <==> k <= 14
    ensures Doubled(4096, k) == XATTR_LIMIT <==> k == 14
  {
    XattrSizes();
    if k < 14 {
      DoubledGrows(4096, k, 14);
    } else {
      DoubledGrows(4096, 14, k);
    }
  }

  /** The first `attempts` attempts have all answered that the buffer is too small. */
  predicate XattrRefused(s: Stored, attempts: nat)
  {
    attempts > 0 ==> if s.Value? then TooSmall(4096, attempts, |s.bytes|) else s.code == -ERANGE
  }

  /** The answer `rc` of attempt `k` ends the loop. */
  predicate XattrSettled(s: Stored, k: nat, rc: int)
  {
    match s
    case Missing(code) => rc == code && (if code == -ERANGE then k == 14 else k == 0)
    case Value(bytes) =>
      if |bytes| <= XATTR_LIMIT then rc == |bytes| && FirstFit(4096, k, |bytes|) else rc == -ERANGE && k == 14
  }

  lemma XattrAnswer(s: Stored, k: nat, rc: int)
    requires Doubled(4096, k) <= XATTR_LIMIT && XattrRefused(s, k)
    requires match s
             case Missing(code) => code < 0 && rc == code
             case Value(bytes) => rc == if |bytes| <= Doubled(4096, k) then |bytes| else -ERANGE
    ensures k <= 14 && Doubled(4096, k + 1) == 2 * Doubled(4096, k)
    ensures if rc == -ERANGE && Doubled(4096, k + 1) <= XATTR_LIMIT then XattrRefused(s, k + 1)
            else XattrSettled(s, k, rc)
  {
    WithinLimit(k);
    WithinLimit(k + 1);
  }

  /** The body of the loop of `GetXattr`, with the handle open. */
  method XattrAttempt(s: Stored, size: nat) returns (rc: int, value: Buffer)
    requires s.Missing? ==> s.code < 0
    ensures rc == (match s case Missing(code) => code case Value(bytes) => if |bytes| <= size then |bytes| else -ERANGE)
    ensures rc >= 0 ==> s.Value? && value == s.bytes
  {
    var buffer := new Byte[size](_ => 0);
    rc := XattrGet(s, buffer);
    value := if rc >= 0 then buffer[..rc] else [];
  }

  /** `GetXattr`: the value up to and including 64 MiB, in at most 15 attempts. */
  method GetXattr(s: Stored, open: nat -> bool) returns (r: Result<Buffer, CallError>, attempts: nat)
    requires s.Missing? ==> s.code < 0
    ensures attempts <= 15 && forall k :: 0 <= k < attempts ==> open(k)
    ensures r == Err(Thrown(ResourceIsClosed)) ==>
              && !open(attempts)
              && (attempts == 0 || (if s.Value? then TooSmall(4096, attempts, |s.bytes|) else s.code == -ERANGE))
    ensures r != Err(Thrown(ResourceIsClosed)) && s.Value? ==>
              if |s.bytes| <= XATTR_LIMIT then
                r == Ok(s.bytes) && attempts > 0 && FirstFit(4096, attempts - 1, |s.bytes|)
              else r == Err(Ceph(-ERANGE)) && attempts == 15
    ensures r != Err(Thrown(ResourceIsClosed)) && s.Missing? ==>
              r == Err(Ceph(s.code)) && attempts == if s.code == -ERANGE then 15 else 1
  {
    attempts := 0;
    var size := 4096;
    var value: Buffer := [];
    var rc := 0;
    XattrSizes();
    while true
      invariant size == Doubled(4096, attempts) <= XATTR_LIMIT
      invariant forall k :: 0 <= k < attempts ==> open(k)
      invariant XattrRefused(s, attempts)
      decreases XATTR_LIMIT - size
    {
      if !open(attempts) {
        WithinLimit(attempts);
        return Err(Thrown(ResourceIsClosed)), attempts;
      }
      rc, value := XattrAttempt(s, size);
      XattrAnswer(s, attempts, rc);
      size := size * 2;
      attempts := attempts + 1;
      if !(rc == -ERANGE && size <= XATTR_LIMIT) {
        break;
      }
    }
    r := if rc >= 0 then Ok(value) else Err(Ceph(rc));
  }

  // ---------------------------------------------------------------- MetadataGet

  /**
   `rbd_metadata_get` on the stored `s`: `report` is the size it writes back when the buffer is too
   small, right or wrong, and `end` what it writes back on success.
   */
  method MetaGet(s: Stored, buffer: array<Byte>, report: nat, end: nat) returns (rc: int, actual: nat)
    requires s.Missing? ==> s.code < 0 && s.code != -ERANGE
    requires s.Value? && |s.bytes| < buffer.Length ==> |s.bytes| <= end <= buffer.Length
    modifies buffer
    ensures s.Missing? ==> rc == s.code
    ensures s.Value? ==> rc == if |s.bytes| < buffer.Length then 0 else -ERANGE
    ensures s.Value? && rc == 0 ==>
              |s.bytes| < buffer.Length && buffer[..|s.bytes|] == s.bytes && buffer[|s.bytes|] == 0 && actual == end
    ensures rc == -ERANGE ==> actual == report
  {
    match s
    case Missing(code) => rc, actual := code, buffer.Length;
    case Value(bytes) =>
      if |bytes| < buffer.Length {
        Fill(buffer, bytes);
        buffer[|bytes|] := 0;
        rc, actual := 0, end;
      } else {
        rc, actual := -ERANGE, report;
      }
  }

  /** None of these sizes holds `needed` bytes. */
  predicate AllSmall(sizes: seq<nat>, needed: nat) { forall i :: 0 <= i < |sizes| ==> sizes[i] < needed }

  /** Each size but the first is what the library reported at the one before, or else twice that one. */
  predicate Tried(sizes: seq<nat>, report: nat -> nat)
  {
    forall i :: 0 < i < |sizes| ==>
      sizes[i] == if report(sizes[i - 1]) > sizes[i - 1] then report(sizes[i - 1]) else 2 * sizes[i - 1]
  }

  /** One more attempt was too small. */
  lemma TriedOn(small: seq<nat>, size: nat, report: nat -> nat, next: nat, needed: nat)
    requires Tried(small + [size], report) && AllSmall(small, needed) && size < needed
    requires next == if report(size) > size then report(size) else 2 * size
    ensures Tried(small + [size] + [next], report) && AllSmall(small + [size], needed)
  {
    var sizes, more := small + [size], small + [size] + [next];
    assert forall i :: 0 <= i < |sizes| ==> more[i] == sizes[i];
  }

  /** The sizes grow strictly, whatever the library reports. */
  lemma {:induction false} TriedGrows(sizes: seq<nat>, report: nat -> nat, i: nat, j: nat)
    requires Tried(sizes, report) && i < j < |sizes| && sizes[0] > 0
    ensures 0 < sizes[i] < sizes[j]
    decreases j
  {
    if i > 0 {
      TriedGrows(sizes, report, 0, i);
    }
    if i < j - 1 {
      TriedGrows(sizes, report, i, j - 1);
    }
  }

  /** The library reports the size that is needed, whatever it was given. */
  ghost predicate Reports(report: nat -> nat, needed: nat) { forall n :: report(n) == needed }

  /** The body of the loop of `MetadataGet`, with the handle open. */
  method MetadataAttempt(s: Stored, size: nat, report: nat, end: nat) returns (rc: int, actual: nat, value: Buffer)
    requires s.Missing? ==> s.code < 0 && s.code != -ERANGE
    requires s.Value? && |s.bytes| < size ==> |s.bytes| <= end <= size
    ensures rc == (match s case Missing(code) => code case Value(bytes) => if |bytes| < size then 0 else -ERANGE)
    ensures rc >= 0 ==> s.Value? && CString(s.bytes, value)
    ensures rc == -ERANGE ==> actual == report
  {
    var data := new Byte[size](_ => 0);
    rc, actual := MetaGet(s, data, report, end);
    value := [];
    if rc >= 0 {
      CutTerminated(data[..], s.bytes, actual);
      assert data[..][..actual] == data[..actual];
      value := Cut(data[..actual]);
    }
  }

  /**
   `MetadataGet`: after attempts of the sizes `small`, one of size `size`. Each retry is with a strictly
   larger buffer, whatever size the library reports.
   */
  method MetadataGet(s: Stored, open: nat -> bool, report: nat -> nat, end: nat -> nat)
    returns (r: Result<Buffer, CallError>, small: seq<nat>, size: nat)
    requires s.Missing? ==> s.code < 0 && s.code != -ERANGE
    requires s.Value? ==> |s.bytes| < SIZE_LIMIT / 2
    requires s.Value? ==> forall n :: |s.bytes| < n ==> |s.bytes| <= end(n) <= n
    ensures (small + [size])[0] == 256 && Tried(small + [size], report)
    ensures (forall k :: 0 <= k < |small| ==> open(k)) && (r == Err(Thrown(ResourceIsClosed)) <==> !open(|small|))
    ensures s.Missing? ==> small == [] && (open(0) ==> r == Err(Ceph(s.code)))
    ensures s.Value? ==> AllSmall(small, |s.bytes| + 1)
    ensures s.Value? && open(|small|) ==> r.Ok? && CString(s.bytes, r.value) && |s.bytes| < size
    ensures s.Value? && Reports(report, |s.bytes| + 1) ==> |small| <= 1
  {
    small := [];
    size := 256;
    while true
      invariant size > 0 && (small + [size])[0] == 256 && Tried(small + [size], report)
      invariant forall k :: 0 <= k < |small| ==> open(k)
      invariant if s.Value? then AllSmall(small, |s.bytes| + 1) else small == []
      invariant s.Value? && Reports(report, |s.bytes| + 1) && small != [] ==> |small| == 1 && size == |s.bytes| + 1
      decreases if s.Value? then |s.bytes| + 1 - size else 0
    {
      if !open(|small|) {
        return Err(Thrown(ResourceIsClosed)), small, size;
      }
      var rc, actual, value := MetadataAttempt(s, size, report(size), end(size));
      if rc >= 0 {
        return Ok(value), small, size;
      }
      if rc != -ERANGE {
        return Err(Ceph(rc)), small, size;
      }
      assert size * 2 < SIZE_LIMIT;
      var next := if actual > size then actual else size * 2;
      TriedOn(small, size, report, next, |s.bytes| + 1);
      small := small + [size];
      size := next;
    }
  }
}
