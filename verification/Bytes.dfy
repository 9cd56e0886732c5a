/** Bytes, and C strings in them. */
module Bytes {
  type Byte = b: int | 0 <= b < 256

  type Buffer = seq<Byte>

  predicate NulFree(s: Buffer) { forall i :: 0 <= i < |s| ==> s[i] != 0 }

  /** Where the C string that starts at `p` ends; the end of the buffer when no NUL follows. */
  function NulFrom(s: Buffer, p: nat): (q: nat)
    requires p <= |s|
    ensures p <= q <= |s| && (q < |s| ==> s[q] == 0)
    ensures forall i :: p <= i < q ==> s[i] != 0
    decreases |s| - p
  {
    if p == |s| || s[p] == 0 then p else NulFrom(s, p + 1)
  }

  lemma NulFromUnique(s: Buffer, p: nat, q: nat)
    requires p <= q <= |s| && (q < |s| ==> s[q] == 0)
    requires forall i :: p <= i < q ==> s[i] != 0
    ensures NulFrom(s, p) == q
  {
  }

  /** `r` is `s` up to its first NUL: the longest prefix without one. */
  predicate CString(s: Buffer, r: Buffer) { r <= s && NulFree(r) && (|r| < |s| ==> s[|r|] == 0) }

  /** There is only one such prefix, and of a value without a NUL it is the whole value. */
  lemma CStringUnique(s: Buffer, r: Buffer, r': Buffer)
    requires CString(s, r)
    ensures CString(s, r') <==> r' == r
    ensures NulFree(s) <==> r == s
  {
    assert forall i :: 0 <= i < |r| ==> r[i] == s[i];
    if CString(s, r') {
      assert forall i :: 0 <= i < |r'| ==> r'[i] == s[i];
      assert |r| == |r'|;
    }
  }

  /** What a reader of C strings makes of a value. */
  function Cut(s: Buffer): (r: Buffer)
    ensures CString(s, r)
  {
    s[..NulFrom(s, 0)]
  }

  /** A reader that looks at `limit` bytes of a terminated copy of `bytes` sees the same as one of `bytes`. */
  lemma CutTerminated(memory: Buffer, bytes: Buffer, limit: nat)
    requires |bytes| <= limit <= |memory| && memory[..|bytes|] == bytes
    requires |bytes| < limit ==> memory[|bytes|] == 0
    ensures Cut(memory[..limit]) == Cut(bytes)
  {
    var n := NulFrom(bytes, 0);
    var seen := memory[..limit];
    assert forall i :: 0 <= i < |bytes| ==> seen[i] == memory[..|bytes|][i];
    NulFromUnique(seen, 0, n);
    assert seen[..n] == bytes[..n];
  }
}
