/** `encodeDictionary`: how service metadata becomes bytes, and what a NUL-list scan reads back. */
module Dictionary {
  import opened Wrappers
  import opened Bytes
  import opened NulLists
  import opened Utf8

  /** `Object.entries`, in its order. */
  type Entries = seq<(Text, Text)>

  function Flatten(entries: Entries): seq<Text>
  {
    if entries == [] then [] else [entries[0].0, entries[0].1] + Flatten(entries[1..])
  }

  /** `fields.join("\0")`. */
  function Join(fields: seq<Text>): Text
  {
    if fields == [] then []
    else if |fields| == 1 then fields[0]
    else fields[0] + [0] + Join(fields[1..])
  }

  function Encoded(entries: Entries): Buffer { Encode(Join(Flatten(entries)) + [0, 0]) }

  lemma {:induction false} FlattenAppend(entries: Entries, e: (Text, Text))
    ensures Flatten(entries + [e]) == Flatten(entries) + [e.0, e.1]
  {
    if entries == [] {
      assert entries + [e] == [e] && [e][1..] == [];
    } else {
      assert (entries + [e])[1..] == entries[1..] + [e];
      FlattenAppend(entries[1..], e);
    }
  }

  /** The fields are each key with its value behind it, in the order of the entries. */
  lemma {:induction false} FlattenAt(entries: Entries, i: nat)
    requires i < |entries|
    ensures |Flatten(entries)| == 2 * |entries|
    ensures Flatten(entries)[2 * i] == entries[i].0 && Flatten(entries)[2 * i + 1] == entries[i].1
  {
    if |entries| > 1 {
      FlattenAt(entries[1..], if i == 0 then 0 else i - 1);
    } else {
      assert Flatten(entries[1..]) == [];
    }
  }

  method EncodeDictionary(value: Entries) returns (r: Buffer)
    ensures r == Encoded(value)
  {
    var fields: seq<Text> := [];
    for i := 0 to |value|
      invariant fields == Flatten(value[..i])
    {
      assert value[..i + 1] == value[..i] + [value[i]];
      FlattenAppend(value[..i], value[i]);
      fields := fields + [value[i].0, value[i].1];
    }
    assert value[..|value|] == value;
    r := Encode(Join(fields) + [0, 0]);
  }

  // ---------------------------------------------------------------- what is read back

  function EncodeAll(fields: seq<Text>): (r: seq<Field>)
    ensures |r| == |fields| && forall i :: 0 <= i < |fields| ==> r[i] == Encode(fields[i])
  {
    seq(|fields|, i requires 0 <= i < |fields| => Encode(fields[i]))
  }

  /** Encoding the joined fields packs their encodings, and closes the list with an empty field. */
  lemma {:induction false} JoinPacks(fields: seq<Text>)
    requires fields != []
    ensures Encode(Join(fields) + [0, 0]) == Pack(EncodeAll(fields)) + [0]
  {
    var packed := EncodeAll(fields);
    assert packed[1..] == EncodeAll(fields[1..]);
    if |fields| == 1 {
      assert fields[0] + [0, 0] == fields[0] + [0] + [0];
      EncodeAcrossNul(fields[0], [0]);
      assert [0 as Unit][1..] == [];
      assert Encode([0]) == [0];
      assert Pack(packed) == packed[0] + [0] + Pack([]);
      assert Encode(fields[0]) + [0] + [0] == (packed[0] + [0] + []) + [0];
    } else {
      var rest := Join(fields[1..]) + [0, 0];
      assert Join(fields) + [0, 0] == fields[0] + [0] + rest;
      EncodeAcrossNul(fields[0], rest);
      JoinPacks(fields[1..]);
      assert Pack(packed) + [0] == packed[0] + [0] + (Pack(packed[1..]) + [0]);
    }
  }

  lemma {:induction false} PackSnocEmpty(fields: seq<Field>)
    ensures Pack(fields + [[]]) == Pack(fields) + [0] && UpToEmpty(fields + [[]]) == UpToEmpty(fields)
  {
    var more := fields + [[]];
    if fields != [] {
      assert more[1..] == fields[1..] + [[]];
      PackSnocEmpty(fields[1..]);
      assert Pack(more) == fields[0] + [0] + (Pack(fields[1..]) + [0]);
    } else {
      assert more == [[]] && more[1..] == [];
    }
  }

  lemma EmptyEncoded()
    ensures Encoded([]) == [0, 0] && Scan(Encoded([])) == Ok([])
  {
    assert [] + [0, 0] == [0 as Unit, 0];
    assert [0 as Unit, 0] == [] + [0] + [0];
    EncodeAcrossNul([], [0]);
    assert [0 as Unit][1..] == [];
    assert Encode([0]) == [0];
  }

  predicate NoNul(entries: Entries) { forall i :: 0 <= i < |Flatten(entries)| ==> 0 !in Flatten(entries)[i] }

  /** The scan of an encoded dictionary reads its keys and values, in order, up to the first empty one. */
  lemma ScanEncoded(entries: Entries)
    requires NoNul(entries)
    ensures Scan(Encoded(entries)) == Ok(UpToEmpty(EncodeAll(Flatten(entries))))
  {
    var fields := Flatten(entries);
    var packed := EncodeAll(fields);
    if entries == [] {
      EmptyEncoded();
    } else {
      assert fields != [];
      JoinPacks(fields);
      PackSnocEmpty(packed);
      forall i | 0 <= i < |packed + [[]]|
        ensures NulFree((packed + [[]])[i])
      {
        if i < |packed| {
          EncodeNul(fields[i]);
        }
      }
      ScanPack(packed + [[]]);
    }
  }

  predicate Plain(fields: seq<Text>) { forall i :: 0 <= i < |fields| ==> fields[i] != [] && 0 !in fields[i] }

  /** Round trip: the whole dictionary is read back exactly if no key or value is empty or contains a NUL. */
  lemma RoundTripIff(entries: Entries)
    ensures Scan(Encoded(entries)) == Ok(EncodeAll(Flatten(entries))) <==> Plain(Flatten(entries))
  {
    var fields := Flatten(entries);
    var packed := EncodeAll(fields);
    var scanned := Scan(Encoded(entries));
    if Plain(fields) {
      ScanEncoded(entries);
      forall i | 0 <= i < |packed|
        ensures packed[i] != []
      {
        EncodeEmpty(fields[i]);
      }
      UpToEmptyWhole(packed);
    } else if scanned == Ok(packed) {
      ScannedFields(Encoded(entries), |Encoded(entries)|, 0);
      forall i | 0 <= i < |fields|
        ensures fields[i] != [] && 0 !in fields[i]
      {
        assert NulFree(packed[i]) && packed[i] != [];
        EncodeNul(fields[i]);
        EncodeEmpty(fields[i]);
      }
    }
  }

  function RepairedEntry(e: (Text, Text)): (Text, Text) { (Repaired(e.0), Repaired(e.1)) }

  function RepairedEntries(entries: Entries): Entries
  {
    if entries == [] then [] else [RepairedEntry(entries[0])] + RepairedEntries(entries[1..])
  }

  lemma EncodeAllConcat(a: seq<Text>, b: seq<Text>)
    ensures EncodeAll(a + b) == EncodeAll(a) + EncodeAll(b)
  {
    forall i | 0 <= i < |a + b|
      ensures EncodeAll(a + b)[i] == (EncodeAll(a) + EncodeAll(b))[i]
    {
    }
  }

  lemma EncodeFlatten(d: Entries)
    requires d != []
    ensures EncodeAll(Flatten(d)) == [Encode(d[0].0), Encode(d[0].1)] + EncodeAll(Flatten(d[1..]))
  {
    var first := [d[0].0, d[0].1];
    EncodeAllConcat(first, Flatten(d[1..]));
    assert EncodeAll(first) == [Encode(first[0]), Encode(first[1])];
  }

  lemma SplitEqual<T>(a: seq<T>, x: seq<T>, b: seq<T>, y: seq<T>)
    requires |a| == |b|
    ensures a + x == b + y <==> a == b && x == y
  {
    assert (a + x)[..|a|] == a && (a + x)[|a|..] == x;
    assert (b + y)[..|b|] == b && (b + y)[|b|..] == y;
  }

  /** Dictionaries whose fields have equal bytes are equal up to repair, entry by entry, and conversely. */
  lemma {:induction false} FlattenEqualIff(d: Entries, e: Entries)
    ensures EncodeAll(Flatten(d)) == EncodeAll(Flatten(e)) <==> RepairedEntries(d) == RepairedEntries(e)
  {
    if d != [] && e != [] {
      EncodeFlatten(d);
      EncodeFlatten(e);
      FlattenEqualIff(d[1..], e[1..]);
      EncodeEqualIff(d[0].0, e[0].0);
      EncodeEqualIff(d[0].1, e[0].1);
      SplitEqual([Encode(d[0].0), Encode(d[0].1)], EncodeAll(Flatten(d[1..])),
                 [Encode(e[0].0), Encode(e[0].1)], EncodeAll(Flatten(e[1..])));
      SplitEqual([RepairedEntry(d[0])], RepairedEntries(d[1..]), [RepairedEntry(e[0])], RepairedEntries(e[1..]));
    } else if d != [] {
      EncodeFlatten(d);
    } else if e != [] {
      EncodeFlatten(e);
    }
  }

  /** An encoded dictionary is the packed list of its fields' bytes and an empty field; the empty one is two NULs. */
  lemma EncodedShape(entries: Entries)
    ensures Encoded(entries) == if entries == [] then [0, 0] else Pack(EncodeAll(Flatten(entries))) + [0]
  {
    if entries == [] { EmptyEncoded(); } else { JoinPacks(Flatten(entries)); }
  }

  /** The encoding depends on the fields' bytes only. */
  lemma EncodedFromBytes(d: Entries, e: Entries)
    requires EncodeAll(Flatten(d)) == EncodeAll(Flatten(e))
    ensures Encoded(d) == Encoded(e)
  {
    if Flatten(d) != [] {
      JoinPacks(Flatten(d));
      JoinPacks(Flatten(e));
    }
  }

  lemma EncodedNulFree(entries: Entries)
    requires NoNul(entries)
    ensures AllNulFree(EncodeAll(Flatten(entries)))
  {
    forall i | 0 <= i < |Flatten(entries)|
      ensures NulFree(EncodeAll(Flatten(entries))[i])
    {
      EncodeNul(Flatten(entries)[i]);
    }
  }

  /** A dictionary with entries is not encoded like the empty one. */
  lemma NotEmptyEncoded(d: Entries)
    requires d != []
    ensures Encoded(d) != Encoded([])
  {
    JoinPacks(Flatten(d));
    EmptyEncoded();
    assert |Flatten(d)| >= 2;
  }

  /** Equal encodings pack equal fields. */
  lemma EncodedFields(d: Entries, e: Entries)
    requires NoNul(d) && NoNul(e) && Encoded(d) == Encoded(e)
    ensures EncodeAll(Flatten(d)) == EncodeAll(Flatten(e))
  {
    if d == [] || e == [] {
      if d != [] { NotEmptyEncoded(d); }
      if e != [] { NotEmptyEncoded(e); }
    } else {
      var f, g := EncodeAll(Flatten(d)), EncodeAll(Flatten(e));
      JoinPacks(Flatten(d));
      JoinPacks(Flatten(e));
      SplitEqual(Pack(f), [0], Pack(g), [0]);
      EncodedNulFree(d);
      EncodedNulFree(e);
      PackInjective(f, g);
    }
  }

  /**
   Exactly which dictionaries of NUL-free keys and values have the same encoding, the empty string and the
   empty dictionary included: those that agree entry by entry once lone surrogates are replaced.
   */
  lemma EncodedEqualIff(d: Entries, e: Entries)
    requires NoNul(d) && NoNul(e)
    ensures Encoded(d) == Encoded(e) <==> RepairedEntries(d) == RepairedEntries(e)
  {
    FlattenEqualIff(d, e);
    if Encoded(d) == Encoded(e) {
      EncodedFields(d, e);
    }
    if EncodeAll(Flatten(d)) == EncodeAll(Flatten(e)) {
      EncodedFromBytes(d, e);
    }
  }
}
