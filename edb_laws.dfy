/**
 * What the EDB operations promise together (edb.c): whatever a read leaves can be freed; after a
 * successful read the EDB holds its arrays and one block per name; and a file written from a
 * well-formed EDB reads back as that EDB.
 */
module EdbLaws {
  import opened Bytes
  import opened Errors
  import opened CStrings
  import opened IntCodec
  import opened EdbCodec
  import opened Streams
  import opened EdbRead
  import opened EdbWrite
  import opened EdbFile

  // Reading then freeing --------------------------------------------------------------

  /**
   * Whatever `eaarlio_edb_read` returns can be handed to `eaarlio_edb_free`, and after a
   * successful read the EDB owns its record array, its name table and one block per name.
   */
  lemma FreeAfterRead(data: seq<Byte>, pos: nat, readFails: bool, seekFails: bool, budget: nat,
                      includeRecords: bool, includeFiles: bool)
    ensures var s := ReadOutcome(data, pos, readFails, seekFails, budget, includeRecords, includeFiles);
            Freeable(s.edb)
            && (s.err == Success ==>
                  Held(s.edb) == (if includeRecords && s.edb.recordCount > 0 then 1 else 0)
                                 + (if includeFiles && s.edb.fileCount > 0 then 1 + s.edb.fileCount as nat else 0))
  {
    var s := ReadOutcome(data, pos, readFails, seekFails, budget, includeRecords, includeFiles);
    if s.err == Success && s.edb.files.Some? {
      var h := HeaderOf(data[..HEADER_SIZE]);
      var names := s.edb.files.value;
      assert forall j | 0 <= j < |names| :: names[j].Some? by {
        var r := RecordsOutcome(data, HEADER_SIZE, h.recordCount as nat, readFails, seekFails);
        var p := if includeRecords && h.recordCount > 0 then r.pos else HEADER_SIZE;
        var b := if includeRecords && h.recordCount > 0 then budget - 2 else budget - 1;
        assert names == FilenamesOutcome(data, p, h, readFails, seekFails, b).names;
      }
      AllNamesHeld(names, s.edb.fileCount as nat);
    }
  }

  // Well-formed EDBs ------------------------------------------------------------------

  /** A name as `eaarlio_edb_read` stores it: characters free of NUL, short enough for the prefix, then a terminator. */
  predicate NameWellFormed(name: Name)
  {
    name.Some? && |name.value| > 0 && name.value[|name.value| - 1] == 0
    && 0 !in name.value[..|name.value| - 1] && FilenameLengthCarried(|name.value| - 1)
  }

  /**
   * An EDB as a full read returns it: an array exactly when its count is non-zero, of exactly
   * that length, well-formed names, and few enough records for the 32-bit files offset.
   */
  predicate Canonical(v: EdbValue)
  {
    (v.records.Some? <==> v.recordCount > 0) && (v.files.Some? <==> v.fileCount > 0)
    && (v.records.Some? ==> |v.records.value| == v.recordCount as nat)
    && (v.files.Some? ==> |v.files.value| == v.fileCount as nat
                          && forall j | 0 <= j < |v.files.value| :: NameWellFormed(v.files.value[j]))
    && RecordSpan(v.recordCount as nat) < 0x1_0000_0000
  }

  /** A well-formed name is stored as its 16-bit length and its characters. */
  lemma WellFormedStored(name: Name)
    requires NameWellFormed(name)
    ensures Storable(name) && NameLength(name.value) == |name.value| - 1
    ensures NameBytes(name.value) == Uint16Bytes(|name.value| - 1) + name.value[..|name.value| - 1]
  {
  }

  /** Every name of a well-formed EDB is stored, so the writer accepts it. */
  lemma CanonicalWritable(v: EdbValue)
    requires Canonical(v)
    ensures Pointers(v) && Writable(v)
    ensures v.fileCount > 0 ==> NamesAccepted(v.files.value, v.fileCount as nat)
  {
    if v.files.Some? {
      forall j | 0 <= j < v.fileCount as nat
        ensures Storable(v.files.value[j])
      {
        WellFormedStored(v.files.value[j]);
      }
    }
  }

  // Layout of a written file ----------------------------------------------------------

  /** A write at or after `pos` leaves the bytes before `pos` alone. */
  lemma WrittenKeepsFront(data: seq<Byte>, pos: nat, bytes: seq<Byte>)
    requires pos <= |data|
    ensures |Written(data, pos, bytes)| >= |data|
    ensures Written(data, pos, bytes)[..pos] == data[..pos]
  {
    var r := Written(data, pos, bytes);
    assert forall i | 0 <= i < pos :: r[..pos][i] == data[..pos][i];
  }

  /** A prefix of the written file keeps its bytes when a shorter prefix of it is known. */
  lemma PrefixOfPrefix(a: seq<Byte>, b: seq<Byte>, lo: nat, hi: nat)
    requires lo <= hi <= |a| && hi <= |b| && a[..hi] == b[..hi]
    ensures a[..lo] == b[..lo]
  {
    assert a[..lo] == a[..hi][..lo];
    assert b[..lo] == b[..hi][..lo];
  }

  /** The names section a well-formed EDB writes. */
  function NamesSection(v: EdbValue): (b: seq<Byte>)
    requires Canonical(v)
    ensures v.fileCount == 0 ==> b == []
  {
    if v.fileCount > 0 then Tail(v.files.value, 0) else []
  }

  /**
   * `eaarlio_edb_write` of a well-formed EDB on a healthy stream: the header at 0, the records
   * after it, and the names at the offset the header gives.
   */
  lemma WriteLayout(v: EdbValue, data: seq<Byte>, pos: nat)
    requires Canonical(v)
    ensures Pointers(v) && Writable(v)
    ensures var w := WriteOutcome(v, data, pos, false, false);
            var span := RecordSpan(v.recordCount as nat);
            var names := NamesSection(v);
            w.err == Success && span + |names| <= |w.data|
            && w.data[..HEADER_SIZE] == HeaderBytes(HeaderFor(v))
            && (v.recordCount > 0 ==> w.data[HEADER_SIZE..span] == RecordsBytes(v.records.value, v.recordCount as nat))
            && w.data[span..span + |names|] == names
  {
    CanonicalWritable(v);
    var h := HeaderFor(v);
    var span := RecordSpan(v.recordCount as nat);
    var a := HeaderWriteOutcome(h, data, pos, false, false);
    var b := if v.recordCount > 0 then RecordsWriteOutcome(v.records.value, v.recordCount as nat, a.data, a.pos,
                                                           false, false)
             else a;
    assert |b.data| >= span && b.data[..HEADER_SIZE] == HeaderBytes(h) by {
      if v.recordCount > 0 {
        WrittenKeepsFront(a.data, HEADER_SIZE, RecordsBytes(v.records.value, v.recordCount as nat));
      }
    }
    if v.fileCount > 0 {
      var names := v.files.value;
      var count := v.fileCount as nat;
      assert FirstTooLong(names, 0, count) == count;
      var c := FilenamesWriteOutcome(names, h, b.data, b.pos, false, false);
      assert c == WriteOutcome(v, data, pos, false, false);
      WrittenKeepsFront(b.data, span, NamesBytes(names, count));
      NamesBytesIsTail(names);
      PrefixOfPrefix(c.data, b.data, HEADER_SIZE, span);
      if v.recordCount > 0 {
        var records := RecordsBytes(v.records.value, v.recordCount as nat);
        assert c.data[HEADER_SIZE..span] == c.data[..span][HEADER_SIZE..];
        assert b.data[HEADER_SIZE..span] == b.data[..span][HEADER_SIZE..];
      }
    }
  }

  // Reading the layout back -------------------------------------------------------------

  /** Record `i` of the records section is the `i`-th record's twenty bytes. */
  lemma {:induction false} RecordsBytesAt(records: seq<EdbRecord>, n: nat, i: nat)
    requires i < n <= |records|
    ensures RecordsBytes(records, n)[RECORD_SIZE * i..RECORD_SIZE * (i + 1)] == RecordBytes(records[i])
  {
    if i < n - 1 {
      RecordsBytesAt(records, n - 1, i);
      EarlierRecordKept(records, n, i);
    } else {
      LastRecordAt(records, n);
    }
  }

  /** Appending a record keeps the bytes of the records before it. */
  lemma EarlierRecordKept(records: seq<EdbRecord>, n: nat, i: nat)
    requires i < n - 1 && n <= |records|
    requires RecordsBytes(records, n - 1)[RECORD_SIZE * i..RECORD_SIZE * (i + 1)] == RecordBytes(records[i])
    ensures RecordsBytes(records, n)[RECORD_SIZE * i..RECORD_SIZE * (i + 1)] == RecordBytes(records[i])
  {
    FrontSlice(RecordsBytes(records, n - 1), RecordBytes(records[n - 1]), RECORD_SIZE * i, RECORD_SIZE * (i + 1));
  }

  /** The last record of a records section is its last twenty bytes. */
  lemma LastRecordAt(records: seq<EdbRecord>, n: nat)
    requires 0 < n <= |records|
    ensures RecordsBytes(records, n)[RECORD_SIZE * (n - 1)..RECORD_SIZE * n] == RecordBytes(records[n - 1])
  {
    var front := RecordsBytes(records, n - 1);
    var last := RecordBytes(records[n - 1]);
    assert (front + last)[|front|..|front| + |last|] == last;
  }

  /** A slice inside the first part of a concatenation is that part's slice. */
  lemma FrontSlice(x: seq<Byte>, y: seq<Byte>, lo: nat, hi: nat)
    requires lo <= hi <= |x|
    ensures (x + y)[lo..hi] == x[lo..hi]
  {
    assert forall k | lo <= k < hi :: (x + y)[k] == x[k];
  }

  /** The record loop reads back every record of a records section. */
  lemma RecordsReadBack(data: seq<Byte>, records: seq<EdbRecord>)
    requires |records| > 0 && RecordSpan(|records|) <= |data|
    requires data[HEADER_SIZE..RecordSpan(|records|)] == RecordsBytes(records, |records|)
    ensures Filled(data, |records|, |records|) == records
  {
    var n := |records|;
    var r := Filled(data, n, n);
    forall i | 0 <= i < n
      ensures r[i] == records[i]
    {
      RecordReadBack(data, records, i);
    }
  }

  /** Record `i` of a records section decodes to the `i`-th record. */
  lemma RecordReadBack(data: seq<Byte>, records: seq<EdbRecord>, i: nat)
    requires i < |records| && RecordSpan(|records|) <= |data|
    requires data[HEADER_SIZE..RecordSpan(|records|)] == RecordsBytes(records, |records|)
    ensures RecordAt(data, i) == records[i]
  {
    var n := |records|;
    RecordSlice(data, RecordsBytes(records, n), n, i);
    RecordsBytesAt(records, n, i);
    RecordRoundTrip(records[i]);
  }

  /** Record `i`'s place in a records section holds its twenty bytes. */
  lemma RecordSlice(data: seq<Byte>, section: seq<Byte>, n: nat, i: nat)
    requires i < n && |section| == RECORD_SIZE * n && RecordSpan(n) <= |data|
    requires data[HEADER_SIZE..RecordSpan(n)] == section
    ensures data[RecordSpan(i)..RecordSpan(i + 1)] == section[RECORD_SIZE * i..RECORD_SIZE * (i + 1)]
  {
    SliceOfSlice(data, section, section[RECORD_SIZE * i..RECORD_SIZE * (i + 1)], HEADER_SIZE, RECORD_SIZE * i);
  }

  /** A piece of a slice is a slice of the whole. */
  lemma SliceOfSlice(s: seq<Byte>, section: seq<Byte>, piece: seq<Byte>, lo: nat, a: nat)
    requires lo + |section| <= |s| && s[lo..lo + |section|] == section
    requires a + |piece| <= |section| && section[a..a + |piece|] == piece
    ensures s[lo + a..lo + a + |piece|] == piece
  {
    forall k | 0 <= k < |piece|
      ensures s[lo + a + k] == piece[k]
    {
      assert piece[k] == section[a..a + |piece|][k] == section[a + k];
      assert section[a + k] == s[lo..lo + |section|][a + k];
    }
  }

  /** A prefix of a sequence is a prefix of any extension of it. */
  lemma PrefixExtended(a: seq<Byte>, b: seq<Byte>, c: seq<Byte>)
    requires |a| <= |b| && b[..|a|] == a
    ensures (b + c)[..|a|] == a
  {
    assert (b + c)[..|a|] == b[..|a|];
  }

  /** A piece of a sequence's prefix sits at its offset in any window holding the sequence. */
  lemma PieceAt(data: seq<Byte>, all: seq<Byte>, before: seq<Byte>, here: seq<Byte>, offset: nat)
    requires offset + |all| <= |data| && data[offset..offset + |all|] == all
    requires |before| + |here| <= |all| && all[..|before| + |here|] == before + here
    ensures data[offset + |before|..offset + |before| + |here|] == here
  {
    forall k | 0 <= k < |here|
      ensures data[offset + |before| + k] == here[k]
    {
      assert here[k] == (before + here)[|before| + k] == all[..|before| + |here|][|before| + k];
      assert all[|before| + k] == data[offset..offset + |all|][|before| + k];
    }
  }

  /** The two halves of a window holding a concatenation. */
  lemma Halves(data: seq<Byte>, pos: nat, x: seq<Byte>, y: seq<Byte>)
    requires pos + |x| + |y| <= |data| && data[pos..pos + |x| + |y|] == x + y
    ensures data[pos..pos + |x|] == x && data[pos + |x|..pos + |x| + |y|] == y
  {
    assert data[pos..pos + |x|] == data[pos..pos + |x| + |y|][..|x|];
    assert data[pos + |x|..pos + |x| + |y|] == data[pos..pos + |x| + |y|][|x|..];
  }

  /** One turn of the name loop over a well-formed name: its block is filled and the loop moves on. */
  lemma NameStep(data: seq<Byte>, pos: nat, length: nat, i: nat, count: nat, scratch: nat, budget: nat,
                 slots: seq<Name>, name: seq<Byte>)
    requires i < count == |slots| && scratch > 0 && FilenameLengthCarried(length)
    requires pos + FILENAME_LENGTH_SIZE + length <= |data| && data[pos..pos + FILENAME_LENGTH_SIZE] == Uint16Bytes(length)
    requires data[pos + FILENAME_LENGTH_SIZE..pos + FILENAME_LENGTH_SIZE + length] + [0] == name
    requires budget >= 1 + (if length > scratch then 1 else 0)
    ensures NamesLoop(data, pos, i, count, scratch, false, budget, slots)
         == NamesLoop(data, pos + FILENAME_LENGTH_SIZE + length, i + 1, count,
                      if length > scratch then Grown(scratch, length) else scratch, false,
                      budget - 1 - (if length > scratch then 1 else 0), slots[i := Some(name)])
  {
    FilenameLengthPrefixExact(length);
    assert DecodeUint16(data[pos..pos + FILENAME_LENGTH_SIZE]) == length;
    var size := if length > scratch then Grown(scratch, length) else scratch;
    var b := if length > scratch then budget - 1 else budget;
    assert NamesLoop(data, pos, i, count, scratch, false, budget, slots)
        == NameOutcome(data, pos + FILENAME_LENGTH_SIZE, length, i, count, scratch, false, budget, slots);
    assert NameOutcome(data, pos + FILENAME_LENGTH_SIZE, length, i, count, scratch, false, budget, slots)
        == NameRead(data, pos + FILENAME_LENGTH_SIZE, length, i, count, size, false, b, slots);
  }

  /** `name` sits at `start`: its length prefix, then its characters without the terminator. */
  predicate NameAt(data: seq<Byte>, start: nat, name: Name)
  {
    NameWellFormed(name) && start + FILENAME_LENGTH_SIZE + |name.value| - 1 <= |data|
    && data[start..start + FILENAME_LENGTH_SIZE] == Uint16Bytes(|name.value| - 1)
    && data[start + FILENAME_LENGTH_SIZE..start + FILENAME_LENGTH_SIZE + |name.value| - 1]
       == name.value[..|name.value| - 1]
  }

  /** A well-formed name as the names section holds it: its 16-bit length, then its characters. */
  function Stored(name: Name): (b: seq<Byte>)
    ensures NameWellFormed(name) ==> |b| == FILENAME_LENGTH_SIZE + |name.value| - 1
  {
    if name.Some? && 0 < |name.value| && FilenameLengthCarried(|name.value| - 1)
    then Uint16Bytes(|name.value| - 1) + name.value[..|name.value| - 1]
    else []
  }

  /** The writer stores a well-formed name as its 16-bit length and its characters. */
  lemma SlotIsStored(name: Name)
    requires NameWellFormed(name)
    ensures SlotBytes(name) == Stored(name)
  {
    WellFormedStored(name);
  }

  /** A well-formed name's window holds its length prefix, then its characters. */
  lemma NameSlices(data: seq<Byte>, pos: nat, name: Name)
    requires NameWellFormed(name)
    requires pos + |Stored(name)| <= |data| && data[pos..pos + |Stored(name)|] == Stored(name)
    ensures NameAt(data, pos, name)
  {
    var length := |name.value| - 1;
    Halves(data, pos, Uint16Bytes(length), name.value[..length]);
  }

  /** The names section from name `i` on, each stored as a well-formed name. */
  function Tail(names: seq<Name>, i: nat): seq<Byte>
    requires i <= |names|
    decreases |names| - i
  {
    if i == |names| then [] else Stored(names[i]) + Tail(names, i + 1)
  }

  /** Moving the middle piece of a concatenation to the left part keeps the whole. */
  lemma Regroup(a: seq<Byte>, x: seq<Byte>, t: seq<Byte>, whole: seq<Byte>, ax: seq<Byte>, xt: seq<Byte>)
    requires ax == a + x
    requires xt == x + t
    requires a + xt == whole
    ensures ax + t == whole
  {
    assert (a + x) + t == a + (x + t);
  }

  /**
   * For well-formed names, the writer's section is the section read from its first name on:
   * the writer's section for the first `k` names, then the rest from name `k`, is the whole.
   */
  lemma NamesBytesIsTail(names: seq<Name>)
    requires forall j | 0 <= j < |names| :: NameWellFormed(names[j])
    ensures NamesBytes(names, |names|) == Tail(names, 0)
  {
    var k := 0;
    while k < |names|
      invariant k <= |names|
      invariant NamesBytes(names, k) + Tail(names, k) == Tail(names, 0)
    {
      TailStep(names, k);
      k := k + 1;
    }
    assert NamesBytes(names, |names|) + [] == NamesBytes(names, |names|);
  }

  /** One more well-formed name moves from the rest of the section to the writer's part. */
  lemma TailStep(names: seq<Name>, k: nat)
    requires k < |names| && NameWellFormed(names[k])
    requires NamesBytes(names, k) + Tail(names, k) == Tail(names, 0)
    ensures NamesBytes(names, k + 1) + Tail(names, k + 1) == Tail(names, 0)
  {
    SlotIsStored(names[k]);
    Regroup(NamesBytes(names, k), Stored(names[k]), Tail(names, k + 1), Tail(names, 0), NamesBytes(names, k + 1),
            Tail(names, k));
  }

  /** The names from `i` on sit back to back, name `j` at `starts[j]`. */
  predicate NamesAt(data: seq<Byte>, starts: seq<nat>, names: seq<Name>, i: nat)
  {
    i <= |names| && |starts| == |names| + 1
    && forall j | i <= j < |names| ::
         NameAt(data, starts[j], names[j]) && starts[j + 1] == starts[j] + FILENAME_LENGTH_SIZE + |names[j].value| - 1
  }

  /** The first name of the rest of a names section sits at its start, and the rest after it. */
  lemma NameFront(data: seq<Byte>, pos: nat, names: seq<Name>, i: nat)
    requires i < |names| && NameWellFormed(names[i])
    requires pos + |Tail(names, i)| <= |data| && data[pos..pos + |Tail(names, i)|] == Tail(names, i)
    ensures NameAt(data, pos, names[i])
    ensures pos + |Stored(names[i])| + |Tail(names, i + 1)| <= |data|
    ensures data[pos + |Stored(names[i])|..pos + |Stored(names[i])| + |Tail(names, i + 1)|] == Tail(names, i + 1)
  {
    StoredThenRest(data, pos, names[i], Tail(names, i + 1), Tail(names, i));
  }

  /** A stored name followed by `rest` in the file: the name is there, and so is `rest` just past it. */
  lemma StoredThenRest(data: seq<Byte>, pos: nat, name: Name, rest: seq<Byte>, both: seq<Byte>)
    requires NameWellFormed(name) && both == Stored(name) + rest
    requires pos + |both| <= |data| && data[pos..pos + |both|] == both
    ensures NameAt(data, pos, name)
    ensures pos + |Stored(name)| + |rest| <= |data|
    ensures data[pos + |Stored(name)|..pos + |Stored(name)| + |rest|] == rest
  {
    Halves(data, pos, Stored(name), rest);
    NameSlices(data, pos, name);
  }

  /** One more name in front of names laid out back to back. */
  lemma StartsExtended(data: seq<Byte>, later: seq<nat>, names: seq<Name>, i: nat, pos: nat)
    requires i < |names| && NamesAt(data, later, names, i + 1) && NameAt(data, pos, names[i])
    requires later[i + 1] == pos + FILENAME_LENGTH_SIZE + |names[i].value| - 1
    ensures NamesAt(data, later[i := pos], names, i)
  {
    var starts := later[i := pos];
    assert forall j | i < j <= |names| :: starts[j] == later[j];
  }

  /** Where each name from `i` on starts, in the rest of a names section sitting at `pos`. */
  lemma {:induction false} TailLayout(data: seq<Byte>, pos: nat, names: seq<Name>, i: nat) returns (starts: seq<nat>)
    requires i <= |names| && forall j | 0 <= j < |names| :: NameWellFormed(names[j])
    requires pos + |Tail(names, i)| <= |data| && data[pos..pos + |Tail(names, i)|] == Tail(names, i)
    ensures NamesAt(data, starts, names, i) && starts[i] == pos
    decreases |names| - i
  {
    if i == |names| {
      starts := seq(|names| + 1, _ => pos);
    } else {
      var here := Stored(names[i]);
      NameFront(data, pos, names, i);
      var later := TailLayout(data, pos + |here|, names, i + 1);
      starts := later[i := pos];
      StartsExtended(data, later, names, i, pos);
    }
  }

  /**
   * The name loop reads back names `i` onwards from where they sit, given a budget for each
   * name and each doubling the scratch buffer may still need.
   */
  lemma {:induction false} NamesReadBack(data: seq<Byte>, starts: seq<nat>, names: seq<Name>, i: nat, scratch: nat,
                                         budget: nat, slots: seq<Name>)
    requires |names| == |slots| && scratch > 0 && NamesAt(data, starts, names, i)
    requires budget >= |names| - i + Headroom(scratch)
    ensures var s := NamesLoop(data, starts[i], i, |names|, scratch, false, budget, slots);
            s.err == Success && forall j | i <= j < |names| :: s.names[j] == names[j]
    decreases |names| - i
  {
    if i < |names| {
      var name := names[i].value;
      var length := |name| - 1;
      var start := starts[i];
      assert NameAt(data, start, names[i]) && starts[i + 1] == start + FILENAME_LENGTH_SIZE + length;
      assert data[start + FILENAME_LENGTH_SIZE..start + FILENAME_LENGTH_SIZE + length] + [0] == name;
      var size := if length > scratch then Grown(scratch, length) else scratch;
      var after := budget - 1 - (if length > scratch then 1 else 0);
      if length > scratch {
        GrowthUsesHeadroom(scratch, length);
      }
      var next := slots[i := names[i]];
      NameStep(data, start, length, i, |names|, scratch, budget, slots, name);
      NamesReadBack(data, starts, names, i + 1, size, after, next);
      var t := NamesLoop(data, starts[i + 1], i + 1, |names|, size, false, after, next);
      assert t.names[..i + 1] == next[..i + 1];
      assert t.names[i] == next[..i + 1][i] == names[i];
    }
  }

  /**
   * The name table read back: well-formed names laid out at the header's files offset come
   * back as they were, when the handler can supply the table, the scratch buffer, its eleven
   * doublings and a block per name.
   */
  lemma NamesRoundTrip(data: seq<Byte>, pos: nat, header: EdbHeader, names: seq<Name>, budget: nat)
    requires |names| == header.fileCount as nat && forall j | 0 <= j < |names| :: NameWellFormed(names[j])
    requires header.filesOffset as nat + |Tail(names, 0)| <= |data|
    requires data[header.filesOffset as nat..header.filesOffset as nat + |Tail(names, 0)|] == Tail(names, 0)
    requires budget >= |names| + 12
    ensures FilenamesOutcome(data, pos, header, false, false, budget).err == Success
    ensures FilenamesOutcome(data, pos, header, false, false, budget).names == names
  {
    var offset := header.filesOffset as nat;
    var s := NamesLoop(data, offset, 0, |names|, SCRATCH_INITIAL, false, budget - 1, Nulls(|names|));
    assert s.err == Success && s.names == names by {
      TailReadsBack(data, offset, names, budget - 1);
    }
    assert FilenamesOutcome(data, pos, header, false, false, budget) == s by {
      FilenamesIsLoop(data, pos, header, budget);
    }
  }

  /** The name loop over NULL slots reads back a names section laid out at `pos`. */
  lemma TailReadsBack(data: seq<Byte>, pos: nat, names: seq<Name>, budget: nat)
    requires forall j | 0 <= j < |names| :: NameWellFormed(names[j])
    requires pos + |Tail(names, 0)| <= |data| && data[pos..pos + |Tail(names, 0)|] == Tail(names, 0)
    requires budget >= |names| + 11
    ensures var s := NamesLoop(data, pos, 0, |names|, SCRATCH_INITIAL, false, budget, Nulls(|names|));
            s.err == Success && s.names == names
  {
    InitialHeadroom();
    var starts := TailLayout(data, pos, names, 0);
    NamesReadBack(data, starts, names, 0, SCRATCH_INITIAL, budget, Nulls(|names|));
  }

  /** With memory for the table, the name table is the name loop from the files offset over NULL slots. */
  lemma FilenamesIsLoop(data: seq<Byte>, pos: nat, header: EdbHeader, budget: nat)
    requires budget > 0
    ensures FilenamesOutcome(data, pos, header, false, false, budget)
            == NamesLoop(data, header.filesOffset as nat, 0, header.fileCount as nat, SCRATCH_INITIAL, false,
                         budget - 1, Nulls(header.fileCount as nat))
  {
  }

  /**
   * The header and the records read back: with the header's bytes at 0 and the records' after
   * them, a full read reaches the name table with the records in hand and one block spent on them.
   */
  lemma ReadToFiles(data: seq<Byte>, readPos: nat, budget: nat, h: EdbHeader, records: Option<seq<EdbRecord>>)
    requires HEADER_SIZE <= |data| && data[..HEADER_SIZE] == HeaderBytes(h) && budget > 0
    requires records.Some? <==> h.recordCount > 0
    requires records.Some? ==> |records.value| == h.recordCount as nat && RecordSpan(|records.value|) <= |data|
                               && data[HEADER_SIZE..RecordSpan(|records.value|)]
                                  == RecordsBytes(records.value, |records.value|)
    ensures ReadOutcome(data, readPos, false, false, budget, true, true)
            == FilesPart(data, h, RecordSpan(h.recordCount as nat), false, false,
                         if h.recordCount > 0 then budget - 1 else budget, true, records)
  {
    HeaderRoundTrip(h);
    if records.Some? {
      RecordsReadBack(data, records.value);
    }
  }

  /**
   * A full read of a well-formed EDB laid out as the writer lays it out, with the header at 0,
   * the records after it and the names at the files offset, returns that EDB.
   */
  lemma ReadsBack(v: EdbValue, data: seq<Byte>, readPos: nat, budget: nat)
    requires Canonical(v) && budget >= 14 + v.fileCount as nat
    requires RecordSpan(v.recordCount as nat) + |NamesSection(v)| <= |data|
    requires data[..HEADER_SIZE] == HeaderBytes(HeaderFor(v))
    requires v.recordCount > 0 ==>
               data[HEADER_SIZE..RecordSpan(v.recordCount as nat)] == RecordsBytes(v.records.value, v.recordCount as nat)
    requires data[RecordSpan(v.recordCount as nat)..RecordSpan(v.recordCount as nat) + |NamesSection(v)|]
             == NamesSection(v)
    ensures var r := ReadOutcome(data, readPos, false, false, budget, true, true);
            r.err == Success && r.edb == v
  {
    var h := HeaderFor(v);
    var span := RecordSpan(v.recordCount as nat);
    var afterRecords := if v.recordCount > 0 then budget - 1 else budget;
    ReadToFiles(data, readPos, budget, h, v.records);
    FilesReadBack(v, data, span, afterRecords);
    var r := FilesPart(data, h, span, false, false, afterRecords, true, v.records);
    assert r.err == Success && r.edb == v;
    assert ReadOutcome(data, readPos, false, false, budget, true, true) == r;
  }

  /** The name table part of a full read returns the EDB once the records are in hand. */
  lemma FilesReadBack(v: EdbValue, data: seq<Byte>, pos: nat, budget: nat)
    requires Canonical(v) && budget >= 13 + v.fileCount as nat
    requires HeaderFor(v).filesOffset as nat + |NamesSection(v)| <= |data|
    requires data[HeaderFor(v).filesOffset as nat..HeaderFor(v).filesOffset as nat + |NamesSection(v)|]
             == NamesSection(v)
    ensures var r := FilesPart(data, HeaderFor(v), pos, false, false, budget, true, v.records);
            r.err == Success && r.edb == v
  {
    var h := HeaderFor(v);
    if v.fileCount > 0 {
      var names := v.files.value;
      assert FilenamesOutcome(data, pos, h, false, false, budget - 1).err == Success
             && FilenamesOutcome(data, pos, h, false, false, budget - 1).names == names by {
        NamesRoundTrip(data, pos, h, names, budget - 1);
      }
    }
  }

  /**
   * The round trip of the EDB format: a well-formed EDB written by `eaarlio_edb_write` to a
   * healthy stream reads back whole with `eaarlio_edb_read`, when the handler can supply the
   * record array, the name table, the scratch buffer, its eleven doublings and a block per name.
   */
  lemma WriteThenRead(v: EdbValue, data: seq<Byte>, pos: nat, readPos: nat, budget: nat)
    requires Canonical(v) && budget >= 14 + v.fileCount as nat
    ensures Pointers(v) && Writable(v)
    ensures var w := WriteOutcome(v, data, pos, false, false);
            var r := ReadOutcome(w.data, readPos, false, false, budget, true, true);
            w.err == Success && r.err == Success && r.edb == v
  {
    WriteLayout(v, data, pos);
    ReadsBack(v, WriteOutcome(v, data, pos, false, false).data, readPos, budget);
  }

  // The library's filename limit -----------------------------------------------------

  /** A name of exactly the library's limit, 65536 characters, with its terminator. */
  predicate LongestAccepted(name: seq<Byte>)
  {
    |name| == FILENAME_MAX_LENGTH + 1 && name[FILENAME_MAX_LENGTH] == 0 && 0 !in name[..FILENAME_MAX_LENGTH]
  }

  /** The writer measures such a name at 65536 bytes and stores it behind the prefix 0. */
  lemma LongestStored(name: seq<Byte>)
    requires LongestAccepted(name)
    ensures Storable(Some(name)) && NameLength(name) == FILENAME_MAX_LENGTH
    ensures NameBytes(name) == [0, 0] + name[..FILENAME_MAX_LENGTH]
  {
  }

  /** The writer accepts a single name of 65536 characters and lays it out at the files offset. */
  lemma LongestWritten(name: seq<Byte>, header: EdbHeader, data: seq<Byte>, pos: nat)
    requires LongestAccepted(name) && header.fileCount == 1
    ensures var w := FilenamesWriteOutcome([Some(name)], header, data, pos, false, false);
            var offset := header.filesOffset as nat;
            w.err == Success && offset + FILENAME_LENGTH_SIZE <= |w.data|
            && w.data[offset..offset + FILENAME_LENGTH_SIZE] == [0, 0]
  {
    var names := [Some(name)];
    var offset := header.filesOffset as nat;
    LongestStored(name);
    var b := NameBytes(name);
    assert NamesBytes(names, 1) == b;
    var w := Overwrite(data, offset, b);
    assert w[offset..offset + FILENAME_LENGTH_SIZE] == w[offset..offset + |b|][..FILENAME_LENGTH_SIZE];
  }

  /** A single name whose prefix is 0 reads back as the empty string, the cursor just past the prefix. */
  lemma ZeroPrefixReadsEmpty(data: seq<Byte>, header: EdbHeader, readPos: nat, budget: nat)
    requires header.fileCount == 1 && budget >= 2
    requires header.filesOffset as nat + FILENAME_LENGTH_SIZE <= |data|
    requires data[header.filesOffset..header.filesOffset as nat + FILENAME_LENGTH_SIZE] == [0, 0]
    ensures FilenamesOutcome(data, readPos, header, false, false, budget)
            == NamesStep(Success, [Some([0])], header.filesOffset as nat + FILENAME_LENGTH_SIZE, budget - 2, 1)
  {
    var at := header.filesOffset as nat + FILENAME_LENGTH_SIZE;
    assert NamesLoop(data, header.filesOffset as nat, 0, 1, SCRATCH_INITIAL, false, budget - 1, Nulls(1))
        == NameRead(data, at, 0, 0, 1, SCRATCH_INITIAL, false, budget - 1, Nulls(1));
    assert data[at..at + 0] + [0] == [0];
    assert Nulls(1)[0 := Some([0])] == [Some([0])];
  }

  /**
   * As written, `eaarlio_edb_write_filenames` accepts a name of 65536 characters and writes
   * it behind the 16-bit prefix 0, so `eaarlio_edb_read_filenames` reads that file's name
   * back as the empty string, leaving its characters unread.
   */
  lemma LongestNameLost(name: seq<Byte>, header: EdbHeader, data: seq<Byte>, pos: nat, readPos: nat, budget: nat)
    requires LongestAccepted(name) && header.fileCount == 1 && budget >= 2
    ensures var w := FilenamesWriteOutcome([Some(name)], header, data, pos, false, false);
            w.err == Success
            && FilenamesOutcome(w.data, readPos, header, false, false, budget)
               == NamesStep(Success, [Some([0])], header.filesOffset as nat + FILENAME_LENGTH_SIZE, budget - 2, 1)
  {
    LongestWritten(name, header, data, pos);
    ZeroPrefixReadsEmpty(FilenamesWriteOutcome([Some(name)], header, data, pos, false, false).data, header, readPos,
                         budget);
  }
}
