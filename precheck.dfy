/**
 * The raster-number filter of the YAML exporter (`precheck_rasters` in eaarlio_yaml.c): the
 * requested raster numbers are compacted in place so that only those a flight can read remain,
 * in their original order and with repeats kept.
 */
module Precheck {
  import opened Errors
  import opened EdbFile
  import opened Flights

  /** The raster numbers the filter keeps, in order: those with a record naming one of the EDB's files. */
  function Kept(v: EdbValue, ns: seq<int>): (r: seq<int>)
    requires Indexed(v)
    ensures |r| <= |ns|
    ensures forall i | 0 <= i < |r| :: Addressable(v, r[i])
  {
    if ns == [] then []
    else Kept(v, ns[..|ns| - 1]) + (if Addressable(v, ns[|ns| - 1]) then [ns[|ns| - 1]] else [])
  }

  /** Filtering a concatenation filters each part: the kept numbers keep their relative order. */
  lemma {:induction false} KeptAppend(v: EdbValue, a: seq<int>, b: seq<int>)
    requires Indexed(v)
    ensures Kept(v, a + b) == Kept(v, a) + Kept(v, b)
    decreases |b|
  {
    if b == [] {
      assert a + b == a;
    } else {
      var c := b[..|b| - 1];
      assert (a + b)[..|a + b| - 1] == a + c;
      KeptAppend(v, a, c);
    }
  }

  /** A number is kept exactly as often as it is asked for when it is usable, and never otherwise. */
  lemma {:induction false} KeptCounts(v: EdbValue, ns: seq<int>, x: int)
    requires Indexed(v)
    ensures multiset(Kept(v, ns))[x] == if Addressable(v, x) then multiset(ns)[x] else 0
  {
    if ns != [] {
      var init := ns[..|ns| - 1];
      KeptCounts(v, init, x);
      assert ns == init + [ns[|ns| - 1]];
    }
  }

  /** Filtering twice keeps what filtering once kept. */
  lemma {:induction false} KeptIdempotent(v: EdbValue, ns: seq<int>)
    requires Indexed(v)
    ensures Kept(v, Kept(v, ns)) == Kept(v, ns)
  {
    if ns != [] {
      var init := ns[..|ns| - 1];
      var last := ns[|ns| - 1];
      KeptIdempotent(v, init);
      var tail := if Addressable(v, last) then [last] else [];
      KeptAppend(v, Kept(v, init), tail);
      if Addressable(v, last) {
        assert Kept(v, tail) == Kept(v, [])  + [last] by {
          assert tail[..|tail| - 1] == [];
        }
      }
    }
  }

  /** Every kept number passes the checks `eaarlio_flight_read_raster` makes on a usable flight. */
  lemma KeptAdmitted(v: EdbValue, ns: seq<int>, i: nat)
    requires Indexed(v) && v.records.Some? && v.files.Some? && i < |Kept(v, ns)|
    ensures 1 <= Kept(v, ns)[i] < 0x1_0000_0000
    ensures Admission(v, true, true, Kept(v, ns)[i]) == Success
  {
  }

  /** Checking one more number extends the kept prefix by that number when it is usable. */
  lemma KeptStep(v: EdbValue, ns: seq<int>, k: nat)
    requires Indexed(v) && k < |ns|
    ensures Kept(v, ns[..k + 1]) == Kept(v, ns[..k]) + if Addressable(v, ns[k]) then [ns[k]] else []
  {
    assert ns[..k + 1][..k] == ns[..k];
  }

  /**
   * `precheck_rasters`: each of the first `count` numbers is checked in turn and, when it passes,
   * written to the next free slot; the slots from the returned count on are left as they were.
   * A negative count checks nothing.
   */
  method PrecheckRasters(edb: Edb, numbers: array<int>, count: int) returns (kept: int)
    requires Indexed(edb.Value()) && (edb.recordCount > 0 ==> edb.records != null)
    requires count <= numbers.Length
    modifies numbers
    ensures 0 <= kept <= (if count < 0 then 0 else count)
    ensures numbers[..kept] == Kept(edb.Value(), old(numbers[..if count < 0 then 0 else count]))
    ensures numbers[kept..] == old(numbers[kept..])
  {
    ghost var v := edb.Value();
    ghost var requested := numbers[..];
    var src := 0;
    var dst := 0;
    while src < count
      invariant 0 <= dst <= src && (src <= count || src == 0)
      invariant numbers[..dst] == Kept(v, requested[..src])
      invariant numbers[dst..] == requested[dst..]
      invariant edb.Value() == v
    {
      var n := numbers[src];
      assert n == requested[src];
      KeptStep(v, requested, src);
      if n >= 1 && n <= edb.recordCount as int {
        var fileIndex := edb.records[n - 1].fileIndex as int;
        if fileIndex >= 1 && fileIndex <= edb.fileCount as int {
          numbers[dst] := n;
          dst := dst + 1;
        }
      }
      src := src + 1;
    }
    kept := dst;
  }
}
