/**
 * The instance data of the renderer (renderer.cpp, utilities.h): a CPU copy of
 * up to MAX_INSTANCES records of 24 bytes (a translation, then a diffuse colour
 * adjustment, three floats each), the instance count that `addNew` grows, and
 * the upload of that copy into the mapped instance buffer.
 *
 * The records are random in the source; here a record's bytes are whatever the
 * generator gives, and the generator is a parameter.
 */
module Instances {
  import opened Vulkan
  import opened Utilities

  /** The 12 bytes of a float[3]. */
  type Float3Bytes = s: seq<byte> | |s| == 3 * FLOAT_SIZE witness [0, 0, 0, 0, 0, 0, 0, 0, 0, 0, 0, 0]

  /** One instance: instTranslate then instDiffuseAdjust. */
  datatype InstanceRecord = InstanceRecord(translate: Float3Bytes, diffuseAdjust: Float3Bytes)

  /** The instance buffer's capacity in bytes. */
  const INSTANCE_BUFFER_BYTES: nat := MAX_INSTANCES * PER_INSTANCE_DATA_SIZE

  /** The record's bytes as the two memcpy's lay them out: translation at +0, adjustment at +12. */
  function Encode(r: InstanceRecord): (b: seq<byte>)
    ensures |b| == PER_INSTANCE_DATA_SIZE
    ensures b[..12] == r.translate && b[12..] == r.diffuseAdjust
  {
    r.translate + r.diffuseAdjust
  }

  /** The records one after the other, at 24-byte strides. */
  function EncodeAll(rs: seq<InstanceRecord>): (b: seq<byte>)
    ensures |b| == |rs| * PER_INSTANCE_DATA_SIZE
  {
    if rs == [] then [] else EncodeAll(rs[..|rs| - 1]) + Encode(rs[|rs| - 1])
  }

  /** The records the generator gives for instances from, ..., to - 1. */
  function Generated(gen: nat -> InstanceRecord, from: nat, to: nat): (rs: seq<InstanceRecord>)
    requires from <= to
    ensures |rs| == to - from
    ensures forall k :: 0 <= k < to - from ==> rs[k] == gen(from + k)
  {
    seq(to - from, k requires 0 <= k => gen(from + k))
  }

  /** Encoding distributes over concatenation. */
  lemma {:induction false} EncodeAllAppend(a: seq<InstanceRecord>, b: seq<InstanceRecord>)
    ensures EncodeAll(a + b) == EncodeAll(a) + EncodeAll(b)
    decreases |b|
  {
    if b != [] {
      var c := b[..|b| - 1];
      var x := b[|b| - 1];
      assert (a + b)[..|a + b| - 1] == a + c;
      assert (a + b)[|a + b| - 1] == x;
      assert EncodeAll(a + b) == EncodeAll(a + c) + Encode(x);
      assert EncodeAll(b) == EncodeAll(c) + Encode(x);
      EncodeAllAppend(a, c);
    } else {
      assert a + b == a;
    }
  }

  /** Record k's translation at byte k * 24 of `bytes` and its diffuse adjustment at k * 24 + 12. */
  ghost predicate RecordAt(bytes: seq<byte>, records: seq<InstanceRecord>, k: nat)
  {
    k < |records| && (k + 1) * PER_INSTANCE_DATA_SIZE <= |bytes|
    && bytes[k * PER_INSTANCE_DATA_SIZE .. k * PER_INSTANCE_DATA_SIZE + 12] == records[k].translate
    && bytes[k * PER_INSTANCE_DATA_SIZE + 12 .. (k + 1) * PER_INSTANCE_DATA_SIZE] == records[k].diffuseAdjust
  }

  /** Every record at its stride, and nothing after the last one. */
  ghost predicate HoldsRecords(bytes: seq<byte>, records: seq<InstanceRecord>)
  {
    |bytes| == |records| * PER_INSTANCE_DATA_SIZE
    && forall k: nat :: k < |records| ==> RecordAt(bytes, records, k)
  }

  /** The encoding holds every record at its stride. */
  lemma EncodeAllHoldsRecords(rs: seq<InstanceRecord>)
    ensures HoldsRecords(EncodeAll(rs), rs)
  {
    forall k: nat | k < |rs|
      ensures RecordAt(EncodeAll(rs), rs, k)
    {
      EncodeAllAt(rs, k);
    }
  }

  /** Record k of the encoding sits at byte k * 24. */
  lemma EncodeAllAt(rs: seq<InstanceRecord>, k: nat)
    requires k < |rs|
    ensures RecordAt(EncodeAll(rs), rs, k)
  {
    EncodeAllAround(rs, k);
    var p := EncodeAll(rs[..k]);
    assert |p| == k * PER_INSTANCE_DATA_SIZE;
    SliceOfMiddle(p, Encode(rs[k]), EncodeAll(rs[k + 1..]));
  }

  /** The encoding around record k: the records before it, its own bytes, the records after it. */
  lemma EncodeAllAround(rs: seq<InstanceRecord>, k: nat)
    requires k < |rs|
    ensures EncodeAll(rs) == EncodeAll(rs[..k]) + (Encode(rs[k]) + EncodeAll(rs[k + 1..]))
  {
    var before, x, after := rs[..k], rs[k], rs[k + 1..];
    SplitAround(rs, k);
    EncodeAllAppend(before, [x] + after);
    EncodeAllAppend([x], after);
    EncodeOne(x);
  }

  lemma SplitAround<T>(s: seq<T>, k: nat)
    requires k < |s|
    ensures s == s[..k] + ([s[k]] + s[k + 1..])
  {
    assert s[k..] == [s[k]] + s[k + 1..];
    assert s == s[..k] + s[k..];
  }

  lemma EncodeOne(x: InstanceRecord)
    ensures EncodeAll([x]) == Encode(x)
  {
    assert [x][..0] == [];
  }

  lemma SliceOfMiddle(p: seq<byte>, e: seq<byte>, q: seq<byte>)
    requires |e| == PER_INSTANCE_DATA_SIZE
    ensures (p + (e + q))[|p|..|p| + 12] == e[..12]
    ensures (p + (e + q))[|p| + 12..|p| + PER_INSTANCE_DATA_SIZE] == e[12..]
  {
    var w := p + (e + q);
    assert w[|p|..|p| + PER_INSTANCE_DATA_SIZE] == e;
  }

  /**
   * Rewriting the records `from` up to `stop` leaves every other byte as it
   * was: the records before `from` and the rest of the buffer after `stop`.
   */
  ghost predicate KeepsOutside(before: seq<byte>, after: seq<byte>, from: nat, stop: nat)
  {
    |before| == |after| && from <= stop && stop * PER_INSTANCE_DATA_SIZE <= |after| ==>
      after[..from * PER_INSTANCE_DATA_SIZE] == before[..from * PER_INSTANCE_DATA_SIZE]
      && after[stop * PER_INSTANCE_DATA_SIZE..] == before[stop * PER_INSTANCE_DATA_SIZE..]
  }

  /** The bytes start with the records: each one at its 24-byte stride. */
  ghost predicate StartsWithRecords(data: seq<byte>, records: seq<InstanceRecord>)
  {
    |records| * PER_INSTANCE_DATA_SIZE <= |data|
    && forall k: nat :: k < |records| ==> RecordAt(data, records, k)
  }

  /** The bytes start with the records exactly when their first |records| * 24 bytes are the records' encoding. */
  lemma StartsWithRecordsIsPrefix(data: seq<byte>, records: seq<InstanceRecord>)
    ensures StartsWithRecords(data, records)
            <==> |records| * PER_INSTANCE_DATA_SIZE <= |data|
                 && data[..|records| * PER_INSTANCE_DATA_SIZE] == EncodeAll(records)
  {
    var n := |records| * PER_INSTANCE_DATA_SIZE;
    if n <= |data| {
      PrefixHoldsRecords(data, records);
      EncodeAllHoldsRecords(records);
      if StartsWithRecords(data, records) {
        HoldsRecordsUnique(data[..n], EncodeAll(records), records);
      }
    }
  }

  /** The first |records| * 24 bytes hold the records exactly when the bytes start with them. */
  lemma PrefixHoldsRecords(data: seq<byte>, records: seq<InstanceRecord>)
    requires |records| * PER_INSTANCE_DATA_SIZE <= |data|
    ensures HoldsRecords(data[..|records| * PER_INSTANCE_DATA_SIZE], records) <==> StartsWithRecords(data, records)
  {
    var n := |records| * PER_INSTANCE_DATA_SIZE;
    forall k: nat | k < |records|
      ensures RecordAt(data[..n], records, k) <==> RecordAt(data, records, k)
    {
      MulMonotone(k + 1, |records|, PER_INSTANCE_DATA_SIZE);
      RecordAtPrefix(data, n, records, k);
    }
  }

  /** Cutting the bytes after record k keeps record k where it was. */
  lemma RecordAtPrefix(data: seq<byte>, n: nat, records: seq<InstanceRecord>, k: nat)
    requires n <= |data| && (k + 1) * PER_INSTANCE_DATA_SIZE <= n
    ensures RecordAt(data[..n], records, k) <==> RecordAt(data, records, k)
  {
    var a := k * PER_INSTANCE_DATA_SIZE;
    assert data[..n][a..a + 12] == data[a..a + 12];
    assert data[..n][a + 12..(k + 1) * PER_INSTANCE_DATA_SIZE] == data[a + 12..(k + 1) * PER_INSTANCE_DATA_SIZE];
  }

  /** The records determine the bytes that hold them. */
  lemma HoldsRecordsUnique(b1: seq<byte>, b2: seq<byte>, records: seq<InstanceRecord>)
    requires HoldsRecords(b1, records) && HoldsRecords(b2, records)
    ensures b1 == b2
  {
    forall i | 0 <= i < |b1|
      ensures b1[i] == b2[i]
    {
      var k, j := i / PER_INSTANCE_DATA_SIZE, i % PER_INSTANCE_DATA_SIZE;
      assert i == k * PER_INSTANCE_DATA_SIZE + j;
      assert k < |records| by {
        if k >= |records| {
          MulMonotone(|records|, k, PER_INSTANCE_DATA_SIZE);
        }
      }
      SameByteOfRecord(b1, b2, records, k, j);
    }
  }

  /** Byte j of record k is the same in any two byte arrays that hold it. */
  lemma SameByteOfRecord(b1: seq<byte>, b2: seq<byte>, records: seq<InstanceRecord>, k: nat, j: nat)
    requires RecordAt(b1, records, k) && RecordAt(b2, records, k) && j < PER_INSTANCE_DATA_SIZE
    ensures b1[k * PER_INSTANCE_DATA_SIZE + j] == b2[k * PER_INSTANCE_DATA_SIZE + j]
  {
    var a := k * PER_INSTANCE_DATA_SIZE;
    if j < 12 {
      assert b1[a + j] == b1[a..a + 12][j] == records[k].translate[j] == b2[a..a + 12][j];
    } else {
      assert b1[a + j] == b1[a + 12..a + PER_INSTANCE_DATA_SIZE][j - 12] == records[k].diffuseAdjust[j - 12]
                       == b2[a + 12..a + PER_INSTANCE_DATA_SIZE][j - 12];
    }
  }

  /** memcpy of `bytes` into `data` at `offset`: only those bytes change. */
  function MemCopy(data: seq<byte>, offset: nat, bytes: seq<byte>): (r: seq<byte>)
    requires offset + |bytes| <= |data|
    ensures |r| == |data|
    ensures r[offset..offset + |bytes|] == bytes
    ensures r[..offset] == data[..offset] && r[offset + |bytes|..] == data[offset + |bytes|..]
  {
    data[..offset] + bytes + data[offset + |bytes|..]
  }

  /** QByteArray::resize to n bytes: a shorter array keeps its bytes and gains `fill`, which is uninitialised memory. */
  function Resized(data: seq<byte>, n: nat, fill: seq<byte>): (r: seq<byte>)
    requires |data| <= n && |fill| == n - |data|
    ensures |r| == n && r[..|data|] == data
  {
    data + fill
  }

  /**
   * One iteration of ensureInstanceBuffer's loop: memcpy the translation to
   * `offset` and the diffuse adjustment to `offset + 12`. Together they put the
   * record's encoding at its offset and change nothing else.
   */
  function CopyRecord(data: seq<byte>, offset: nat, r: InstanceRecord): (d: seq<byte>)
    requires offset + PER_INSTANCE_DATA_SIZE <= |data|
    ensures d == data[..offset] + Encode(r) + data[offset + PER_INSTANCE_DATA_SIZE..]
  {
    var d1 := MemCopy(data, offset, r.translate);
    assert d1 == data[..offset] + r.translate + data[offset + 12..];
    assert d1[..offset + 12] == data[..offset] + r.translate;
    assert d1[offset + 24..] == data[offset + 24..];
    MemCopy(d1, offset + 12, r.diffuseAdjust)
  }

  /** ensureInstanceBuffer's `mInstData.resize(MAX_INSTANCES * PER_INSTANCE_DATA_SIZE)`: new bytes are uninitialised. */
  method ResizeForMaxInstances(data: seq<byte>) returns (r: seq<byte>)
    requires |data| <= INSTANCE_BUFFER_BYTES
    ensures |r| == INSTANCE_BUFFER_BYTES && r[..|data|] == data
  {
    // The bytes resize adds are arbitrary; the zero fill only shows that some exist.
    assert |seq(INSTANCE_BUFFER_BYTES - |data|, _ => 0 as byte)| == INSTANCE_BUFFER_BYTES - |data|;
    var fill: seq<byte> :| |fill| == INSTANCE_BUFFER_BYTES - |data|;
    r := Resized(data, INSTANCE_BUFFER_BYTES, fill);
  }

  /** Growing a byte array keeps the records its old bytes start with. */
  lemma GrowKeepsRecords(data: seq<byte>, grown: seq<byte>, records: seq<InstanceRecord>)
    requires |data| <= |grown| && grown[..|data|] == data
    requires StartsWithRecords(data, records)
    ensures StartsWithRecords(grown, records)
  {
    forall k: nat | k < |records|
      ensures RecordAt(grown, records, k)
    {
      MulMonotone(k + 1, |records|, PER_INSTANCE_DATA_SIZE);
      RecordAtPrefix(grown, |data|, records, k);
    }
  }

  /**
   * The loop of ensureInstanceBuffer: the records of instances from, ...,
   * to - 1, translation then diffuse adjustment, written in place at their
   * 24-byte strides; no other byte changes.
   */
  method WriteRecords(data: seq<byte>, from: nat, to: nat, gen: nat -> InstanceRecord) returns (out: seq<byte>)
    requires from <= to && to * PER_INSTANCE_DATA_SIZE <= |data|
    ensures out == data[..from * PER_INSTANCE_DATA_SIZE] + EncodeAll(Generated(gen, from, to))
                   + data[to * PER_INSTANCE_DATA_SIZE..]
  {
    out := data;
    var i := from;
    while i < to
      invariant from <= i <= to
      invariant |out| == |data|
      invariant out == data[..from * PER_INSTANCE_DATA_SIZE] + EncodeGenerated(gen, from, i)
                       + data[i * PER_INSTANCE_DATA_SIZE..]
    {
      var offset := i * PER_INSTANCE_DATA_SIZE;
      assert offset + PER_INSTANCE_DATA_SIZE <= |out| by {
        MulMonotone(i + 1, to, PER_INSTANCE_DATA_SIZE);
      }
      ghost var before := out;
      out := CopyRecord(out, offset, gen(i));
      WriteStep(data, from, i, gen, before);
      i := i + 1;
    }
    assert out == data[..from * PER_INSTANCE_DATA_SIZE] + EncodeGenerated(gen, from, to) + data[to * PER_INSTANCE_DATA_SIZE..];
    EncodeGeneratedIsEncodeAll(gen, from, to);
  }

  /**
   * EncodeAll(Generated(gen, from, stop)) built record by record from the
   * right, the way the loop writes it; it carries WriteRecords' invariant and
   * EncodeGeneratedIsEncodeAll equates the two.
   */
  function EncodeGenerated(gen: nat -> InstanceRecord, from: nat, stop: nat): (b: seq<byte>)
    requires from <= stop
    ensures |b| == (stop - from) * PER_INSTANCE_DATA_SIZE
    decreases stop
  {
    if stop == from then [] else EncodeGenerated(gen, from, stop - 1) + Encode(gen(stop - 1))
  }

  lemma {:induction false} EncodeGeneratedIsEncodeAll(gen: nat -> InstanceRecord, from: nat, stop: nat)
    requires from <= stop
    ensures EncodeGenerated(gen, from, stop) == EncodeAll(Generated(gen, from, stop))
    decreases stop
  {
    if stop > from {
      var prev := EncodeGenerated(gen, from, stop - 1);
      assert EncodeGenerated(gen, from, stop) == prev + Encode(gen(stop - 1));
      EncodeGeneratedIsEncodeAll(gen, from, stop - 1);
      GeneratedStep(gen, from, stop - 1);
    }
  }

  /** One loop step: writing record i's encoding in place keeps the loop's shape. */
  lemma WriteStep(base: seq<byte>, from: nat, i: nat, gen: nat -> InstanceRecord, before: seq<byte>)
    requires from <= i && (i + 1) * PER_INSTANCE_DATA_SIZE <= |base|
    requires before == base[..from * PER_INSTANCE_DATA_SIZE] + EncodeGenerated(gen, from, i)
                       + base[i * PER_INSTANCE_DATA_SIZE..]
    ensures before[..i * PER_INSTANCE_DATA_SIZE] + Encode(gen(i)) + before[(i + 1) * PER_INSTANCE_DATA_SIZE..]
            == base[..from * PER_INSTANCE_DATA_SIZE] + EncodeGenerated(gen, from, i + 1)
               + base[(i + 1) * PER_INSTANCE_DATA_SIZE..]
  {
    var f, n := from * PER_INSTANCE_DATA_SIZE, i * PER_INSTANCE_DATA_SIZE;
    assert f <= n && n + PER_INSTANCE_DATA_SIZE == (i + 1) * PER_INSTANCE_DATA_SIZE by {
      MulMonotone(from, i, PER_INSTANCE_DATA_SIZE);
    }
    var e := EncodeGenerated(gen, from, i);
    assert |e| == n - f by {
      assert (i - from) * PER_INSTANCE_DATA_SIZE == n - f;
    }
    SpliceStep(base, f, n, e, Encode(gen(i)), before);
  }

  /** Writing r at offset n of a splice whose middle ends at n extends that middle by r. */
  lemma SpliceStep(base: seq<byte>, f: nat, n: nat, e: seq<byte>, r: seq<byte>, before: seq<byte>)
    requires f <= n && n + |r| <= |base| && |e| == n - f
    requires before == base[..f] + e + base[n..]
    ensures before[..n] + r + before[n + |r|..] == base[..f] + (e + r) + base[n + |r|..]
  {
    var head, tail := base[..f] + e, base[n..];
    SplitConcat(head, tail, |r|);
    SuffixOfSuffix(base, n, |r|);
  }

  /** One more generated record adds its encoding at the end. */
  lemma GeneratedStep(gen: nat -> InstanceRecord, from: nat, i: nat)
    requires from <= i
    ensures EncodeAll(Generated(gen, from, i + 1)) == EncodeAll(Generated(gen, from, i)) + Encode(gen(i))
  {
    var g, g' := Generated(gen, from, i), Generated(gen, from, i + 1);
    assert g'[..|g'| - 1] == g && g'[|g'| - 1] == gen(i);
  }

  lemma SplitConcat(x: seq<byte>, y: seq<byte>, n: nat)
    requires n <= |y|
    ensures (x + y)[..|x|] == x && (x + y)[|x| + n..] == y[n..]
  {
  }

  lemma SuffixOfSuffix(s: seq<byte>, a: nat, b: nat)
    requires a + b <= |s|
    ensures s[a..][b..] == s[a + b..]
  {
  }

  /** The prefix of a splice is its first two parts. */
  lemma SplicePrefix(x: seq<byte>, y: seq<byte>, z: seq<byte>)
    ensures (x + y + z)[..|x| + |y|] == x + y
    ensures (x + y + z)[..|x|] == x
    ensures (x + y + z)[|x| + |y|..] == z
  {
    assert (x + y + z)[..|x| + |y|] == x + y;
    assert (x + y + z)[..|x|] == x;
  }

  /**
   * When the bytes start with the records of the first |records| instances,
   * writing the records of instances |records|, ..., to - 1 after them leaves
   * bytes that start with all `to` records, the old prefix kept and nothing
   * past `to` changed.
   */
  lemma WriteRecordsExtends(data: seq<byte>, records: seq<InstanceRecord>, to: nat, gen: nat -> InstanceRecord)
    requires StartsWithRecords(data, records) && |records| <= to && to * PER_INSTANCE_DATA_SIZE <= |data|
    ensures var added := Generated(gen, |records|, to);
            var out := data[..|records| * PER_INSTANCE_DATA_SIZE] + EncodeAll(added) + data[to * PER_INSTANCE_DATA_SIZE..];
            |out| == |data| && StartsWithRecords(out, records + added)
            && out[..|records| * PER_INSTANCE_DATA_SIZE] == data[..|records| * PER_INSTANCE_DATA_SIZE]
            && out[to * PER_INSTANCE_DATA_SIZE..] == data[to * PER_INSTANCE_DATA_SIZE..]
  {
    var added := Generated(gen, |records|, to);
    var out := data[..|records| * PER_INSTANCE_DATA_SIZE] + EncodeAll(added) + data[to * PER_INSTANCE_DATA_SIZE..];
    StartsWithRecordsIsPrefix(data, records);
    SplicePrefix(data[..|records| * PER_INSTANCE_DATA_SIZE], EncodeAll(added), data[to * PER_INSTANCE_DATA_SIZE..]);
    EncodeAllAppend(records, added);
    StartsWithRecordsIsPrefix(out, records + added);
  }

  // ---------------------------------------------------------------------------
  // The instance count

  /** renderer.cpp `addNew`: `qMin(mInstCount + 16, MAX_INSTANCES)`. */
  function GrownInstanceCount(count: int): (r: int)
    ensures r <= MAX_INSTANCES
    ensures count <= MAX_INSTANCES ==> count <= r
    ensures count <= MAX_INSTANCES - 16 ==> r == count + 16
    ensures count >= MAX_INSTANCES - 16 ==> r == MAX_INSTANCES
  {
    if MAX_INSTANCES < count + 16 then MAX_INSTANCES else count + 16
  }

  /** The count after k calls of addNew. */
  function CountAfterAdds(count: int, k: nat): int
    decreases k
  {
    if k == 0 then count else CountAfterAdds(GrownInstanceCount(count), k - 1)
  }

  /** k calls of addNew add 16 each until the count reaches its cap, and stay there. */
  lemma {:induction false} CountAfterAddsSaturates(count: int, k: nat)
    requires count <= MAX_INSTANCES
    ensures CountAfterAdds(count, k) == if count + 16 * k <= MAX_INSTANCES then count + 16 * k else MAX_INSTANCES
    decreases k
  {
    if k > 0 {
      CountAfterAddsSaturates(GrownInstanceCount(count), k - 1);
    }
  }

  // ---------------------------------------------------------------------------
  // The upload into the instance buffer

  /** A memcpy into a mapped range: how many bytes are mapped and how many are copied. */
  datatype MappedCopy = MappedCopy(mappedBytes: int, copiedBytes: nat)

  /**
   * renderer.cpp, end of ensureInstanceBuffer as written: it maps
   * `mInstCount * PER_INSTANCE_DATA_SIZE` bytes and copies `mInstData.size()`.
   */
  function InstanceUploadAsWritten(instCount: int, instData: seq<byte>): MappedCopy
  {
    MappedCopy(instCount * PER_INSTANCE_DATA_SIZE, |instData|)
  }

  /**
   * After the CPU copy has been sized for MAX_INSTANCES, every upload with
   * fewer instances copies past the end of the mapped range.
   */
  lemma AsWrittenUploadOverrunsMapping(instCount: int, instData: seq<byte>)
    requires |instData| == INSTANCE_BUFFER_BYTES && instCount < MAX_INSTANCES
    ensures InstanceUploadAsWritten(instCount, instData).copiedBytes
            >= InstanceUploadAsWritten(instCount, instData).mappedBytes + PER_INSTANCE_DATA_SIZE
  {
  }

  // Worked example: concrete values for AsWrittenUploadOverrunsMapping above.

  /** With the 16 instances of a first addNew, 384 bytes are mapped and 393216 copied. */
  lemma AsWrittenUploadExample(instData: seq<byte>)
    requires |instData| == INSTANCE_BUFFER_BYTES
    ensures InstanceUploadAsWritten(16, instData) == MappedCopy(384, 393216)
  {
  }

  /** The intended upload: the bytes of the mInstCount prepared records, which is exactly the mapped range. */
  function InstanceUpload(instCount: nat, instData: seq<byte>): (bytes: seq<byte>)
    requires instCount * PER_INSTANCE_DATA_SIZE <= |instData|
    ensures |bytes| == instCount * PER_INSTANCE_DATA_SIZE
  {
    instData[..instCount * PER_INSTANCE_DATA_SIZE]
  }

  /**
   * When the CPU copy starts with the records' encoding, the intended upload
   * is that encoding: record k's translation and adjustment at k * 24 and k * 24 + 12.
   */
  lemma InstanceUploadIsRecords(records: seq<InstanceRecord>, instData: seq<byte>)
    requires StartsWithRecords(instData, records)
    ensures InstanceUpload(|records|, instData) == EncodeAll(records)
    ensures HoldsRecords(InstanceUpload(|records|, instData), records)
  {
    StartsWithRecordsIsPrefix(instData, records);
    EncodeAllHoldsRecords(records);
  }
}
