/**
 * The per-channel MiniSEED writer of src/wmseed.h: a sample FIFO drained into fixed-size
 * records at every accepted time anchor, records written to files cut at UTC-aligned times.
 */
module Writer {
  import opened Wrappers
  import opened Clock
  import opened Paths
  import Bytes

  // ----- arithmetic of wmseed_time -----

  /** C's `/` on integers: the quotient truncated toward zero. */
  function TDiv(a: int, b: int): int
    requires b != 0
  {
    if a >= 0 then (if b > 0 then a / b else -(a / -b))
    else (if b > 0 then -((-a) / b) else (-a) / (-b))
  }

  /** C's `%` on integers: the remainder that goes with TDiv. */
  function TMod(a: int, b: int): int
    requires b != 0
  {
    a - b * TDiv(a, b)
  }

  /** wmseed__div: the truncated quotient, one less when the remainder is negative. */
  function WDiv(a: int, b: int): int
    requires b != 0
  {
    TDiv(a, b) - (if TMod(a, b) < 0 then 1 else 0)
  }

  /** For a positive divisor wmseed__div is floor division. */
  lemma WDivIsFloor(a: int, b: int)
    requires b > 0
    ensures WDiv(a, b) * b <= a < (WDiv(a, b) + 1) * b
    ensures WDiv(a, b) == a / b
  {
    if a < 0 {
      var q, m := (-a) / b, (-a) % b;
      assert -a == b * q + m;
      assert TDiv(a, b) == -q;
      assert TMod(a, b) == -m;
      if m == 0 {
        assert a == b * (-q) + 0;
      } else {
        assert a == b * (-q - 1) + (b - m);
      }
      Bytes.ModOfSum(a, b, WDiv(a, b), a - b * WDiv(a, b));
    } else {
      Bytes.ModOfSum(a, b, a / b, a % b);
    }
  }

  /** ceil of an exact real. */
  function Ceil(x: real): (n: int)
    ensures (n - 1) as real < x <= n as real
  {
    -((-x).Floor)
  }

  /** round of an exact real: to the nearest integer, halves away from zero. */
  function Round(x: real): (n: int)
    ensures n as real - 0.5 <= x <= n as real + 0.5
    ensures x >= 0.0 ==> n >= 0
    ensures x >= 0.0 ==> x < n as real + 0.5
    ensures x < 0.0 ==> n as real - 0.5 < x
  {
    if x >= 0.0 then (x + 0.5).Floor else -((-x + 0.5).Floor)
  }

  /** Rounding keeps a value that lies between two integers between them. */
  lemma RoundWithin(x: real, lo: int, hi: int)
    requires lo as real <= x <= hi as real
    ensures lo <= Round(x) <= hi
  {
  }

  /** Anchors closer than this many samples to the previous one are ignored. */
  const MinAnchorGap := 1008 * 20

  /** The interpolation slope `a`: microseconds per sample between two anchors. */
  function Slope(lastT: int, lastSn: int, t: int, sn: int): real
    requires sn > lastSn
  {
    (t - lastT) as real / (sn - lastSn) as real
  }

  /** The time interpolated for sample `n`. */
  function Interpolate(lastT: int, lastSn: int, a: real, n: int): int
  {
    lastT + Round((n - lastSn) as real * a)
  }

  /** The cut time: the start of the cut bucket of `t`, shifted by the UTC offset. */
  function SplitTime(t: int, cut: int, off: int): int
    requires cut != 0
  {
    WDiv(t - off, cut) * cut + off
  }

  /** The sample number the file is cut at, or -1 when the two anchors share a bucket or cutting is off. */
  function SplitIndex(lastT: int, lastSn: int, t: int, sn: int, cut: int, off: int): int
    requires sn > lastSn
  {
    if cut != 0 && WDiv(lastT - off, cut) != WDiv(t - off, cut) then
      lastSn + Ceil((SplitTime(t, cut, off) - lastT) as real / Slope(lastT, lastSn, t, sn))
    else -1
  }

  lemma MulMono(x: int, y: int, c: int)
    requires x <= y && c > 0
    ensures x * c <= y * c
  {
    assert y * c - x * c == (y - x) * c;
  }

  /** With a positive cut and distinct buckets, the cut time lies after the last anchor and no later than the new one. */
  lemma SplitTimeBetween(lastT: int, t: int, cut: int, off: int)
    requires cut > 0 && lastT < t && WDiv(lastT - off, cut) != WDiv(t - off, cut)
    ensures lastT < SplitTime(t, cut, off) <= t
  {
    WDivIsFloor(lastT - off, cut);
    WDivIsFloor(t - off, cut);
    var q0, q := WDiv(lastT - off, cut), WDiv(t - off, cut);
    if q < q0 {
      MulMono(q + 1, q0, cut);
      assert false;
    }
    MulMono(q0 + 1, q, cut);
  }

  /** Scaling a part of a whole: 0 < s <= d puts s / (d / n) in (0, n]. */
  lemma RatioWithin(s: real, d: real, n: real)
    requires 0.0 < s <= d && n > 0.0
    ensures 0.0 < s / (d / n) <= n
  {
    assert s / (d / n) == s * n / d;
    assert s * n <= d * n;
    assert d * n / d == n;
  }

  /** A file cut falls on a sample after the last anchor and no later than the new one. */
  lemma SplitIndexBetween(lastT: int, lastSn: int, t: int, sn: int, cut: int, off: int)
    requires cut > 0 && lastT < t && 0 <= lastSn < sn
    ensures SplitIndex(lastT, lastSn, t, sn, cut, off) != -1 ==> lastSn < SplitIndex(lastT, lastSn, t, sn, cut, off) <= sn
    ensures SplitIndex(lastT, lastSn, t, sn, cut, off) != -1 <==> WDiv(lastT - off, cut) != WDiv(t - off, cut)
  {
    if WDiv(lastT - off, cut) != WDiv(t - off, cut) {
      SplitTimeBetween(lastT, t, cut, off);
      RatioWithin((SplitTime(t, cut, off) - lastT) as real, (t - lastT) as real, (sn - lastSn) as real);
    }
  }

  /** Scaling both sides of `lo < x <= hi` by a positive factor. */
  lemma ScaleWithin(lo: real, x: real, hi: real, a: real)
    requires lo < x <= hi && a > 0.0
    ensures lo * a < x * a <= hi * a
  {
    assert (x - lo) * a > 0.0;
    assert (hi - x) * a >= 0.0;
  }

  /**
   * The cut sample is the first whose exact offset from the last anchor reaches the cut time:
   * the sample before it falls short of the cut time, the cut sample does not.
   */
  lemma SplitIndexFirst(lastT: int, lastSn: int, t: int, sn: int, cut: int, off: int)
    requires cut > 0 && lastT < t && lastSn < sn && WDiv(lastT - off, cut) != WDiv(t - off, cut)
    ensures var a := Slope(lastT, lastSn, t, sn);
            var n := SplitIndex(lastT, lastSn, t, sn, cut, off) - lastSn;
            var s := (SplitTime(t, cut, off) - lastT) as real;
            (n - 1) as real * a < s <= n as real * a
  {
    var a := Slope(lastT, lastSn, t, sn);
    var s := (SplitTime(t, cut, off) - lastT) as real;
    var n := Ceil(s / a);
    assert SplitIndex(lastT, lastSn, t, sn, cut, off) - lastSn == n;
    ScaleWithin((n - 1) as real, s / a, n as real, a);
    assert s / a * a == s;
  }

  /**
   * Rounding can stamp the sample before the cut exactly at the cut time although it stays in
   * the old file: 33 µs over 10 samples (3.3 µs each) with the cut time 10 µs after last_t cuts
   * at sample 4, and sample 3, 9.9 µs after last_t, is stamped at the cut time.
   */
  lemma RoundStampsBeforeCut()
    ensures SplitTime(33, 40, 10) == 10
    ensures SplitIndex(0, 0, 33, 10, 40, 10) == 4
    ensures Interpolate(0, 0, Slope(0, 0, 33, 10), 3) == SplitTime(33, 40, 10)
  {
    assert WDiv(-10, 40) == -1 && WDiv(23, 40) == 0;
    assert Slope(0, 0, 33, 10) == 3.3;
    assert 10.0 / 3.3 == 100.0 / 33.0;
    assert Ceil(100.0 / 33.0) == 4;
    assert Round(3.0 * 3.3) == 10;
  }

  /**
   * The cut can fall on the new anchor's own sample: 33 µs over 10 samples with the cut time
   * 30 µs after last_t gives the cut sample 10, the anchor's sample number.
   */
  lemma SplitAtAnchor()
    ensures SplitTime(33, 40, 30) == 30
    ensures SplitIndex(0, 0, 33, 10, 40, 30) == 10
  {
    assert WDiv(-30, 40) == -1 && WDiv(3, 40) == 0;
    assert Slope(0, 0, 33, 10) == 3.3;
    assert 30.0 / 3.3 == 100.0 / 11.0;
    assert Ceil(100.0 / 11.0) == 10;
  }

  /** Every interpolated time between two anchors lies between their times. */
  lemma InterpolateWithin(lastT: int, lastSn: int, t: int, sn: int, n: int)
    requires lastT < t && lastSn < sn && lastSn <= n <= sn
    ensures lastT <= Interpolate(lastT, lastSn, Slope(lastT, lastSn, t, sn), n) <= t
  {
    var d := (t - lastT) as real;
    var k := (sn - lastSn) as real;
    var j := (n - lastSn) as real;
    var x := j * Slope(lastT, lastSn, t, sn);
    assert x == j * d / k;
    assert 0.0 <= x <= d by {
      assert j * d <= k * d;
    }
    RoundWithin(x, 0, t - lastT);
  }

  /** How many of `count` buffered samples, the first numbered `head`, are numbered at most `sn`. */
  function Drained(head: int, count: nat, sn: int): (k: nat)
    ensures k <= count
    ensures k < count ==> head + k > sn
    ensures k > 0 ==> head + k - 1 <= sn
  {
    if sn < head then 0 else if sn - head + 1 < count then sn - head + 1 else count
  }

  // ----- records and files -----

  /** A MiniSEED record as far as the writer sees it: its number, start time, leap-second flag and samples. */
  datatype Record = Record(number: int, time: int, leap: bool, samples: seq<int>)

  /** An output file: its name, the directory made for it, the records written to it. */
  datatype OutFile = OutFile(name: string, dir: string, records: seq<Record>)

  function RecordSamples(records: seq<Record>): seq<int>
  {
    if records == [] then [] else RecordSamples(records[..|records| - 1]) + records[|records| - 1].samples
  }

  /** Every sample written, file after file, record after record. */
  function Written(files: seq<OutFile>): seq<int>
  {
    if files == [] then [] else Written(files[..|files| - 1]) + RecordSamples(files[|files| - 1].records)
  }

  /** The files after `rec` is written to the last (open) one. */
  function AppendRecord(files: seq<OutFile>, rec: Record): (r: seq<OutFile>)
    requires |files| > 0
    ensures |r| == |files|
  {
    var last := files[|files| - 1];
    files[..|files| - 1] + [last.(records := last.records + [rec])]
  }

  lemma RecordSamplesSnoc(records: seq<Record>, rec: Record)
    ensures RecordSamples(records + [rec]) == RecordSamples(records) + rec.samples
  {
    assert (records + [rec])[..|records|] == records;
  }

  lemma WrittenSnoc(files: seq<OutFile>, f: OutFile)
    ensures Written(files + [f]) == Written(files) + RecordSamples(f.records)
  {
    assert (files + [f])[..|files|] == files;
  }

  /** Writing a record adds exactly its samples to what is written. */
  lemma AppendRecordWritten(files: seq<OutFile>, rec: Record)
    requires |files| > 0
    ensures Written(AppendRecord(files, rec)) == Written(files) + rec.samples
  {
    var n := |files|;
    var last := files[n - 1];
    var r := AppendRecord(files, rec);
    assert r[..n - 1] == files[..n - 1];
    assert r[n - 1] == last.(records := last.records + [rec]);
    RecordSamplesSnoc(last.records, rec);
  }

  /** Opening a new file adds nothing to what is written. */
  lemma NewFileWritten(files: seq<OutFile>, f: OutFile)
    requires f.records == []
    ensures Written(files + [f]) == Written(files)
  {
    WrittenSnoc(files, f);
  }

  /** What was drained: `e0 + items == e + items[j..]` leaves `e == e0 + items[..j]`. */
  lemma SplitOff(e0: seq<int>, items: seq<int>, e: seq<int>, j: nat)
    requires j <= |items| && e + items[j..] == e0 + items
    ensures e == e0 + items[..j]
  {
    assert items == items[..j] + items[j..];
    assert |e| == |e0| + j;
    assert e0 + items == (e0 + items[..j]) + items[j..];
    assert e == (e + items[j..])[..|e|];
  }

  /** No record written is empty or holds more samples than fit. */
  predicate RecordsFit(files: seq<OutFile>, capacity: nat)
  {
    forall i, j :: 0 <= i < |files| && 0 <= j < |files[i].records| ==>
      1 <= |files[i].records[j].samples| <= capacity
  }

  lemma AppendRecordFits(files: seq<OutFile>, rec: Record, capacity: nat)
    requires |files| > 0 && RecordsFit(files, capacity) && 1 <= |rec.samples| <= capacity
    ensures RecordsFit(AppendRecord(files, rec), capacity)
  {
    var r := AppendRecord(files, rec);
    forall i, j | 0 <= i < |r| && 0 <= j < |r[i].records|
      ensures 1 <= |r[i].records[j].samples| <= capacity
    {
      if i < |files| - 1 {
        assert r[i] == files[i];
      } else if j < |files[i].records| {
        assert r[i].records[j] == files[i].records[j];
      }
    }
  }

  /** The files after wmseed__new_record writes the pending record, if any, flagged for a leap second when `leap`. */
  function Flushed(files: seq<OutFile>, pending: bool, rec: Record, leap: bool): seq<OutFile>
    requires pending ==> |files| > 0
  {
    if pending then AppendRecord(files, rec.(leap := leap)) else files
  }

  /** `g` is the file `f` with records appended: the same name and directory, `f`'s records first. */
  predicate Extends(f: OutFile, g: OutFile)
  {
    g.name == f.name && g.dir == f.dir && f.records <= g.records
  }

  /** The files `files` grew from `f0`, whose last `n`-th file was open: the earlier files are untouched and the open one only extended. */
  predicate Grown(f0: seq<OutFile>, files: seq<OutFile>, n: nat)
  {
    1 <= n <= |f0| && n <= |files| && files[..n - 1] == f0[..n - 1] && Extends(f0[n - 1], files[n - 1])
  }

  lemma ExtendsTrans(f: OutFile, g: OutFile, h: OutFile)
    requires Extends(f, g) && Extends(g, h)
    ensures Extends(f, h)
  {
    assert f.records == g.records[..|f.records|];
    assert g.records == h.records[..|g.records|];
  }

  /** Writing a record changes only the open file, and only by appending to it. */
  lemma AppendRecordGrows(f0: seq<OutFile>, files: seq<OutFile>, n: nat, rec: Record)
    requires Grown(f0, files, n)
    ensures Grown(f0, AppendRecord(files, rec), n)
    ensures AppendRecord(files, rec)[..|files| - 1] == files[..|files| - 1]
    ensures Extends(files[|files| - 1], AppendRecord(files, rec)[|files| - 1])
  {
    var r := AppendRecord(files, rec);
    var last := files[|files| - 1];
    assert last.records <= last.records + [rec];
    if n < |files| {
      assert r[..n] == files[..n];
      assert r[..n - 1] == files[..n - 1];
    } else {
      ExtendsTrans(f0[n - 1], files[n - 1], r[n - 1]);
    }
  }

  /** A drain step that writes a record, or nothing, keeps the files grown from `f0`; a file cut before keeps its place. */
  lemma StepGrows(f0: seq<OutFile>, n: nat, before: seq<OutFile>, after: seq<OutFile>, rec: Record, appended: bool)
    requires Grown(f0, before, n) && |before| <= n + 1
    requires after == if appended then AppendRecord(before, rec) else before
    ensures Grown(f0, after, n) && |after| == |before|
    ensures |before| == n + 1 ==> after[..n] == before[..n] && Extends(before[n], after[n])
  {
    if appended {
      AppendRecordGrows(f0, before, n, rec);
    }
  }

  /** Opening a file after the `n` files grown from `f0` keeps them and puts the new file at index `n`. */
  lemma CutGrows(f0: seq<OutFile>, n: nat, flushed: seq<OutFile>, f: OutFile)
    requires Grown(f0, flushed, n) && |flushed| == n
    ensures Grown(f0, flushed + [f], n) && (flushed + [f])[..n] == flushed && (flushed + [f])[n] == f
  {
    assert (flushed + [f])[..n - 1] == flushed[..n - 1];
  }

  // ----- the writer -----

  /** The WMSeed structure; `capacity` stands for the size of a record, `tai` for tai.h. */
  class WMSeed {
    const template: string
    const names: Names
    const sampleRate: real
    const cut: int
    const tai: Tai
    const capacity: nat

    /** The sample buffer: the number of its first sample and the samples not yet drained. */
    var sbHead: int
    var sbItems: seq<int>
    var recordNumber: int
    var recordTime: int
    var record: Record
    var dataPending: bool
    /** Everything fopen'd and fwrite'n, the open file last. */
    var files: seq<OutFile>
    var lastT: int
    var lastSn: int
    /**
     * The process has ended inside wmseed__create_file: the template named no file, and
     * wmseed__dirname read through the null name. Nothing calls a halted writer.
     */
    var halted: bool
    /** Every sample handed to Sample, in order. */
    ghost var pushed: seq<int>

    /** The samples drained so far: those written and those in the pending record. */
    ghost function Emitted(): seq<int>
      reads this
    {
      Written(files) + record.samples
    }

    /** The file wmseed__create_file opens for time `t`: the template's name for `t`, in its directory. */
    function NamedFile(t: int): (f: OutFile)
      requires WellFormedTemplate(template)
      ensures f.records == [] && Expand(template, tai.date(t), tai.yearDay(t), names) == Some(f.name)
      ensures f.dir == Dirname(f.name)
    {
      var name := FileName(template, tai.date(t), tai.yearDay(t), names);
      OutFile(name, Dirname(name), [])
    }

    /** What holds between any two steps: records, the open file and the sample count. */
    ghost predicate Stable()
      reads this
    {
      && capacity >= 1
      && (|files| > 0 ==> WellFormedTemplate(template))
      && (dataPending <==> |record.samples| > 0)
      && |record.samples| <= capacity
      && !record.leap
      && record.time == recordTime
      && (dataPending ==> |files| > 0)
      && RecordsFit(files, capacity)
      && sbHead == |Emitted()|
      && Emitted() + sbItems == pushed
    }

    /** Stable, and nothing is buffered or written before the first anchor. */
    ghost predicate Valid()
      reads this
    {
      && Stable()
      && (lastSn == -1 ==> files == [] && sbItems == [] && !halted)
      && (lastSn != -1 ==> lastSn >= 0)
      && (lastSn != -1 && !halted ==> |files| > 0)
    }

    /** Valid, past the first anchor and not halted: a file is open. */
    ghost predicate Running()
      reads this
    {
      Valid() && !halted && lastSn >= 0
    }

    /** wmseed_new; `cutSeconds` is the cut interval in seconds, 0 for none. Any template is taken. */
    constructor (template: string, names: Names, sampleRate: real, cutSeconds: int, tai: Tai, capacity: nat)
      requires capacity >= 1
      ensures Valid() && pushed == [] && !halted
      ensures this.template == template && this.names == names && this.sampleRate == sampleRate
      ensures this.cut == cutSeconds * 1000000 && this.tai == tai && this.capacity == capacity
      ensures lastSn == -1 && lastT == 0 && files == [] && !dataPending
      ensures sbHead == 0 && sbItems == [] && recordNumber == 0
    {
      this.template := template;
      this.names := names;
      this.sampleRate := sampleRate;
      this.cut := cutSeconds * 1000000;
      this.tai := tai;
      this.capacity := capacity;
      sbHead := 0;
      sbItems := [];
      recordNumber := 0;
      recordTime := 0;
      record := Record(0, 0, false, []);
      dataPending := false;
      files := [];
      lastT := 0;
      lastSn := -1;
      halted := false;
      pushed := [];
      new;
      assert Emitted() == [];
    }

    /** wmseed_sample: refused until the first anchor, then buffered. */
    method Sample(x: int) returns (r: int)
      requires Valid() && !halted
      modifies this
      ensures Valid() && !halted
      ensures old(lastSn) < 0 ==> r == -1 && unchanged(this)
      ensures old(lastSn) >= 0 ==> r == 0 && sbItems == old(sbItems) + [x] && pushed == old(pushed) + [x]
      ensures old(lastSn) >= 0 ==> sbHead == old(sbHead) && files == old(files) && record == old(record)
      ensures old(lastSn) >= 0 ==> dataPending == old(dataPending) && lastT == old(lastT) && lastSn == old(lastSn)
      ensures recordNumber == old(recordNumber) && recordTime == old(recordTime)
    {
      if lastSn < 0 {
        return -1;
      }
      sbItems := sbItems + [x];
      pushed := pushed + [x];
      r := 0;
    }

    /** wmseed__flush: the pending record goes to the open file. */
    method Flush()
      requires dataPending ==> |files| > 0
      modifies this
      ensures files == if old(dataPending) then AppendRecord(old(files), old(record)) else old(files)
      ensures !dataPending
      ensures record == old(record) && recordNumber == old(recordNumber) && recordTime == old(recordTime)
      ensures sbHead == old(sbHead) && sbItems == old(sbItems) && pushed == old(pushed)
      ensures lastT == old(lastT) && lastSn == old(lastSn) && halted == old(halted)
    {
      if dataPending {
        files := AppendRecord(files, record);
        dataPending := false;
      }
    }

    /**
     * wmseed__new_record: a pending record is flagged for a leap second when the UTC offset
     * changed since it started, and written; a fresh record numbered one more starts at `t`.
     */
    method NewRecord(t: int)
      requires Stable()
      modifies this
      ensures Stable() && |files| == |old(files)|
      ensures files == Flushed(old(files), old(dataPending), old(record), tai.utcDiff(old(recordTime)) != tai.utcDiff(t))
      ensures Emitted() == old(Emitted())
      ensures recordNumber == old(recordNumber) + 1 && recordTime == t
      ensures record == Record(old(recordNumber) + 1, t, false, []) && !dataPending
      ensures sbHead == old(sbHead) && sbItems == old(sbItems) && pushed == old(pushed)
      ensures lastT == old(lastT) && lastSn == old(lastSn) && halted == old(halted)
    {
      ghost var before := Emitted();
      if dataPending {
        if tai.utcDiff(recordTime) != tai.utcDiff(t) {
          record := record.(leap := true);
        }
        AppendRecordWritten(files, record);
        AppendRecordFits(files, record, capacity);
        Flush();
      }
      recordNumber := recordNumber + 1;
      recordTime := t;
      dataPending := false;
      record := Record(recordNumber, t, false, []);
      assert Emitted() == Written(files);
      assert Written(files) == before;
    }

    /**
     * wmseed__create_file: the record number restarts, the pending record goes to the old file,
     * and a file named by the template for `t` is opened (its directory made first). A template
     * that names no file halts the writer.
     */
    method CreateFile(t: int)
      requires Stable() && !halted
      modifies this
      ensures Stable()
      ensures halted <==> !WellFormedTemplate(template)
      ensures var flushed := Flushed(old(files), old(dataPending), old(record), tai.utcDiff(old(recordTime)) != tai.utcDiff(t));
              files == if halted then flushed else flushed + [NamedFile(t)]
      ensures Emitted() == old(Emitted())
      ensures recordNumber == 1 && recordTime == t && record == Record(1, t, false, []) && !dataPending
      ensures sbHead == old(sbHead) && sbItems == old(sbItems) && pushed == old(pushed)
      ensures lastT == old(lastT) && lastSn == old(lastSn)
    {
      recordNumber := 0;
      NewRecord(t);
      assert recordNumber == 1 && record == Record(1, t, false, []);
      OpenFile(t);
    }

    /**
     * The opening half of wmseed__create_file: the file the template names for `t`, in its
     * directory. A template with an unknown code or a trailing '%' names no file; the C then
     * hands the null name to wmseed__dirname, and the writer halts with no file opened.
     */
    method OpenFile(t: int)
      requires Stable() && !dataPending && !halted
      modifies this
      ensures Stable()
      ensures halted <==> !WellFormedTemplate(template)
      ensures files == if halted then old(files) else old(files) + [NamedFile(t)]
      ensures Emitted() == old(Emitted())
      ensures recordNumber == old(recordNumber) && recordTime == old(recordTime) && record == old(record)
      ensures dataPending == old(dataPending) && sbHead == old(sbHead) && sbItems == old(sbItems)
      ensures pushed == old(pushed) && lastT == old(lastT) && lastSn == old(lastSn)
    {
      var date := tai.date(t);
      ExpandSucceeds(template, date, tai.yearDay(t), names);
      var name := Filename(template, date, tai.yearDay(t), names);
      if name.None? {
        halted := true;
        return;
      }
      var dir := DirnameOf(name.value);
      AddFile(OutFile(name.value, dir, []));
    }

    /** fopen: a new file with no records becomes the open file. */
    method AddFile(f: OutFile)
      requires Stable() && !dataPending && f.records == [] && WellFormedTemplate(template)
      modifies this
      ensures Stable() && files == old(files) + [f] && Emitted() == old(Emitted())
      ensures recordNumber == old(recordNumber) && recordTime == old(recordTime) && record == old(record)
      ensures dataPending == old(dataPending) && sbHead == old(sbHead) && sbItems == old(sbItems)
      ensures pushed == old(pushed) && lastT == old(lastT) && lastSn == old(lastSn) && halted == old(halted)
    {
      NewFileWritten(files, f);
      files := files + [f];
    }

    /**
     * The drain of wmseed_time: every buffered sample numbered at most `sn` goes into records.
     * The files open before stay as they were, except that the open one is extended; when
     * the cut sample is among those drained, every sample before it is in those files and
     * the file the template names for its interpolated time holds the rest.
     */
    method Drain(sn: int, a: real, split: int)
      requires Running()
      modifies this
      ensures Running()
      ensures pushed == old(pushed) && lastT == old(lastT) && lastSn == old(lastSn)
      ensures var k := Drained(old(sbHead), |old(sbItems)|, sn);
              && sbHead == old(sbHead) + k
              && sbItems == old(sbItems)[k..]
              && Emitted() == old(Emitted()) + old(sbItems)[..k]
      ensures Grown(old(files), files, |old(files)|)
      ensures var n, k := |old(files)|, Drained(old(sbHead), |old(sbItems)|, sn);
              if old(sbHead) <= split < old(sbHead) + k then
                && |files| == n + 1
                && Written(files[..n]) == pushed[..split]
                && Extends(NamedFile(Interpolate(lastT, lastSn, a, split)), files[n])
              else |files| == n
    {
      ghost var head0, items0, emitted0, f0 := sbHead, sbItems, Emitted(), files;
      ghost var n := |files|;
      ghost var k := Drained(head0, |items0|, sn);
      ghost var j := 0;
      while |sbItems| > 0 && sbHead <= sn
        invariant Draining(f0, n, head0, split, a) && lastSn == old(lastSn) && lastT == old(lastT) && pushed == old(pushed)
        invariant 0 <= j <= k && sbHead == head0 + j && sbItems == items0[j..]
        decreases |sbItems|
      {
        DrainNext(a, split, f0, n, head0);
        j := j + 1;
      }
      SplitOff(emitted0, items0, Emitted(), j);
    }

    /**
     * What the drain loop keeps: the files grown from `f0`, whose `n`-th was open when the
     * drain began at sample `head0`, and once the cut sample is past, the cut in its place.
     */
    ghost predicate Draining(f0: seq<OutFile>, n: nat, head0: int, split: int, a: real)
      reads this
    {
      && Running()
      && Grown(f0, files, n)
      && 0 <= head0 <= sbHead
      && |files| == n + (if head0 <= split < sbHead then 1 else 0)
      && (head0 <= split < sbHead ==>
            && split <= |pushed| && Written(files[..n]) == pushed[..split]
            && WellFormedTemplate(template) && Extends(NamedFile(Interpolate(lastT, lastSn, a, split)), files[n]))
    }

    /** One pass of the drain loop, keeping what the loop keeps. */
    method DrainNext(a: real, split: int, ghost f0: seq<OutFile>, ghost n: nat, ghost head0: int)
      requires Draining(f0, n, head0, split, a) && |sbItems| > 0
      modifies this
      ensures Draining(f0, n, head0, split, a)
      ensures sbHead == old(sbHead) + 1 && sbItems == old(sbItems)[1..]
      ensures pushed == old(pushed) && lastT == old(lastT) && lastSn == old(lastSn)
    {
      ghost var before, e, h := files, Emitted(), sbHead;
      ghost var p0, rec0, rt0 := dataPending, record, recordTime;
      DrainOne(a, split);
      ghost var tt := Interpolate(lastT, lastSn, a, h);
      ghost var leap := tai.utcDiff(rt0) != tai.utcDiff(tt);
      if h == split {
        ghost var flushed := Flushed(before, p0, rec0, leap);
        StepGrows(f0, n, before, flushed, rec0.(leap := leap), p0);
        CutGrows(f0, n, flushed, NamedFile(tt));
        assert e + old(sbItems) == pushed;
        assert e == pushed[..split];
      } else {
        StepGrows(f0, n, before, files, rec0.(leap := leap), |rec0.samples| >= capacity);
        if head0 <= split < h {
          ExtendsTrans(NamedFile(Interpolate(lastT, lastSn, a, split)), before[n], files[n]);
        }
      }
    }

    /**
     * One pass of the drain loop: when the oldest sample is the cut sample, the file is cut
     * first, at the sample's interpolated time, so the sample opens the new file's first record.
     */
    method DrainOne(a: real, split: int)
      requires Running() && |sbItems| > 0
      modifies this
      ensures Running()
      ensures sbHead == old(sbHead) + 1 && sbItems == old(sbItems)[1..]
      ensures Emitted() == old(Emitted()) + [old(sbItems)[0]]
      ensures pushed == old(pushed) && lastT == old(lastT) && lastSn == old(lastSn)
      ensures old(sbHead) == split ==>
                var tt := Interpolate(lastT, lastSn, a, split);
                var flushed := Flushed(old(files), old(dataPending), old(record), tai.utcDiff(old(recordTime)) != tai.utcDiff(tt));
                && files == flushed + [NamedFile(tt)]
                && Written(flushed) == old(Emitted())
                && record == Record(1, tt, false, [old(sbItems)[0]]) && recordNumber == 1 && recordTime == tt
      ensures old(sbHead) != split ==>
                var tt := Interpolate(lastT, lastSn, a, old(sbHead));
                if |old(record).samples| >= capacity then
                  && files == AppendRecord(old(files), old(record).(leap := tai.utcDiff(old(recordTime)) != tai.utcDiff(tt)))
                  && record == Record(old(recordNumber) + 1, tt, false, [old(sbItems)[0]])
                  && recordNumber == old(recordNumber) + 1 && recordTime == tt
                else
                  && files == old(files)
                  && record == old(record).(samples := old(record).samples + [old(sbItems)[0]])
                  && recordNumber == old(recordNumber) && recordTime == old(recordTime)
    {
      if sbHead == split {
        var tt := Interpolate(lastT, lastSn, a, sbHead);
        CreateFile(tt);
        NewFileWritten(files[..|files| - 1], NamedFile(tt));
        assert files[..|files| - 1] + [NamedFile(tt)] == files;
      }
      PushSample(a);
    }

    /**
     * One pass of the drain loop: while the record is full a new one is started at the
     * interpolated time of the sample, then the oldest buffered sample is moved into it.
     * The C pops the sample before it tries the record; the order changes nothing the
     * record or the files see.
     */
    method PushSample(a: real)
      requires Running() && |sbItems| > 0
      modifies this
      ensures Running()
      ensures sbHead == old(sbHead) + 1 && sbItems == old(sbItems)[1..]
      ensures Emitted() == old(Emitted()) + [old(sbItems)[0]]
      ensures pushed == old(pushed) && lastT == old(lastT) && lastSn == old(lastSn)
      ensures var tt := Interpolate(lastT, lastSn, a, old(sbHead));
              if |old(record).samples| >= capacity then
                && files == AppendRecord(old(files), old(record).(leap := tai.utcDiff(old(recordTime)) != tai.utcDiff(tt)))
                && record == Record(old(recordNumber) + 1, tt, false, [old(sbItems)[0]])
                && recordNumber == old(recordNumber) + 1 && recordTime == tt
              else
                && files == old(files)
                && record == old(record).(samples := old(record).samples + [old(sbItems)[0]])
                && recordNumber == old(recordNumber) && recordTime == old(recordTime)
    {
      MakeRoom(a);
      TakeSample();
    }

    /** samplebuffer_pop, then miniseed_record_push_sample into a record with room. */
    method TakeSample()
      requires Running() && |sbItems| > 0 && |record.samples| < capacity
      modifies this
      ensures Running()
      ensures sbHead == old(sbHead) + 1 && sbItems == old(sbItems)[1..]
      ensures Emitted() == old(Emitted()) + [old(sbItems)[0]]
      ensures record == old(record).(samples := old(record).samples + [old(sbItems)[0]])
      ensures files == old(files) && recordNumber == old(recordNumber) && recordTime == old(recordTime)
      ensures pushed == old(pushed) && lastT == old(lastT) && lastSn == old(lastSn)
    {
      var sample := sbItems[0];
      ghost var e := Emitted();
      sbItems := sbItems[1..];
      sbHead := sbHead + 1;
      record := record.(samples := record.samples + [sample]);
      dataPending := true;
      assert Emitted() == e + [sample];
      assert e + [sample] + sbItems == e + old(sbItems);
    }

    /**
     * The retry loop of the drain: while the record is full, the record is written and a new
     * one starts at the interpolated time of the oldest buffered sample.
     */
    method MakeRoom(a: real)
      requires Running() && |sbItems| > 0
      modifies this
      ensures Running() && |record.samples| < capacity
      ensures sbHead == old(sbHead) && sbItems == old(sbItems) && Emitted() == old(Emitted())
      ensures pushed == old(pushed) && lastT == old(lastT) && lastSn == old(lastSn)
      ensures var tt := Interpolate(lastT, lastSn, a, sbHead);
              if |old(record).samples| >= capacity then
                && files == AppendRecord(old(files), old(record).(leap := tai.utcDiff(old(recordTime)) != tai.utcDiff(tt)))
                && record == Record(old(recordNumber) + 1, tt, false, [])
                && recordNumber == old(recordNumber) + 1 && recordTime == tt
              else
                && files == old(files) && record == old(record)
                && recordNumber == old(recordNumber) && recordTime == old(recordTime)
    {
      ghost var rolled := false;
      while |record.samples| >= capacity
        invariant Running() && sbHead == old(sbHead) && sbItems == old(sbItems) && Emitted() == old(Emitted())
        invariant pushed == old(pushed) && lastT == old(lastT) && lastSn == old(lastSn)
        invariant !rolled ==> files == old(files) && record == old(record)
                              && recordNumber == old(recordNumber) && recordTime == old(recordTime)
        invariant rolled ==> && |old(record).samples| >= capacity
                             && files == AppendRecord(old(files), old(record).(leap := tai.utcDiff(old(recordTime)) != tai.utcDiff(Interpolate(lastT, lastSn, a, sbHead))))
                             && record == Record(old(recordNumber) + 1, Interpolate(lastT, lastSn, a, sbHead), false, [])
                             && recordNumber == old(recordNumber) + 1 && recordTime == Interpolate(lastT, lastSn, a, sbHead)
        decreases |record.samples|
      {
        var tt := Interpolate(lastT, lastSn, a, sbHead);
        NewRecord(tt);
        rolled := true;
      }
    }

    /**
     * wmseed_time: the first anchor must be sample 0 and opens the first file; later anchors
     * must move forward in both time and sample number, and those within MinAnchorGap
     * samples of the previous one are ignored; an accepted anchor drains the buffer up to
     * `sn`, cutting the file where a cut boundary falls between the two anchors.
     */
    method Time(t: int, sn: int) returns (r: int)
      requires Valid() && !halted
      modifies this
      ensures Valid() && pushed == old(pushed)
      ensures old(lastSn) == -1 && sn != 0 ==> r == -1 && unchanged(this)
      ensures old(lastSn) == -1 && sn == 0 ==>
                && lastT == t && lastSn == 0 && sbHead == old(sbHead) && sbItems == old(sbItems)
                && (halted <==> !WellFormedTemplate(template))
                && (!halted ==> r == 0 && files == [NamedFile(t)] && record == Record(1, t, false, []) && recordNumber == 1)
      ensures old(lastSn) != -1 ==> !halted
      ensures old(lastSn) != -1 && (sn <= old(lastSn) || t <= old(lastT)) ==> r == -1 && unchanged(this)
      ensures old(lastSn) != -1 && sn > old(lastSn) && t > old(lastT) && sn - old(lastSn) < MinAnchorGap ==>
                r == 0 && unchanged(this)
      ensures old(lastSn) != -1 && sn > old(lastSn) && t > old(lastT) && sn - old(lastSn) >= MinAnchorGap ==>
                var k := Drained(old(sbHead), |old(sbItems)|, sn);
                var a := Slope(old(lastT), old(lastSn), t, sn);
                var split := SplitIndex(old(lastT), old(lastSn), t, sn, cut, 1000000 * tai.utcDiff(t));
                var n := |old(files)|;
                && r == 0 && lastT == t && lastSn == sn
                && sbHead == old(sbHead) + k
                && sbItems == old(sbItems)[k..]
                && Emitted() == old(Emitted()) + old(sbItems)[..k]
                && Grown(old(files), files, n)
                && if old(sbHead) <= split < old(sbHead) + k then
                     && |files| == n + 1
                     && Written(files[..n]) == pushed[..split]
                     && Extends(NamedFile(Interpolate(old(lastT), old(lastSn), a, split)), files[n])
                   else |files| == n
    {
      if lastSn == -1 {
        if sn != 0 {
          return -1;
        }
        lastT := t;
        lastSn := sn;
        CreateFile(t);
        return 0;
      } else if sn <= lastSn || t <= lastT {
        return -1;
      }
      if sn - lastSn < MinAnchorGap {
        return 0;
      }
      var a := (t - lastT) as real / (sn - lastSn) as real;
      var off := 1000000 * tai.utcDiff(t);
      var split := -1;
      if cut != 0 && WDiv(lastT - off, cut) != WDiv(t - off, cut) {
        var splitTime := WDiv(t - off, cut) * cut + off;
        split := lastSn + Ceil((splitTime - lastT) as real / a);
      }
      assert split == SplitIndex(lastT, lastSn, t, sn, cut, off);
      Drain(sn, a, split);
      lastT := t;
      lastSn := sn;
      r := 0;
    }
  }
}
