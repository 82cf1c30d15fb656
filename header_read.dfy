/**
 * kum_6d6_header_read (src/6d6/6d6.c:15-142) as the source runs it: a cursor `o` that
 * advances through the block, string lengths and zero padding found by loops, and an
 * early failure at every tag mismatch, bound violation or cursor overrun. Each method
 * is proved to agree with the grammar of module Header at the cursor's suffix.
 */
module HeaderRead {
  import opened Wrappers
  import opened Bytes
  import opened Clock
  import opened Header

  /** strlen(X + o); the block's last byte is zero, so the scan stops inside the block. */
  method StrLenAt(x: array<byte>, o: nat) returns (n: nat)
    requires x.Length == BlockSize && o < BlockSize && x[BlockSize - 1] == 0
    ensures n == StrLen(x[o..]) && o + n < BlockSize
  {
    n := 0;
    while x[o + n] != 0
      invariant o + n < BlockSize
      invariant forall i :: o <= i < o + n ==> x[i] != 0
      decreases BlockSize - (o + n)
    {
      n := n + 1;
    }
    StrLenIs(x[o..], n);
  }

  /** SKIP0: `while (!X[o]) { ADV_O(1); }`. */
  method SkipZerosAt(x: array<byte>, o0: nat) returns (ok: bool, o: nat)
    requires x.Length == BlockSize && o0 < BlockSize
    ensures ok ==> o < BlockSize
    ensures SkipZeros(x[o0..]) == if ok then Some(x[o..]) else None
  {
    o := o0;
    while x[o] == 0
      invariant o0 <= o < BlockSize
      invariant SkipZeros(x[o0..]) == SkipZeros(x[o..])
      decreases BlockSize - o
    {
      assert x[o..][1..] == x[o + 1..];
      o := o + 1;
      if o >= BlockSize {
        return false, o;
      }
    }
    ok := true;
  }

  /** `memcmp(X + o, tag, 4)` then ADV_O(4); a tag that would reach past the block fails. */
  method TagAt(x: array<byte>, o: nat, tag: seq<byte>) returns (ok: bool, o': nat)
    requires x.Length == BlockSize && o < BlockSize && |tag| == 4
    ensures ok ==> o' == o + 4 < BlockSize
    ensures ExpectTag(x[o..], tag) == if ok then Some(x[o'..]) else None
  {
    if o + 4 > BlockSize || x[o..o + 4] != tag {
      return false, o;
    }
    o' := o + 4;
    ok := o' < BlockSize;
    assert x[o..][..4] == x[o..o + 4] && x[o..][4..] == x[o'..];
  }

  /** A tag, then `ld_uN_be(X + o)` of `width` bytes and ADV_O(width). */
  method NumberAt(x: array<byte>, o: nat, tag: seq<byte>, width: nat) returns (ok: bool, v: nat, o': nat)
    requires x.Length == BlockSize && o < BlockSize && |tag| == 4
    ensures ok ==> o' < BlockSize
    ensures ReadNumber(x[o..], tag, width) == if ok then Some(Read(v, x[o'..])) else None
  {
    var o1;
    ok, o1 := TagAt(x, o, tag);
    if !ok {
      return false, 0, o;
    }
    if o1 + width >= BlockSize {
      return false, 0, o;
    }
    v := LoadBE(x[o1..o1 + width]);
    o' := o1 + width;
    assert x[o1..][..width] == x[o1..o1 + width] && x[o1..][width..] == x[o'..];
  }

  /** A NUL-terminated string copied into a zero-filled field, refused when its length reaches `size`. */
  method StringFieldAt(x: array<byte>, o: nat, size: nat) returns (ok: bool, field: seq<byte>, n: nat)
    requires x.Length == BlockSize && o < BlockSize && x[BlockSize - 1] == 0
    ensures n == StrLen(x[o..]) && o + n < BlockSize
    ensures StringField(x[o..], size) == if ok then Some(field) else None
  {
    n := StrLenAt(x, o);
    if n >= size {
      return false, [], n;
    }
    field := x[o..o + n] + Zeros(size - n);
    assert x[o..][..n] == x[o..o + n];
    ok := true;
  }

  /** A string field, then ADV_O(n + 1). */
  method StringAt(x: array<byte>, o: nat, size: nat) returns (ok: bool, field: seq<byte>, o': nat)
    requires x.Length == BlockSize && o < BlockSize && x[BlockSize - 1] == 0
    ensures ok ==> o' < BlockSize
    ensures ReadString(x[o..], size) == if ok then Some(Read(field, x[o'..])) else None
  {
    var n;
    ok, field, n := StringFieldAt(x, o, size);
    if !ok {
      return false, [], o;
    }
    o' := o + n + 1;
    ok := o' < BlockSize;
    assert x[o..][n + 1..] == x[o'..];
  }

  /** One of rcid, rtci, lati, logi: tag, string, SKIP0. */
  method TaggedStringAt(x: array<byte>, o: nat, tag: seq<byte>, size: nat) returns (ok: bool, field: seq<byte>, o': nat)
    requires x.Length == BlockSize && o < BlockSize && x[BlockSize - 1] == 0 && |tag| == 4
    ensures ok ==> o' < BlockSize
    ensures ReadTaggedString(x[o..], tag, size) == if ok then Some(Read(field, x[o'..])) else None
  {
    var o1, o2;
    ok, o1 := TagAt(x, o, tag);
    if !ok {
      return false, [], o;
    }
    ok, field, o2 := StringAt(x, o1, size);
    if !ok {
      return false, [], o;
    }
    ok, o' := SkipZerosAt(x, o2);
  }

  /** The names read so far in front of whatever the rest of the loop reads. */
  function Prepend(names: seq<seq<byte>>, r: Option<Read<seq<seq<byte>>>>): Option<Read<seq<seq<byte>>>>
  {
    if r.None? then None else Some(Read(names + r.value.value, r.value.rest))
  }

  lemma PrependNothing(r: Option<Read<seq<seq<byte>>>>)
    ensures Prepend([], r) == r
  {
    if r.Some? {
      assert [] + r.value.value == r.value.value;
    }
  }

  /** A name read puts it at the end of the names so far. */
  lemma PrependStep(names: seq<seq<byte>>, s: seq<byte>, count: nat, name: seq<byte>, s': seq<byte>,
                    names': seq<seq<byte>>, count': nat)
    requires count > 0 && ReadString(s, ChannelNameSize) == Some(Read(name, s'))
    requires names' == names + [name] && count' == count - 1
    ensures Prepend(names, ReadStrings(s, count, ChannelNameSize))
         == Prepend(names', ReadStrings(s', count', ChannelNameSize))
  {
    var later := ReadStrings(s', count', ChannelNameSize);
    if later.Some? {
      assert ReadStrings(s, count, ChannelNameSize) == Some(Read([name] + later.value.value, later.value.rest));
      assert names' + later.value.value == names + ([name] + later.value.value);
    } else {
      assert ReadStrings(s, count, ChannelNameSize) == None;
    }
  }

  /** A name that cannot be read fails the whole list. */
  lemma StopStep(names: seq<seq<byte>>, s: seq<byte>, count: nat)
    requires count > 0 && ReadString(s, ChannelNameSize).None?
    ensures Prepend(names, ReadStrings(s, count, ChannelNameSize)) == None
  {
  }

  /** One round of the names loop: the next name, or the failure of the whole list. */
  method NameAt(x: array<byte>, o: nat, left: nat, names: seq<seq<byte>>, ghost spec: Option<Read<seq<seq<byte>>>>)
    returns (ok: bool, names': seq<seq<byte>>, o': nat, left': nat)
    requires x.Length == BlockSize && o < BlockSize && x[BlockSize - 1] == 0 && left > 0
    requires spec == Prepend(names, ReadStrings(x[o..], left, ChannelNameSize))
    ensures left' == left - 1
    ensures ok ==> o' < BlockSize && spec == Prepend(names', ReadStrings(x[o'..], left', ChannelNameSize))
    ensures !ok ==> spec == None
  {
    var name;
    ok, name, o' := StringAt(x, o, ChannelNameSize);
    names', left' := names + [name], left - 1;
    if ok {
      PrependStep(names, x[o..], left, name, x[o'..], names', left');
    } else {
      StopStep(names, x[o..], left);
    }
  }

  /** The channel-name loop: `for (i = 0; i < nc; ++i)` one string each, back to back. */
  method NamesAt(x: array<byte>, o0: nat, count: nat) returns (ok: bool, names: seq<seq<byte>>, o: nat)
    requires x.Length == BlockSize && o0 < BlockSize && x[BlockSize - 1] == 0
    ensures ok ==> o < BlockSize
    ensures ReadStrings(x[o0..], count, ChannelNameSize) == if ok then Some(Read(names, x[o..])) else None
  {
    names, o := [], o0;
    var left: nat := count;
    ghost var spec := ReadStrings(x[o0..], count, ChannelNameSize);
    PrependNothing(spec);
    while left > 0
      invariant o < BlockSize
      invariant spec == Prepend(names, ReadStrings(x[o..], left, ChannelNameSize))
    {
      ok, names, o, left := NameAt(x, o, left, names, spec);
      if !ok {
        return false, [], o0;
      }
    }
    assert names + [] == names;
    ok := true;
  }

  /** "time", the start time and the 14-byte sync/skew slot. */
  method TimesAt(bcd: Bcd, x: array<byte>, o0: nat) returns (ok: bool, t: (seq<byte>, SyncType, seq<byte>, int), o: nat)
    requires x.Length == BlockSize && o0 < BlockSize
    ensures ok ==> o < BlockSize
    ensures ReadTimes(bcd, x[o0..]) == if ok then Some(Read(t, x[o..])) else None
  {
    t := ([], NoSync, [], 0);
    if o0 + 24 >= BlockSize || x[o0..o0 + 4] != TagTime {
      return false, t, o0;
    }
    assert x[o0..][..4] == x[o0..o0 + 4];
    var startTime := x[o0 + 4..o0 + 10];
    var slot := x[o0 + 10..o0 + 24];
    var (syncType, syncTime, skew) := SyncSlot(bcd, slot);
    o := o0 + 24;
    assert x[o0..][4..10] == startTime && x[o0..][10..24] == slot && x[o0..][24..] == x[o..];
    return true, (startTime, syncType, syncTime, skew), o;
  }

  /** addr, rate, writ and lost. */
  method CountsAt(x: array<byte>, o0: nat) returns (ok: bool, c: (nat, nat, nat, nat), o: nat)
    requires x.Length == BlockSize && o0 < BlockSize
    ensures ok ==> o < BlockSize
    ensures ReadCounts(x[o0..]) == if ok then Some(Read(c, x[o..])) else None
  {
    c := (0, 0, 0, 0);
    var address, rate, written, lost;
    ok, address, o := NumberAt(x, o0, TagAddr, 4);
    if !ok { return false, c, o0; }
    ok, rate, o := NumberAt(x, o, TagRate, 2);
    if !ok { return false, c, o0; }
    ok, written, o := NumberAt(x, o, TagWrit, 8);
    if !ok { return false, c, o0; }
    ok, lost, o := NumberAt(x, o, TagLost, 4);
    if !ok { return false, c, o0; }
    c := (address, rate, written, lost);
  }

  /** "gain" and one byte per channel. */
  method GainAt(x: array<byte>, o0: nat, nc: nat) returns (ok: bool, gain: seq<byte>, o: nat)
    requires x.Length == BlockSize && o0 < BlockSize && nc <= MaxChannelCount
    ensures ok ==> o < BlockSize
    ensures ReadGain(x[o0..], nc) == if ok then Some(Read(gain, x[o..])) else None
  {
    if o0 + 4 + nc >= BlockSize || x[o0..o0 + 4] != TagGain {
      return false, [], o0;
    }
    assert x[o0..][..4] == x[o0..o0 + 4];
    gain := x[o0 + 4..o0 + 4 + nc] + Zeros(MaxChannelCount - nc);
    o := o0 + 4 + nc;
    assert x[o0..][4..4 + nc] == x[o0 + 4..o0 + 4 + nc] && x[o0..][4 + nc..] == x[o..];
    ok := true;
  }

  /** chan (checked), gain, bitd. */
  method ChannelsAt(x: array<byte>, o0: nat) returns (ok: bool, c: (nat, seq<byte>, byte), o: nat)
    requires x.Length == BlockSize && o0 < BlockSize
    ensures ok ==> o < BlockSize
    ensures ReadChannels(x[o0..]) == if ok then Some(Read(c, x[o..])) else None
  {
    c := (0, [], 0);
    var nc, gain, bitDepth;
    ok, nc, o := NumberAt(x, o0, TagChan, 1);
    if !ok || nc < 1 || nc > MaxChannelCount { return false, c, o0; }
    ok, gain, o := GainAt(x, o, nc);
    if !ok { return false, c, o0; }
    ok, bitDepth, o := NumberAt(x, o, TagBitd, 1);
    if !ok { return false, c, o0; }
    c := (nc, gain, bitDepth);
  }

  /** The fixed part: times, counters, channels. */
  method FixedAt(bcd: Bcd, x: array<byte>, o0: nat) returns (ok: bool, f: Fixed, o: nat)
    requires x.Length == BlockSize && o0 < BlockSize
    ensures ok ==> o < BlockSize
    ensures ReadFixed(bcd, x[o0..]) == if ok then Some(Read(f, x[o..])) else None
  {
    f := Fixed([], NoSync, [], 0, 0, 0, 0, 0, 0, [], 0);
    var t, c, ch;
    ok, t, o := TimesAt(bcd, x, o0);
    if !ok { return false, f, o0; }
    ok, c, o := CountsAt(x, o);
    if !ok { return false, f, o0; }
    ok, ch, o := ChannelsAt(x, o);
    if !ok { return false, f, o0; }
    f := Fixed(t.0, t.1, t.2, t.3, c.0, c.1, c.2, c.3, ch.0, ch.1, ch.2);
  }

  /** rcid, rtci, lati, logi. */
  method IdsAt(x: array<byte>, o0: nat) returns (ok: bool, ids: (seq<byte>, seq<byte>, seq<byte>, seq<byte>), o: nat)
    requires x.Length == BlockSize && o0 < BlockSize && x[BlockSize - 1] == 0
    ensures ok ==> o < BlockSize
    ensures ReadIds(x[o0..]) == if ok then Some(Read(ids, x[o..])) else None
  {
    ids := ([], [], [], []);
    var recorderId, rtcId, latitude, longitude;
    ok, recorderId, o := TaggedStringAt(x, o0, TagRcid, RecorderIdSize);
    if !ok { return false, ids, o0; }
    ok, rtcId, o := TaggedStringAt(x, o, TagRtci, RtcIdSize);
    if !ok { return false, ids, o0; }
    ok, latitude, o := TaggedStringAt(x, o, TagLati, LatitudeSize);
    if !ok { return false, ids, o0; }
    ok, longitude, o := TaggedStringAt(x, o, TagLogi, LongitudeSize);
    if !ok { return false, ids, o0; }
    ids := (recorderId, rtcId, latitude, longitude);
  }

  /** "alia", the names loop, SKIP0, "cmnt" and the comment string. */
  method NamesAndCommentAt(x: array<byte>, o0: nat, nc: nat) returns (ok: bool, names: seq<seq<byte>>, comment: seq<byte>)
    requires x.Length == BlockSize && o0 < BlockSize && x[BlockSize - 1] == 0
    ensures ReadNamesAndComment(x[o0..], nc) == if ok then Some((names, comment)) else None
  {
    var o;
    ok, o := TagAt(x, o0, TagAlia);
    if !ok { return false, [], []; }
    ok, names, o := NamesAt(x, o, nc);
    if !ok { return false, [], []; }
    ok, o := SkipZerosAt(x, o);
    if !ok { return false, [], []; }
    ok, o := TagAt(x, o, TagCmnt);
    if !ok { return false, [], []; }
    var n;
    ok, comment, n := StringFieldAt(x, o, CommentSize);
    if !ok { return false, [], []; }
  }

  /** kum_6d6_header_read: None where the source returns -1. */
  method ReadHeader(bcd: Bcd, x: array<byte>) returns (r: Option<Header>)
    requires x.Length == BlockSize
    ensures r == Parse(bcd, x[..])
  {
    if x[BlockSize - 1] != 0 {
      return None;
    }
    var version, o := 1, 0;
    if x[..4] == Magic {
      version, o := 2, 4;
    }
    assert x[..][o..] == x[o..];
    var ok, f, ids, names, comment;
    ok, f, o := FixedAt(bcd, x, o);
    if !ok { return None; }
    ok, ids, o := IdsAt(x, o);
    if !ok { return None; }
    ok, names, comment := NamesAndCommentAt(x, o, f.channelCount);
    if !ok { return None; }
    r := Some(Header(version, f.startTime, f.syncType, f.syncTime, f.skew, f.address, f.sampleRate,
                     f.writtenSamples, f.lostSamples, f.channelCount, f.gain, f.bitDepth,
                     ids.0, ids.1, ids.2, ids.3, names, comment));
  }
}
