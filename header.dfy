/**
 * The 6D6 header (src/6d6/6d6.c) and its reader as a specification: a strict sequential
 * grammar over a 512-byte block. The cursor `o` of the source is represented by the
 * unread suffix `rest == x[o..]`; the source's ADV_O(a) fails exactly when o + a reaches
 * 512, that is when a >= |rest|.
 */
module Header {
  import opened Wrappers
  import opened Bytes
  import opened Clock

  const BlockSize := 512

  /** KUM_6D6_MAX_CHANNEL_COUNT and the character-array sizes of kum_6d6_header (6d6.h). */
  const MaxChannelCount := 4
  const RecorderIdSize := 32
  const RtcIdSize := 32
  const LatitudeSize := 32
  const LongitudeSize := 32
  const ChannelNameSize := 32
  const CommentSize := 256

  const Magic: seq<byte> := [0x36, 0x44, 0x36, 0x02]  // "6D6\002"
  const TagTime: seq<byte> := [0x74, 0x69, 0x6d, 0x65]  // "time"
  const TagSync: seq<byte> := [0x73, 0x79, 0x6e, 0x63]  // "sync"
  const TagSkew: seq<byte> := [0x73, 0x6b, 0x65, 0x77]  // "skew"
  const TagAddr: seq<byte> := [0x61, 0x64, 0x64, 0x72]  // "addr"
  const TagRate: seq<byte> := [0x72, 0x61, 0x74, 0x65]  // "rate"
  const TagWrit: seq<byte> := [0x77, 0x72, 0x69, 0x74]  // "writ"
  const TagLost: seq<byte> := [0x6c, 0x6f, 0x73, 0x74]  // "lost"
  const TagChan: seq<byte> := [0x63, 0x68, 0x61, 0x6e]  // "chan"
  const TagGain: seq<byte> := [0x67, 0x61, 0x69, 0x6e]  // "gain"
  const TagBitd: seq<byte> := [0x62, 0x69, 0x74, 0x64]  // "bitd"
  const TagRcid: seq<byte> := [0x72, 0x63, 0x69, 0x64]  // "rcid"
  const TagRtci: seq<byte> := [0x72, 0x74, 0x63, 0x69]  // "rtci"
  const TagLati: seq<byte> := [0x6c, 0x61, 0x74, 0x69]  // "lati"
  const TagLogi: seq<byte> := [0x6c, 0x6f, 0x67, 0x69]  // "logi"
  const TagAlia: seq<byte> := [0x61, 0x6c, 0x69, 0x61]  // "alia"
  const TagCmnt: seq<byte> := [0x63, 0x6d, 0x6e, 0x74]  // "cmnt"

  datatype SyncType = NoSync | Sync | Skew

  datatype Header = Header(
    version: nat,
    startTime: seq<byte>,
    syncType: SyncType,
    syncTime: seq<byte>,
    skew: int,
    address: nat,
    sampleRate: nat,
    writtenSamples: nat,
    lostSamples: nat,
    channelCount: nat,
    gain: seq<byte>,
    bitDepth: byte,
    recorderId: seq<byte>,
    rtcId: seq<byte>,
    latitude: seq<byte>,
    longitude: seq<byte>,
    channelNames: seq<seq<byte>>,
    comment: seq<byte>)

  /** A value read from the block together with the unread suffix after it. */
  datatype Read<T> = Read(value: T, rest: seq<byte>)

  /** strlen: the number of bytes before the first NUL (all of them if there is none). */
  function StrLen(s: seq<byte>): (n: nat)
    ensures n <= |s|
    ensures forall i :: 0 <= i < n ==> s[i] != 0
    ensures n < |s| ==> s[n] == 0
  {
    if s == [] || s[0] == 0 then 0 else 1 + StrLen(s[1..])
  }

  /** StrLen is the index of the first NUL. */
  lemma {:induction false} StrLenIs(s: seq<byte>, n: nat)
    requires n < |s| && s[n] == 0 && forall i :: 0 <= i < n ==> s[i] != 0
    ensures StrLen(s) == n
  {
    if n > 0 {
      StrLenIs(s[1..], n - 1);
    }
  }

  /** The C string held in a NUL-terminated character array. */
  function CString(field: seq<byte>): seq<byte>
  {
    field[..StrLen(field)]
  }

  /** A character array of `size` bytes holding a NUL-terminated string, zero after it. */
  predicate IsStringField(field: seq<byte>, size: nat)
  {
    |field| == size && StrLen(field) < size && field == CString(field) + Zeros(size - StrLen(field))
  }

  /** The values the reader can produce. */
  predicate Canonical(h: Header)
  {
    && (h.version == 1 || h.version == 2)
    && |h.startTime| == 6 && |h.syncTime| == 6
    && (h.syncType == NoSync ==> h.syncTime == Zeros(6) && h.skew == 0)
    && -0x8000_0000 <= h.skew < 0x8000_0000
    && h.address < 0x1_0000_0000 && h.sampleRate < 0x1_0000
    && h.writtenSamples < Pow256(8) && h.lostSamples < 0x1_0000_0000
    && 1 <= h.channelCount <= MaxChannelCount
    && |h.gain| == MaxChannelCount
    && (forall i :: h.channelCount <= i < MaxChannelCount ==> h.gain[i] == 0)
    && IsStringField(h.recorderId, RecorderIdSize)
    && IsStringField(h.rtcId, RtcIdSize)
    && IsStringField(h.latitude, LatitudeSize)
    && IsStringField(h.longitude, LongitudeSize)
    && |h.channelNames| == h.channelCount
    && (forall i :: 0 <= i < h.channelCount ==> IsStringField(h.channelNames[i], ChannelNameSize))
    && IsStringField(h.comment, CommentSize)
  }

  // ----- the grammar, one production per macro or field of kum_6d6_header_read -----

  /** ADV_O(a). */
  function Advance(rest: seq<byte>, a: nat): Option<seq<byte>>
  {
    if a < |rest| then Some(rest[a..]) else None
  }

  /** A fixed-width field copied out of the block, followed by ADV_O of its width. */
  function Field(rest: seq<byte>, n: nat): (r: Option<Read<seq<byte>>>)
    ensures r.Some? <==> n < |rest|
    ensures r.Some? ==> r.value.value == rest[..n] && r.value.rest == rest[n..]
  {
    if n < |rest| then Some(Read(rest[..n], rest[n..])) else None
  }

  /** `if (memcmp(X + o, tag, 4)) return -1; ADV_O(4);` A tag that would reach past the block mismatches. */
  function ExpectTag(rest: seq<byte>, tag: seq<byte>): (r: Option<seq<byte>>)
    ensures r.Some? <==> |rest| > 4 && rest[..4] == tag
    ensures r.Some? ==> r.value == rest[4..]
  {
    if |rest| >= 4 && rest[..4] == tag then Advance(rest, 4) else None
  }

  /** SKIP0: skip zero bytes; reaching the end of the block fails. */
  function SkipZeros(rest: seq<byte>): (r: Option<seq<byte>>)
    ensures r.None? <==> forall i :: 0 <= i < |rest| ==> rest[i] == 0
    ensures r.Some? ==> 0 < |r.value| <= |rest| && r.value == rest[|rest| - |r.value|..] && r.value[0] != 0
    ensures r.Some? ==> forall i :: 0 <= i < |rest| - |r.value| ==> rest[i] == 0
  {
    if |rest| == 0 then None
    else if rest[0] != 0 then Some(rest)
    else if |rest| <= 1 then None
    else SkipZeros(rest[1..])
  }

  /** A NUL-terminated string into a field of `size` bytes: refused when its length reaches the size. */
  function StringField(rest: seq<byte>, size: nat): (r: Option<seq<byte>>)
    ensures r.None? <==> StrLen(rest) >= size
    ensures r.Some? ==> IsStringField(r.value, size) && CString(r.value) == rest[..StrLen(rest)]
  {
    var n := StrLen(rest);
    if n >= size then None
    else
      var field := rest[..n] + Zeros(size - n);
      StrLenOfPadded(rest[..n], size - n);
      Some(field)
  }

  /** A NUL-free string followed by at least one zero has exactly its own length. */
  lemma {:induction false} StrLenOfPadded(s: seq<byte>, k: nat)
    requires k > 0 && forall i :: 0 <= i < |s| ==> s[i] != 0
    ensures StrLen(s + Zeros(k)) == |s| && CString(s + Zeros(k)) == s
  {
    if s != [] {
      assert (s + Zeros(k))[1..] == s[1..] + Zeros(k);
      StrLenOfPadded(s[1..], k);
    }
  }

  /** A string field followed by ADV_O(n + 1). */
  function ReadString(rest: seq<byte>, size: nat): (r: Option<Read<seq<byte>>>)
    ensures r.Some? ==> StrLen(rest) < size && StrLen(rest) + 1 < |rest|
    ensures r.Some? ==> IsStringField(r.value.value, size) && CString(r.value.value) == rest[..StrLen(rest)]
    ensures r.Some? ==> r.value.rest == rest[StrLen(rest) + 1..]
  {
    var field :- StringField(rest, size);
    var r :- Advance(rest, StrLen(rest) + 1);
    Some(Read(field, r))
  }

  /** A tag, its string field and the zero padding after it (rcid, rtci, lati, logi). */
  function ReadTaggedString(rest: seq<byte>, tag: seq<byte>, size: nat): (r: Option<Read<seq<byte>>>)
    ensures r.Some? ==> IsStringField(r.value.value, size)
  {
    var r0 :- ExpectTag(rest, tag);
    var s :- ReadString(r0, size);
    var r1 :- SkipZeros(s.rest);
    Some(Read(s.value, r1))
  }

  /** The `count` channel names after the "alia" tag, back to back. */
  function ReadStrings(rest: seq<byte>, count: nat, size: nat): (r: Option<Read<seq<seq<byte>>>>)
    ensures r.Some? ==> |r.value.value| == count
    ensures r.Some? ==> forall i :: 0 <= i < count ==> IsStringField(r.value.value[i], size)
    ensures r.Some? ==> |r.value.rest| < |rest| || count == 0
  {
    if count == 0 then Some(Read([], rest))
    else
      var first :- ReadString(rest, size);
      var others :- ReadStrings(first.rest, count - 1, size);
      Some(Read([first.value] + others.value, others.rest))
  }

  /** One round of ReadStrings. */
  lemma ReadStringsStep(rest: seq<byte>, count: nat, size: nat, first: Read<seq<byte>>, others: Read<seq<seq<byte>>>)
    requires count > 0 && ReadString(rest, size) == Some(first)
    requires ReadStrings(first.rest, count - 1, size) == Some(others)
    ensures ReadStrings(rest, count, size) == Some(Read([first.value] + others.value, others.rest))
  {
  }

  /** The 14-byte sync/skew slot: a "sync" or "skew" tag with a valid BCD time, or nothing. */
  function SyncSlot(bcd: Bcd, s: seq<byte>): (SyncType, seq<byte>, int)
    requires |s| == 14
  {
    if s[..4] == TagSync && bcd.valid(s[4..10]) then (Sync, s[4..10], LoadI32(s[10..14]))
    else if s[..4] == TagSkew && bcd.valid(s[4..10]) then (Skew, s[4..10], LoadI32(s[10..14]))
    else (NoSync, Zeros(6), 0)
  }

  /** The fixed-width part of the header, from the "time" tag to the bit depth. */
  datatype Fixed = Fixed(
    startTime: seq<byte>, syncType: SyncType, syncTime: seq<byte>, skew: int,
    address: nat, sampleRate: nat, writtenSamples: nat, lostSamples: nat,
    channelCount: nat, gain: seq<byte>, bitDepth: byte)

  /** What the reader guarantees of the fixed part. */
  predicate FixedCanonical(bcd: Bcd, f: Fixed)
  {
    && |f.startTime| == 6 && |f.syncTime| == 6
    && (f.syncType == NoSync ==> f.syncTime == Zeros(6) && f.skew == 0)
    && (f.syncType != NoSync ==> bcd.valid(f.syncTime))
    && -0x8000_0000 <= f.skew < 0x8000_0000
    && f.address < Pow256(4) && f.sampleRate < Pow256(2)
    && f.writtenSamples < Pow256(8) && f.lostSamples < Pow256(4)
    && 1 <= f.channelCount <= MaxChannelCount
    && |f.gain| == MaxChannelCount
    && (forall i :: f.channelCount <= i < MaxChannelCount ==> f.gain[i] == 0)
  }

  /** The start time, tagged "time", and the 14-byte sync/skew slot after it. */
  function ReadTimes(bcd: Bcd, r0: seq<byte>): (r: Option<Read<(seq<byte>, SyncType, seq<byte>, int)>>)
    ensures r.Some? ==> |r0| > 24 && r0[..4] == TagTime && r.value.rest == r0[24..]
    ensures r.Some? ==> var (startTime, syncType, syncTime, skew) := r.value.value;
      && startTime == r0[4..10] && (syncType, syncTime, skew) == SyncSlot(bcd, r0[10..24])
  {
    var r1 :- ExpectTag(r0, TagTime);
    var startTime :- Field(r1, 6);
    var slot :- Field(startTime.rest, 14);
    assert startTime.value == r0[4..10] && slot.value == r0[10..24] && slot.rest == r0[24..];
    Some(Read((startTime.value, SyncSlot(bcd, slot.value).0, SyncSlot(bcd, slot.value).1,
               SyncSlot(bcd, slot.value).2), slot.rest))
  }

  /** A tag followed by an unsigned big-endian number of `width` bytes (addr, rate, writ, lost, chan, bitd). */
  function ReadNumber(rest: seq<byte>, tag: seq<byte>, width: nat): (r: Option<Read<nat>>)
    ensures r.Some? ==> |rest| > 4 + width && rest[..4] == tag
    ensures r.Some? ==> r.value.value == LoadBE(rest[4..4 + width]) && r.value.rest == rest[4 + width..]
    ensures r.Some? ==> r.value.value < Pow256(width)
  {
    var r0 :- ExpectTag(rest, tag);
    var n :- Field(r0, width);
    assert n.value == rest[4..4 + width] && n.rest == rest[4 + width..];
    Some(Read(LoadBE(n.value), n.rest))
  }

  /** The gains: a tag followed by one byte per channel, zero-filled to the maximum channel count. */
  function ReadGain(rest: seq<byte>, nc: nat): (r: Option<Read<seq<byte>>>)
    requires nc <= MaxChannelCount
    ensures r.Some? ==> |rest| > 4 + nc && rest[..4] == TagGain && r.value.rest == rest[4 + nc..]
    ensures r.Some? ==> r.value.value == rest[4..4 + nc] + Zeros(MaxChannelCount - nc)
  {
    var r0 :- ExpectTag(rest, TagGain);
    var g :- Field(r0, nc);
    assert g.value == rest[4..4 + nc] && g.rest == rest[4 + nc..];
    Some(Read(g.value + Zeros(MaxChannelCount - nc), g.rest))
  }

  /** The four counters after the slot: addr (4 bytes), rate (2), writ (8) and lost (4). */
  function ReadCounts(rest: seq<byte>): (r: Option<Read<(nat, nat, nat, nat)>>)
    ensures r.Some? ==> var (address, rate, written, lost) := r.value.value;
      address < Pow256(4) && rate < Pow256(2) && written < Pow256(8) && lost < Pow256(4)
  {
    var address :- ReadNumber(rest, TagAddr, 4);
    var rate :- ReadNumber(address.rest, TagRate, 2);
    var written :- ReadNumber(rate.rest, TagWrit, 8);
    var lost :- ReadNumber(written.rest, TagLost, 4);
    Some(Read((address.value, rate.value, written.value, lost.value), lost.rest))
  }

  /** The channel count (refused outside 1 to the maximum), the gains and the bit depth. */
  function ReadChannels(rest: seq<byte>): (r: Option<Read<(nat, seq<byte>, byte)>>)
    ensures r.Some? ==> var (nc, gain, bitDepth) := r.value.value;
      && 1 <= nc <= MaxChannelCount && |gain| == MaxChannelCount
      && (forall i :: nc <= i < MaxChannelCount ==> gain[i] == 0)
  {
    var chan :- ReadNumber(rest, TagChan, 1);
    var nc := chan.value;
    if nc < 1 || nc > MaxChannelCount then None
    else
      var gain :- ReadGain(chan.rest, nc);
      var bitDepth :- ReadNumber(gain.rest, TagBitd, 1);
      assert bitDepth.value < Pow256(1) == 256;
      Some(Read((nc, gain.value, bitDepth.value), bitDepth.rest))
  }

  /** The fixed part: times, counters, channels. */
  function ReadFixed(bcd: Bcd, r0: seq<byte>): (r: Option<Read<Fixed>>)
    ensures r.Some? ==> FixedCanonical(bcd, r.value.value)
  {
    var times :- ReadTimes(bcd, r0);
    var (startTime, syncType, syncTime, skew) := times.value;
    var counts :- ReadCounts(times.rest);
    var (address, rate, written, lost) := counts.value;
    var channels :- ReadChannels(counts.rest);
    var (nc, gain, bitDepth) := channels.value;
    Some(Read(Fixed(startTime, syncType, syncTime, skew, address, rate, written, lost, nc, gain, bitDepth),
              channels.rest))
  }

  /** The strings after the fixed part: four tagged strings, the channel names and the comment. */
  datatype Strings = Strings(
    recorderId: seq<byte>, rtcId: seq<byte>, latitude: seq<byte>, longitude: seq<byte>,
    channelNames: seq<seq<byte>>, comment: seq<byte>)

  /** The four tagged identification strings: rcid, rtci, lati, logi. */
  function ReadIds(rest: seq<byte>): (r: Option<Read<(seq<byte>, seq<byte>, seq<byte>, seq<byte>)>>)
    ensures r.Some? ==> var (recorderId, rtcId, latitude, longitude) := r.value.value;
      && IsStringField(recorderId, RecorderIdSize) && IsStringField(rtcId, RtcIdSize)
      && IsStringField(latitude, LatitudeSize) && IsStringField(longitude, LongitudeSize)
  {
    var recorderId :- ReadTaggedString(rest, TagRcid, RecorderIdSize);
    var rtcId :- ReadTaggedString(recorderId.rest, TagRtci, RtcIdSize);
    var latitude :- ReadTaggedString(rtcId.rest, TagLati, LatitudeSize);
    var longitude :- ReadTaggedString(latitude.rest, TagLogi, LongitudeSize);
    Some(Read((recorderId.value, rtcId.value, latitude.value, longitude.value), longitude.rest))
  }

  /** "alia", the channel names, SKIP0, then "cmnt" and the comment. */
  function ReadNamesAndComment(rest: seq<byte>, channelCount: nat): (r: Option<(seq<seq<byte>>, seq<byte>)>)
    ensures r.Some? ==> |r.value.0| == channelCount
    ensures r.Some? ==> (forall i :: 0 <= i < channelCount ==> IsStringField(r.value.0[i], ChannelNameSize))
    ensures r.Some? ==> IsStringField(r.value.1, CommentSize)
  {
    var r0 :- ExpectTag(rest, TagAlia);
    var names :- ReadStrings(r0, channelCount, ChannelNameSize);
    var r1 :- SkipZeros(names.rest);
    var r2 :- ExpectTag(r1, TagCmnt);
    var comment :- StringField(r2, CommentSize);
    Some((names.value, comment))
  }

  /** Everything after the fixed part. */
  function ReadStringPart(rest: seq<byte>, channelCount: nat): (r: Option<Strings>)
    ensures r.Some? ==> var s := r.value;
      && IsStringField(s.recorderId, RecorderIdSize) && IsStringField(s.rtcId, RtcIdSize)
      && IsStringField(s.latitude, LatitudeSize) && IsStringField(s.longitude, LongitudeSize)
      && |s.channelNames| == channelCount
      && (forall i :: 0 <= i < channelCount ==> IsStringField(s.channelNames[i], ChannelNameSize))
      && IsStringField(s.comment, CommentSize)
  {
    var ids :- ReadIds(rest);
    var (recorderId, rtcId, latitude, longitude) := ids.value;
    var tail :- ReadNamesAndComment(ids.rest, channelCount);
    Some(Strings(recorderId, rtcId, latitude, longitude, tail.0, tail.1))
  }

  /** Version 2 is announced by the four bytes "6D6\002"; otherwise the tags start at offset 0. */
  function Version(x: seq<byte>): nat
    requires |x| == BlockSize
  {
    if x[..4] == Magic then 2 else 1
  }

  /** Parse assembled from its two parts, for a version 1 block. */
  lemma ParseOfParts(bcd: Bcd, x: seq<byte>, f: Fixed, rest: seq<byte>, s: Strings)
    requires |x| == BlockSize && x[BlockSize - 1] == 0 && x[..4] != Magic
    requires ReadFixed(bcd, x) == Some(Read(f, rest)) && ReadStringPart(rest, f.channelCount) == Some(s)
    ensures Parse(bcd, x) == Some(Header(1, f.startTime, f.syncType, f.syncTime, f.skew, f.address, f.sampleRate,
                                         f.writtenSamples, f.lostSamples, f.channelCount, f.gain, f.bitDepth,
                                         s.recorderId, s.rtcId, s.latitude, s.longitude, s.channelNames, s.comment))
  {
  }

  /** kum_6d6_header_read as a function of the block: None where the source returns -1. */
  function Parse(bcd: Bcd, x: seq<byte>): (r: Option<Header>)
    requires |x| == BlockSize
    ensures x[BlockSize - 1] != 0 ==> r.None?
    ensures r.Some? ==> Canonical(r.value)
    ensures r.Some? ==> (r.value.version == 2 <==> x[..4] == Magic)
    ensures r.Some? && r.value.syncType != NoSync ==> bcd.valid(r.value.syncTime)
  {
    if x[BlockSize - 1] != 0 then None
    else
      var version := Version(x);
      var fixed :- ReadFixed(bcd, if version == 2 then x[4..] else x);
      var f := fixed.value;
      var s :- ReadStringPart(fixed.rest, f.channelCount);
      Some(Header(version, f.startTime, f.syncType, f.syncTime, f.skew, f.address, f.sampleRate,
                  f.writtenSamples, f.lostSamples, f.channelCount, f.gain, f.bitDepth,
                  s.recorderId, s.rtcId, s.latitude, s.longitude, s.channelNames, s.comment))
  }
}
