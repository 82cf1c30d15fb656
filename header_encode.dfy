/**
 * The bytes kum_6d6_header_write (src/6d6/6d6.c:179-233) lays down, as a function of the
 * header, and the round trip through the reader of module Header.
 *
 * Before the comment nothing is ever truncated (the widest header needs 356 bytes before
 * it), so the written block is the concatenation of the parts below; only the comment can
 * fail to fit, and then the write fails.
 */
module HeaderEncode {
  import opened Wrappers
  import opened Bytes
  import opened Clock
  import opened Header

  /** What the writer needs of its input (otherwise the C reads past an array or a string). */
  predicate WellFormed(h: Header)
  {
    && |h.startTime| == 6 && |h.syncTime| == 6
    && h.channelCount <= MaxChannelCount && |h.gain| == MaxChannelCount
    && |h.channelNames| == h.channelCount
    && HasNul(h.recorderId, RecorderIdSize) && HasNul(h.rtcId, RtcIdSize)
    && HasNul(h.latitude, LatitudeSize) && HasNul(h.longitude, LongitudeSize)
    && (forall i :: 0 <= i < h.channelCount ==> HasNul(h.channelNames[i], ChannelNameSize))
    && HasNul(h.comment, CommentSize)
  }

  /** A character array of `size` bytes that holds a NUL-terminated string. */
  predicate HasNul(field: seq<byte>, size: nat)
  {
    |field| == size && StrLen(field) < size
  }

  /** The C string of a field and its terminating NUL, as copy_string_0 writes it when it fits. */
  function Str(field: seq<byte>): (r: seq<byte>)
    ensures |r| == StrLen(field) + 1 && r[|r| - 1] == 0
  {
    CString(field) + [0]
  }

  /** A four-byte tag and a big-endian number of `width` bytes (st_u8_be .. st_u64_be). */
  function Number(tag: seq<byte>, v: int, width: nat): (r: seq<byte>)
    ensures |r| == |tag| + width
  {
    tag + StoreBE(v, width)
  }

  /** The sync/skew slot: tag, BCD time and st_i32_be of the skew, or 14 zero bytes. */
  function Slot(syncType: SyncType, syncTime: seq<byte>, skew: int): (r: seq<byte>)
    requires |syncTime| == 6
    ensures |r| == 14
  {
    match syncType
    case Sync => TagSync + syncTime + StoreBE(skew, 4)
    case Skew => TagSkew + syncTime + StoreBE(skew, 4)
    case NoSync => Zeros(14)
  }

  function TimesBytes(h: Header): (r: seq<byte>)
    requires |h.startTime| == 6 && |h.syncTime| == 6
    ensures |r| == 24
  {
    TagTime + h.startTime + Slot(h.syncType, h.syncTime, h.skew)
  }

  function CountsBytes(h: Header): (r: seq<byte>)
    ensures |r| == 34
  {
    Number(TagAddr, h.address, 4) + Number(TagRate, h.sampleRate, 2)
      + Number(TagWrit, h.writtenSamples, 8) + Number(TagLost, h.lostSamples, 4)
  }

  function ChannelsBytes(h: Header): (r: seq<byte>)
    requires h.channelCount <= |h.gain|
    ensures |r| == 14 + h.channelCount
  {
    Number(TagChan, h.channelCount, 1) + TagGain + h.gain[..h.channelCount] + Number(TagBitd, h.bitDepth, 1)
  }

  /** Everything up to the bit depth: 72 bytes and one gain byte per channel. */
  function FixedBytes(h: Header): (r: seq<byte>)
    requires |h.startTime| == 6 && |h.syncTime| == 6 && h.channelCount <= |h.gain|
    ensures |r| == 72 + h.channelCount
  {
    TimesBytes(h) + CountsBytes(h) + ChannelsBytes(h)
  }

  function Tagged(tag: seq<byte>, field: seq<byte>): (r: seq<byte>)
    ensures |r| == |tag| + StrLen(field) + 1
  {
    tag + Str(field)
  }

  function IdsBytes(h: Header): seq<byte>
  {
    Tagged(TagRcid, h.recorderId) + Tagged(TagRtci, h.rtcId) + Tagged(TagLati, h.latitude)
      + Tagged(TagLogi, h.longitude)
  }

  /** The channel names back to back, each with its NUL. */
  function NamesBytes(names: seq<seq<byte>>): seq<byte>
  {
    if names == [] then [] else Str(names[0]) + NamesBytes(names[1..])
  }

  /** Everything before the comment. */
  function Head(h: Header): seq<byte>
    requires WellFormed(h)
  {
    FixedBytes(h) + IdsBytes(h) + TagAlia + NamesBytes(h.channelNames) + TagCmnt
  }

  /** The block kum_6d6_header_write produces, or None where it returns -1. */
  function Serialize(h: Header): Option<seq<byte>>
    requires WellFormed(h)
  {
    Padded(Head(h) + Str(h.comment))
  }

  /** A body that fits, zero-filled to a whole block. */
  function Padded(body: seq<byte>): Option<seq<byte>>
  {
    if |body| <= BlockSize then Some(body + Zeros(BlockSize - |body|)) else None
  }

  // ----- sizes -----

  lemma {:induction false} NamesBytesLength(names: seq<seq<byte>>)
    requires forall i :: 0 <= i < |names| ==> StrLen(names[i]) < ChannelNameSize
    ensures |NamesBytes(names)| <= ChannelNameSize * |names|
  {
    if names != [] {
      NamesBytesLength(names[1..]);
    }
  }

  /** The part before the comment takes at most 356 bytes. */
  lemma HeadLength(h: Header)
    requires WellFormed(h)
    ensures |Head(h)| <= 72 + MaxChannelCount + 16 + RecorderIdSize + RtcIdSize + LatitudeSize + LongitudeSize
                         + 4 + ChannelNameSize * MaxChannelCount + 4
  {
    NamesBytesLength(h.channelNames);
  }

  /** The write fails exactly when the comment does not fit after the rest. */
  lemma WriteFails(h: Header)
    requires WellFormed(h)
    ensures Serialize(h).None? <==> |Head(h)| + StrLen(h.comment) + 1 > BlockSize
  {
  }

  /** A comment of up to 155 characters always fits, whatever the other fields hold. */
  lemma ShortCommentFits(h: Header)
    requires WellFormed(h) && StrLen(h.comment) <= 155
    ensures Serialize(h).Some?
  {
    HeadLength(h);
  }

  /** A written block is 512 bytes, starts with the "time" tag and ends in a zero byte. */
  lemma SerializeShape(h: Header)
    requires WellFormed(h) && Serialize(h).Some?
    ensures |Serialize(h).value| == BlockSize && Serialize(h).value[BlockSize - 1] == 0
    ensures Serialize(h).value[..4] == TagTime
  {
    var head, c := Head(h), Str(h.comment);
    var x := Serialize(h).value;
    assert x == head + c + Zeros(BlockSize - |head + c|);
    LastIsZero(head, c, BlockSize - |head + c|);
    var f, i, n := FixedBytes(h), IdsBytes(h), NamesBytes(h.channelNames);
    var t, co, ch := TimesBytes(h), CountsBytes(h), ChannelsBytes(h);
    calc {
      x[..4];
      { FirstFour(head + c, Zeros(BlockSize - |head + c|)); }
      (head + c)[..4];
      { FirstFour(head, c); }
      head[..4];
      { FirstFour(f + i + TagAlia + n, TagCmnt); FirstFour(f + i + TagAlia, n);
        FirstFour(f + i, TagAlia); FirstFour(f, i); }
      f[..4];
      { FirstFour(t + co, ch); FirstFour(t, co); }
      t[..4];
      { FirstFour(TagTime + h.startTime, Slot(h.syncType, h.syncTime, h.skew)); FirstFour(TagTime, h.startTime); }
      TagTime;
    }
  }

  lemma FirstFour(a: seq<byte>, b: seq<byte>)
    requires |a| >= 4
    ensures (a + b)[..4] == a[..4]
  {
  }

  lemma LastIsZero(a: seq<byte>, c: seq<byte>, pad: nat)
    requires |c| > 0 && c[|c| - 1] == 0
    ensures (a + c + Zeros(pad))[|a + c| + pad - 1] == 0
  {
    if pad == 0 {
      assert (a + c + Zeros(pad))[|a + c| - 1] == c[|c| - 1];
    }
  }

  // ----- the round trip, one production at a time -----

  /** Regrouping a concatenation to the right, as the reader consumes it. */
  lemma Nest3(a: seq<byte>, b: seq<byte>, c: seq<byte>)
    ensures a + b + c == a + (b + c)
  {
  }

  lemma Nest4(a: seq<byte>, b: seq<byte>, c: seq<byte>, d: seq<byte>)
    ensures a + b + c + d == a + (b + (c + d))
  {
  }

  lemma Nest7(a: seq<byte>, b: seq<byte>, c: seq<byte>, d: seq<byte>, e: seq<byte>, f: seq<byte>, g: seq<byte>)
    ensures a + b + c + d + e + f + g == a + (b + (c + d + e + f + g))
  {
  }

  lemma Nest5(a: seq<byte>, b: seq<byte>, c: seq<byte>, d: seq<byte>, e: seq<byte>)
    ensures a + b + c + d + e == a + (b + (c + (d + e)))
  {
  }

  lemma TagOn(tag: seq<byte>, rest: seq<byte>)
    requires |tag| == 4 && |rest| > 0
    ensures ExpectTag(tag + rest, tag) == Some(rest)
  {
    assert (tag + rest)[..4] == tag && (tag + rest)[4..] == rest;
  }

  lemma NumberOn(tag: seq<byte>, v: nat, width: nat, rest: seq<byte>)
    requires |tag| == 4 && v < Pow256(width) && |rest| > 0
    ensures ReadNumber(Number(tag, v, width) + rest, tag, width) == Some(Read(v, rest))
  {
    var s := Number(tag, v, width) + rest;
    Nest3(tag, StoreBE(v, width), rest);
    TagOn(tag, StoreBE(v, width) + rest);
    assert s[4..][..width] == StoreBE(v, width) && s[4..][width..] == rest;
    LoadStoreInRange(v, width);
  }

  lemma StrOn(field: seq<byte>, size: nat, rest: seq<byte>)
    requires IsStringField(field, size) && |rest| > 0
    ensures ReadString(Str(field) + rest, size) == Some(Read(field, rest))
  {
    var c := CString(field);
    var s := Str(field) + rest;
    assert s[|c|] == 0;
    assert forall i :: 0 <= i < |c| ==> s[i] == field[i];
    StrLenIs(s, |c|);
    assert s[..|c|] == c && s[|c| + 1..] == rest;
  }

  lemma TaggedOn(tag: seq<byte>, field: seq<byte>, size: nat, rest: seq<byte>)
    requires |tag| == 4 && IsStringField(field, size) && |rest| > 0 && rest[0] != 0
    ensures ReadTaggedString(Tagged(tag, field) + rest, tag, size) == Some(Read(field, rest))
  {
    Nest3(tag, Str(field), rest);
    TagOn(tag, Str(field) + rest);
    StrOn(field, size, rest);
  }

  lemma {:induction false} NamesOn(names: seq<seq<byte>>, rest: seq<byte>)
    requires forall i :: 0 <= i < |names| ==> IsStringField(names[i], ChannelNameSize)
    requires |rest| > 0
    ensures ReadStrings(NamesBytes(names) + rest, |names|, ChannelNameSize) == Some(Read(names, rest))
  {
    if names != [] {
      var tail := NamesBytes(names[1..]) + rest;
      Nest3(Str(names[0]), NamesBytes(names[1..]), rest);
      StrOn(names[0], ChannelNameSize, tail);
      NamesOn(names[1..], rest);
      ReadStringsStep(NamesBytes(names) + rest, |names|, ChannelNameSize, Read(names[0], tail), Read(names[1..], rest));
      assert [names[0]] + names[1..] == names;
    } else {
      assert NamesBytes(names) + rest == rest;
    }
  }

  lemma SlotOn(bcd: Bcd, syncType: SyncType, syncTime: seq<byte>, skew: int)
    requires |syncTime| == 6 && -0x8000_0000 <= skew < 0x8000_0000
    requires syncType == NoSync ==> syncTime == Zeros(6) && skew == 0
    requires syncType != NoSync ==> bcd.valid(syncTime)
    ensures SyncSlot(bcd, Slot(syncType, syncTime, skew)) == (syncType, syncTime, skew)
  {
    var slot := Slot(syncType, syncTime, skew);
    if syncType != NoSync {
      assert slot[4..10] == syncTime && slot[10..14] == StoreBE(skew, 4);
      LoadStoreI32(skew);
      if syncType == Skew {
        assert slot[..4] == TagSkew != TagSync;
      } else {
        assert slot[..4] == TagSync;
      }
    } else {
      assert slot[..4][0] == 0 != TagSync[0];
      assert slot[..4][0] != TagSkew[0];
    }
  }

  lemma TimesOn(bcd: Bcd, startTime: seq<byte>, syncType: SyncType, syncTime: seq<byte>, skew: int, rest: seq<byte>)
    requires |startTime| == 6 && |syncTime| == 6 && -0x8000_0000 <= skew < 0x8000_0000
    requires syncType == NoSync ==> syncTime == Zeros(6) && skew == 0
    requires syncType != NoSync ==> bcd.valid(syncTime)
    requires |rest| > 0
    ensures ReadTimes(bcd, TagTime + startTime + Slot(syncType, syncTime, skew) + rest)
         == Some(Read((startTime, syncType, syncTime, skew), rest))
  {
    var slot := Slot(syncType, syncTime, skew);
    var s := TagTime + startTime + slot + rest;
    Nest4(TagTime, startTime, slot, rest);
    Nest3(startTime, slot, rest);
    TagOn(TagTime, startTime + slot + rest);
    assert s[4..][..6] == startTime && s[4..][6..] == slot + rest;
    assert s[4..][6..][..14] == slot && s[4..][6..][14..] == rest;
    SlotOn(bcd, syncType, syncTime, skew);
  }

  lemma CountsOn(address: nat, rate: nat, written: nat, lost: nat, rest: seq<byte>)
    requires address < Pow256(4) && rate < Pow256(2) && written < Pow256(8) && lost < Pow256(4)
    requires |rest| > 0
    ensures ReadCounts(Number(TagAddr, address, 4) + Number(TagRate, rate, 2)
                       + Number(TagWrit, written, 8) + Number(TagLost, lost, 4) + rest)
         == Some(Read((address, rate, written, lost), rest))
  {
    var a, r, w, l := Number(TagAddr, address, 4), Number(TagRate, rate, 2),
                      Number(TagWrit, written, 8), Number(TagLost, lost, 4);
    Nest5(a, r, w, l, rest);
    NumberOn(TagAddr, address, 4, r + (w + (l + rest)));
    NumberOn(TagRate, rate, 2, w + (l + rest));
    NumberOn(TagWrit, written, 8, l + rest);
    NumberOn(TagLost, lost, 4, rest);
  }

  lemma GainOn(nc: nat, gain: seq<byte>, rest: seq<byte>)
    requires nc <= MaxChannelCount && |gain| == MaxChannelCount && |rest| > 0
    requires forall i :: nc <= i < MaxChannelCount ==> gain[i] == 0
    ensures ReadGain(TagGain + gain[..nc] + rest, nc) == Some(Read(gain, rest))
  {
    var s := TagGain + gain[..nc] + rest;
    Nest3(TagGain, gain[..nc], rest);
    TagOn(TagGain, gain[..nc] + rest);
    assert s[4..][..nc] == gain[..nc] && s[4..][nc..] == rest;
    assert gain[..nc] + Zeros(MaxChannelCount - nc) == gain;
  }

  lemma ChannelsOn(nc: nat, gain: seq<byte>, bitDepth: byte, rest: seq<byte>)
    requires 1 <= nc <= MaxChannelCount && |gain| == MaxChannelCount && |rest| > 0
    requires forall i :: nc <= i < MaxChannelCount ==> gain[i] == 0
    ensures ReadChannels(Number(TagChan, nc, 1) + TagGain + gain[..nc] + Number(TagBitd, bitDepth, 1) + rest)
         == Some(Read((nc, gain, bitDepth), rest))
  {
    var c, g, b := Number(TagChan, nc, 1), gain[..nc], Number(TagBitd, bitDepth, 1);
    Nest5(c, TagGain, g, b, rest);
    NumberOn(TagChan, nc, 1, TagGain + (g + (b + rest)));
    Nest3(TagGain, g, b + rest);
    GainOn(nc, gain, b + rest);
    NumberOn(TagBitd, bitDepth, 1, rest);
  }

  /** The fixed part the reader recovers from what the writer wrote. */
  function FixedOf(h: Header): Fixed
  {
    Fixed(h.startTime, h.syncType, h.syncTime, h.skew, h.address, h.sampleRate, h.writtenSamples,
          h.lostSamples, h.channelCount, h.gain, h.bitDepth)
  }

  /** The header conditions under which the writer's block reads back as the same header. */
  predicate Readable(bcd: Bcd, h: Header)
  {
    Canonical(h) && h.version == 1 && (h.syncType != NoSync ==> bcd.valid(h.syncTime))
  }

  lemma FixedOn(bcd: Bcd, h: Header, rest: seq<byte>)
    requires Readable(bcd, h) && |rest| > 0
    ensures ReadFixed(bcd, FixedBytes(h) + rest) == Some(Read(FixedOf(h), rest))
  {
    var t, c, ch := TimesBytes(h), CountsBytes(h), ChannelsBytes(h);
    Nest4(t, c, ch, rest);
    TimesOn(bcd, h.startTime, h.syncType, h.syncTime, h.skew, c + (ch + rest));
    assert Pow256(2) == 0x1_0000 && Pow256(4) == 0x1_0000_0000;
    CountsOn(h.address, h.sampleRate, h.writtenSamples, h.lostSamples, ch + rest);
    ChannelsOn(h.channelCount, h.gain, h.bitDepth, rest);
  }

  lemma IdsOn(recorderId: seq<byte>, rtcId: seq<byte>, latitude: seq<byte>, longitude: seq<byte>, rest: seq<byte>)
    requires IsStringField(recorderId, RecorderIdSize) && IsStringField(rtcId, RtcIdSize)
    requires IsStringField(latitude, LatitudeSize) && IsStringField(longitude, LongitudeSize)
    requires |rest| > 0 && rest[0] != 0
    ensures ReadIds(Tagged(TagRcid, recorderId) + Tagged(TagRtci, rtcId) + Tagged(TagLati, latitude)
                    + Tagged(TagLogi, longitude) + rest)
         == Some(Read((recorderId, rtcId, latitude, longitude), rest))
  {
    var a, b, c, d := Tagged(TagRcid, recorderId), Tagged(TagRtci, rtcId),
                      Tagged(TagLati, latitude), Tagged(TagLogi, longitude);
    Nest5(a, b, c, d, rest);
    TaggedOn(TagRcid, recorderId, RecorderIdSize, b + (c + (d + rest)));
    TaggedOn(TagRtci, rtcId, RtcIdSize, c + (d + rest));
    TaggedOn(TagLati, latitude, LatitudeSize, d + rest);
    TaggedOn(TagLogi, longitude, LongitudeSize, rest);
  }

  lemma CommentOn(comment: seq<byte>, pad: nat)
    requires IsStringField(comment, CommentSize)
    ensures StringField(Str(comment) + Zeros(pad), CommentSize) == Some(comment)
  {
    var c := CString(comment);
    var s := Str(comment) + Zeros(pad);
    assert s[|c|] == 0;
    assert forall i :: 0 <= i < |c| ==> s[i] == comment[i];
    StrLenIs(s, |c|);
    assert s[..|c|] == c;
  }

  lemma NamesAndCommentOn(names: seq<seq<byte>>, comment: seq<byte>, pad: nat)
    requires forall i :: 0 <= i < |names| ==> IsStringField(names[i], ChannelNameSize)
    requires IsStringField(comment, CommentSize)
    ensures ReadNamesAndComment(TagAlia + NamesBytes(names) + TagCmnt + Str(comment) + Zeros(pad), |names|)
         == Some((names, comment))
  {
    var n, tail := NamesBytes(names), Str(comment) + Zeros(pad);
    Nest5(TagAlia, n, TagCmnt, Str(comment), Zeros(pad));
    Nest3(n, TagCmnt, tail);
    TagOn(TagAlia, n + (TagCmnt + tail));
    NamesOn(names, TagCmnt + tail);
    TagOn(TagCmnt, tail);
    CommentOn(comment, pad);
  }

  /** The strings after the fixed part read back as written. */
  lemma StringPartOn(recorderId: seq<byte>, rtcId: seq<byte>, latitude: seq<byte>, longitude: seq<byte>,
                     names: seq<seq<byte>>, comment: seq<byte>, pad: nat)
    requires IsStringField(recorderId, RecorderIdSize) && IsStringField(rtcId, RtcIdSize)
    requires IsStringField(latitude, LatitudeSize) && IsStringField(longitude, LongitudeSize)
    requires forall i :: 0 <= i < |names| ==> IsStringField(names[i], ChannelNameSize)
    requires IsStringField(comment, CommentSize)
    ensures ReadStringPart(Tagged(TagRcid, recorderId) + Tagged(TagRtci, rtcId) + Tagged(TagLati, latitude)
                             + Tagged(TagLogi, longitude)
                             + (TagAlia + NamesBytes(names) + TagCmnt + Str(comment) + Zeros(pad)), |names|)
         == Some(Strings(recorderId, rtcId, latitude, longitude, names, comment))
  {
    var tail := TagAlia + NamesBytes(names) + TagCmnt + Str(comment) + Zeros(pad);
    IdsOn(recorderId, rtcId, latitude, longitude, tail);
    NamesAndCommentOn(names, comment, pad);
  }

  /** What the writer writes, the reader reads back: Parse(Serialize(h)) == h. */
  lemma RoundTrip(bcd: Bcd, h: Header)
    requires Readable(bcd, h) && Serialize(h).Some?
    ensures |Serialize(h).value| == BlockSize
    ensures Parse(bcd, Serialize(h).value) == Some(h)
  {
    SerializeShape(h);
    var x := Serialize(h).value;
    var pad := BlockSize - |Head(h) + Str(h.comment)|;
    var tail := TagAlia + NamesBytes(h.channelNames) + TagCmnt + Str(h.comment) + Zeros(pad);
    var rest := IdsBytes(h) + tail;
    assert x == Head(h) + Str(h.comment) + Zeros(pad);
    assert x == FixedBytes(h) + rest by {
      Nest7(FixedBytes(h), IdsBytes(h), TagAlia, NamesBytes(h.channelNames), TagCmnt, Str(h.comment), Zeros(pad));
    }
    assert x[..4] != Magic by { assert x[0] == TagTime[0]; }
    FixedOn(bcd, h, rest);
    var s := Strings(h.recorderId, h.rtcId, h.latitude, h.longitude, h.channelNames, h.comment);
    assert ReadStringPart(rest, FixedOf(h).channelCount) == Some(s) by {
      StringPartOn(h.recorderId, h.rtcId, h.latitude, h.longitude, h.channelNames, h.comment, pad);
    }
    ParseOfParts(bcd, x, FixedOf(h), rest, s);
  }
}
