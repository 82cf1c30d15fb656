/**
 * kum_6d6_header_write (src/6d6/6d6.c:179-233) and its copy helpers (6d6.c:144-177) as the
 * source runs them: a cursor `pos` into a 512-byte buffer, each helper bounded by the room
 * `512 - pos`. Every method is proved to leave the buffer holding the bytes that module
 * HeaderEncode specifies.
 */
module HeaderWrite {
  import opened Wrappers
  import opened Bytes
  import opened Header
  import opened HeaderEncode

  predicate NoNul(s: seq<byte>)
  {
    forall i :: 0 <= i < |s| ==> s[i] != 0
  }

  /**
   * The bytes copy_string and copy_string_0 both store for the C string `s` given `room`
   * bytes: the string and its NUL, or, when that does not fit, the first room - 1
   * characters and a NUL.
   */
  function Copied(s: seq<byte>, room: nat): (r: seq<byte>)
    ensures |r| == if |s| < room then |s| + 1 else room
    ensures room > 0 ==> r[|r| - 1] == 0 && r[..|r| - 1] == s[..|r| - 1]
  {
    if room == 0 then [] else if |s| < room then s + [0] else s[..room - 1] + [0]
  }

  /** What copy_string returns: the characters copied, not counting the NUL. */
  function CopyStringLength(s: seq<byte>, room: nat): (k: nat)
    ensures k <= |Copied(s, room)| && (room > 0 ==> k == |Copied(s, room)| - 1)
  {
    if room == 0 then 0 else if |s| < room then |s| else room - 1
  }

  /** What copy_string_0 returns: the bytes stored, NUL included. */
  function CopyString0Length(s: seq<byte>, room: nat): (k: nat)
    ensures k == |Copied(s, room)|
    ensures k < |s| + 1 <==> room < |s| + 1
  {
    if room == 0 then 0 else if |s| < room then |s| + 1 else room
  }

  /** `b` agrees with `a` before `pos` and holds `bytes` from `pos` on, stated index by index. */
  lemma PrefixAt(a: seq<byte>, b: seq<byte>, pos: nat, bytes: seq<byte>)
    requires |b| == |a| && pos + |bytes| <= |a|
    requires forall j :: 0 <= j < pos ==> b[j] == a[j]
    requires forall j :: 0 <= j < |bytes| ==> b[pos + j] == bytes[j]
    ensures b[..pos + |bytes|] == a[..pos] + bytes
  {
    var c := a[..pos] + bytes;
    forall j | 0 <= j < pos + |bytes|
      ensures b[j] == c[j]
    {
      if j >= pos {
        assert b[pos + (j - pos)] == bytes[j - pos];
      }
    }
  }

  lemma CStringNoNul(field: seq<byte>)
    ensures NoNul(CString(field))
  {
  }

  /** copy_string: stores Copied(s, room) and returns the length without the NUL. */
  method CopyString(buf: array<byte>, pos: nat, s: seq<byte>) returns (k: nat)
    requires buf.Length == BlockSize && pos <= BlockSize && NoNul(s)
    modifies buf
    ensures k == CopyStringLength(s, BlockSize - pos)
    ensures buf[..pos + |Copied(s, BlockSize - pos)|] == old(buf[..pos]) + Copied(s, BlockSize - pos)
    ensures |s| < BlockSize - pos ==> buf[..pos + |s|] == old(buf[..pos]) + s
  {
    var n := BlockSize - pos;
    if n == 0 {
      return 0;
    }
    var i := 0;
    while i < n
      invariant i <= n && i <= |s|
      invariant forall j :: 0 <= j < pos ==> buf[j] == old(buf[j])
      invariant forall j :: 0 <= j < i ==> buf[pos + j] == s[j]
    {
      var c := if i < |s| then s[i] else 0;
      buf[pos + i] := c;
      if c == 0 {
        assert i == |s|;
        PrefixAt(old(buf[..]), buf[..], pos, s + [0]);
        PrefixAt(old(buf[..]), buf[..], pos, s);
        return i;
      }
      i := i + 1;
    }
    buf[pos + n - 1] := 0;
    PrefixAt(old(buf[..]), buf[..], pos, s[..n - 1] + [0]);
    return n - 1;
  }

  /** copy_string_0: stores Copied(s, room) and returns its length, NUL included. */
  method CopyString0(buf: array<byte>, pos: nat, s: seq<byte>) returns (k: nat)
    requires buf.Length == BlockSize && pos <= BlockSize && NoNul(s)
    modifies buf
    ensures k == CopyString0Length(s, BlockSize - pos)
    ensures buf[..pos + k] == old(buf[..pos]) + Copied(s, BlockSize - pos)
  {
    var n := BlockSize - pos;
    if n == 0 {
      return 0;
    }
    var i := 0;
    while i < n
      invariant i <= n && i <= |s|
      invariant forall j :: 0 <= j < pos ==> buf[j] == old(buf[j])
      invariant forall j :: 0 <= j < i ==> buf[pos + j] == s[j]
    {
      var c := if i < |s| then s[i] else 0;
      buf[pos + i] := c;
      if c == 0 {
        assert i == |s|;
        PrefixAt(old(buf[..]), buf[..], pos, s + [0]);
        return i + 1;
      }
      i := i + 1;
    }
    buf[pos + n - 1] := 0;
    PrefixAt(old(buf[..]), buf[..], pos, s[..n - 1] + [0]);
    return n;
  }

  /** copy_bytes: at most room - 1 bytes of `b`. */
  method CopyBytes(buf: array<byte>, pos: nat, b: seq<byte>) returns (k: nat)
    requires buf.Length == BlockSize && pos < BlockSize
    modifies buf
    ensures k == if |b| > BlockSize - pos - 1 then BlockSize - pos - 1 else |b|
    ensures buf[..pos + k] == old(buf[..pos]) + b[..k]
  {
    k := |b|;
    if k > BlockSize - pos - 1 {
      k := BlockSize - pos - 1;
    }
    var i := 0;
    while i < k
      invariant i <= k
      invariant forall j :: 0 <= j < pos ==> buf[j] == old(buf[j])
      invariant forall j :: 0 <= j < i ==> buf[pos + j] == b[j]
    {
      buf[pos + i] := b[i];
      i := i + 1;
    }
    PrefixAt(old(buf[..]), buf[..], pos, b[..k]);
  }

  /** memcpy, memset and st_uN_be / st_i32_be: `bytes` stored at `pos`. */
  method Put(buf: array<byte>, pos: nat, bytes: seq<byte>)
    requires buf.Length == BlockSize && pos + |bytes| <= BlockSize
    modifies buf
    ensures buf[..pos + |bytes|] == old(buf[..pos]) + bytes
  {
    forall i | 0 <= i < |bytes| {
      buf[pos + i] := bytes[i];
    }
    PrefixAt(old(buf[..]), buf[..], pos, bytes);
  }

  /** `pos += copy_string(.., tag, ..)` for a four-character tag, which always fits here. */
  method PutTag(buf: array<byte>, pos: nat, tag: seq<byte>) returns (pos': nat)
    requires buf.Length == BlockSize && |tag| == 4 && NoNul(tag) && pos + 4 < BlockSize
    modifies buf
    ensures pos' == pos + 4
    ensures buf[..pos'] == old(buf[..pos]) + tag
  {
    var k := CopyString(buf, pos, tag);
    pos' := pos + k;
  }

  /** `pos += copy_string(.., tag, ..)` followed by st_uN_be of `width` bytes and `pos += width`. */
  method PutNumber(buf: array<byte>, pos: nat, tag: seq<byte>, v: int, width: nat) returns (pos': nat)
    requires buf.Length == BlockSize && |tag| == 4 && NoNul(tag) && pos + 4 + width < BlockSize
    modifies buf
    ensures pos' == pos + |Number(tag, v, width)|
    ensures buf[..pos'] == old(buf[..pos]) + Number(tag, v, width)
  {
    pos' := PutTag(buf, pos, tag);
    Put(buf, pos', StoreBE(v, width));
    pos' := pos' + width;
    Nest3(old(buf[..pos]), tag, StoreBE(v, width));
  }

  /** `pos += copy_string(.., tag, ..)` followed by `pos += copy_string_0(.., field, ..)`. */
  method PutTagged(buf: array<byte>, pos: nat, tag: seq<byte>, field: seq<byte>, size: nat) returns (pos': nat)
    requires buf.Length == BlockSize && |tag| == 4 && NoNul(tag) && HasNul(field, size)
    requires pos + 4 + size < BlockSize
    modifies buf
    ensures pos' == pos + |Tagged(tag, field)|
    ensures buf[..pos'] == old(buf[..pos]) + Tagged(tag, field)
  {
    pos' := PutTag(buf, pos, tag);
    CStringNoNul(field);
    var k := CopyString0(buf, pos', CString(field));
    pos' := pos' + k;
    Nest3(old(buf[..pos]), tag, Str(field));
  }

  /** The 14-byte sync slot: memcpy of the tag and the BCD time and st_i32_be of the skew, or memset 0. */
  method WriteSlot(buf: array<byte>, pos: nat, syncType: SyncType, syncTime: seq<byte>, skew: int)
    requires buf.Length == BlockSize && |syncTime| == 6 && pos + 14 <= BlockSize
    modifies buf
    ensures buf[..pos + 14] == old(buf[..pos]) + Slot(syncType, syncTime, skew)
  {
    if syncType == Sync || syncType == Skew {
      var tag := if syncType == Sync then TagSync else TagSkew;
      Put(buf, pos, tag);
      Put(buf, pos + 4, syncTime);
      Put(buf, pos + 10, StoreBE(skew, 4));
      Nest4(old(buf[..pos]), tag, syncTime, StoreBE(skew, 4));
      Nest3(tag, syncTime, StoreBE(skew, 4));
    } else {
      Put(buf, pos, Zeros(14));
    }
  }

  /** "time", the start time and the sync slot. */
  method WriteTimes(buf: array<byte>, pos: nat, h: Header) returns (pos': nat)
    requires buf.Length == BlockSize && |h.startTime| == 6 && |h.syncTime| == 6 && pos + 24 < BlockSize
    modifies buf
    ensures pos' == pos + |TimesBytes(h)|
    ensures buf[..pos'] == old(buf[..pos]) + TimesBytes(h)
  {
    pos' := PutTag(buf, pos, TagTime);
    var k := CopyBytes(buf, pos', h.startTime);
    assert h.startTime[..k] == h.startTime;
    pos' := pos' + k;
    WriteSlot(buf, pos', h.syncType, h.syncTime, h.skew);
    pos' := pos' + 14;
    Nest4(old(buf[..pos]), TagTime, h.startTime, Slot(h.syncType, h.syncTime, h.skew));
    Nest3(TagTime, h.startTime, Slot(h.syncType, h.syncTime, h.skew));
  }

  /** Address, sample rate, written and lost samples. */
  method WriteCounts(buf: array<byte>, pos: nat, h: Header) returns (pos': nat)
    requires buf.Length == BlockSize && pos + 34 < BlockSize
    modifies buf
    ensures pos' == pos + |CountsBytes(h)|
    ensures buf[..pos'] == old(buf[..pos]) + CountsBytes(h)
  {
    var a := Number(TagAddr, h.address, 4);
    var r := Number(TagRate, h.sampleRate, 2);
    var w := Number(TagWrit, h.writtenSamples, 8);
    var l := Number(TagLost, h.lostSamples, 4);
    pos' := PutNumber(buf, pos, TagAddr, h.address, 4);
    pos' := PutNumber(buf, pos', TagRate, h.sampleRate, 2);
    pos' := PutNumber(buf, pos', TagWrit, h.writtenSamples, 8);
    pos' := PutNumber(buf, pos', TagLost, h.lostSamples, 4);
    Nest5(old(buf[..pos]), a, r, w, l);
    Nest4(a, r, w, l);
  }

  /** Channel count, the first channel_count gains (copy_bytes) and the bit depth. */
  method WriteChannels(buf: array<byte>, pos: nat, h: Header) returns (pos': nat)
    requires buf.Length == BlockSize && h.channelCount <= MaxChannelCount && h.channelCount <= |h.gain|
    requires pos + 14 + MaxChannelCount < BlockSize
    modifies buf
    ensures pos' == pos + |ChannelsBytes(h)|
    ensures buf[..pos'] == old(buf[..pos]) + ChannelsBytes(h)
  {
    var nc := h.channelCount;
    var c := Number(TagChan, nc, 1);
    var g := h.gain[..nc];
    var b := Number(TagBitd, h.bitDepth, 1);
    pos' := PutNumber(buf, pos, TagChan, nc, 1);
    pos' := PutTag(buf, pos', TagGain);
    var k := CopyBytes(buf, pos', g);
    assert g[..k] == g;
    pos' := pos' + k;
    pos' := PutNumber(buf, pos', TagBitd, h.bitDepth, 1);
    Nest5(old(buf[..pos]), c, TagGain, g, b);
    Nest4(c, TagGain, g, b);
  }

  /** The four identification strings, each after its tag. */
  method WriteIds(buf: array<byte>, pos: nat, h: Header) returns (pos': nat)
    requires buf.Length == BlockSize && pos + 4 * 36 < BlockSize
    requires HasNul(h.recorderId, RecorderIdSize) && HasNul(h.rtcId, RtcIdSize)
    requires HasNul(h.latitude, LatitudeSize) && HasNul(h.longitude, LongitudeSize)
    modifies buf
    ensures pos' == pos + |IdsBytes(h)|
    ensures buf[..pos'] == old(buf[..pos]) + IdsBytes(h)
  {
    var a := Tagged(TagRcid, h.recorderId);
    var b := Tagged(TagRtci, h.rtcId);
    var c := Tagged(TagLati, h.latitude);
    var d := Tagged(TagLogi, h.longitude);
    pos' := PutTagged(buf, pos, TagRcid, h.recorderId, RecorderIdSize);
    pos' := PutTagged(buf, pos', TagRtci, h.rtcId, RtcIdSize);
    pos' := PutTagged(buf, pos', TagLati, h.latitude, LatitudeSize);
    pos' := PutTagged(buf, pos', TagLogi, h.longitude, LongitudeSize);
    Nest5(old(buf[..pos]), a, b, c, d);
    Nest4(a, b, c, d);
  }

  lemma {:induction false} NamesBytesSnoc(names: seq<seq<byte>>, name: seq<byte>)
    ensures NamesBytes(names + [name]) == NamesBytes(names) + Str(name)
  {
    if names == [] {
      assert names + [name] == [name];
      assert [name][1..] == [];
    } else {
      assert (names + [name])[1..] == names[1..] + [name];
      NamesBytesSnoc(names[1..], name);
      Nest3(Str(names[0]), NamesBytes(names[1..]), Str(name));
    }
  }

  /** `pos += copy_string_0(.., name, ..)` for one channel name, which always fits here. */
  method PutName(buf: array<byte>, pos: nat, name: seq<byte>) returns (pos': nat)
    requires buf.Length == BlockSize && HasNul(name, ChannelNameSize) && pos + ChannelNameSize < BlockSize
    modifies buf
    ensures pos' == pos + |Str(name)| <= pos + ChannelNameSize
    ensures buf[..pos'] == old(buf[..pos]) + Str(name)
  {
    CStringNoNul(name);
    var k := CopyString0(buf, pos, CString(name));
    pos' := pos + k;
  }

  /** The loop over the channel names, one copy_string_0 each. */
  method WriteNames(buf: array<byte>, pos: nat, names: seq<seq<byte>>) returns (pos': nat)
    requires buf.Length == BlockSize
    requires forall i :: 0 <= i < |names| ==> HasNul(names[i], ChannelNameSize)
    requires pos + ChannelNameSize * |names| < BlockSize
    modifies buf
    ensures pos' == pos + |NamesBytes(names)| <= pos + ChannelNameSize * |names|
    ensures buf[..pos'] == old(buf[..pos]) + NamesBytes(names)
  {
    ghost var a := old(buf[..pos]);
    pos' := pos;
    var i := 0;
    while i < |names|
      invariant i <= |names|
      invariant pos' == pos + |NamesBytes(names[..i])| <= pos + ChannelNameSize * i
      invariant buf[..pos'] == a + NamesBytes(names[..i])
    {
      ghost var done := names[..i];
      pos' := PutName(buf, pos', names[i]);
      assert names[..i + 1] == done + [names[i]];
      NamesBytesSnoc(done, names[i]);
      Nest3(a, NamesBytes(done), Str(names[i]));
      i := i + 1;
    }
    assert names[..i] == names;
  }

  /** The sizes WriteHead relies on: no string part can run past the block. */
  lemma StringPartsLength(h: Header)
    requires WellFormed(h)
    ensures |IdsBytes(h)| <= 4 * 36
    ensures |NamesBytes(h.channelNames)| <= ChannelNameSize * h.channelCount
  {
    NamesBytesLength(h.channelNames);
  }

  /** Everything up to the bit depth. */
  method WriteFixed(buf: array<byte>, h: Header) returns (pos: nat)
    requires buf.Length == BlockSize && |h.startTime| == 6 && |h.syncTime| == 6
    requires h.channelCount <= MaxChannelCount && h.channelCount <= |h.gain|
    modifies buf
    ensures pos == |FixedBytes(h)|
    ensures buf[..pos] == FixedBytes(h)
  {
    pos := WriteTimes(buf, 0, h);
    assert buf[..pos] == TimesBytes(h);
    pos := WriteCounts(buf, pos, h);
    assert buf[..pos] == TimesBytes(h) + CountsBytes(h);
    pos := WriteChannels(buf, pos, h);
  }

  /** The ids, "alia", the channel names and "cmnt", written after the fixed part. */
  method WriteStrings(buf: array<byte>, pos: nat, h: Header) returns (pos': nat)
    requires WellFormed(h) && buf.Length == BlockSize && pos <= 72 + MaxChannelCount
    modifies buf
    ensures pos' == pos + |IdsBytes(h)| + 4 + |NamesBytes(h.channelNames)| + 4 < BlockSize
    ensures buf[..pos'] == old(buf[..pos]) + IdsBytes(h) + TagAlia + NamesBytes(h.channelNames) + TagCmnt
  {
    StringPartsLength(h);
    pos' := WriteIds(buf, pos, h);
    pos' := PutTag(buf, pos', TagAlia);
    pos' := WriteNames(buf, pos', h.channelNames);
    pos' := PutTag(buf, pos', TagCmnt);
  }

  /** Everything before the comment. */
  method WriteHead(buf: array<byte>, h: Header) returns (pos: nat)
    requires WellFormed(h) && buf.Length == BlockSize
    modifies buf
    ensures pos == |Head(h)| < BlockSize
    ensures buf[..pos] == Head(h)
  {
    pos := WriteFixed(buf, h);
    pos := WriteStrings(buf, pos, h);
  }

  /** `if (pos < 512) memset(buffer + pos, 0, 512 - pos)`. */
  method PadZeros(buf: array<byte>, pos: nat)
    requires buf.Length == BlockSize && pos <= BlockSize
    modifies buf
    ensures buf[..] == old(buf[..pos]) + Zeros(BlockSize - pos)
  {
    if pos < BlockSize {
      Put(buf, pos, Zeros(BlockSize - pos));
    } else {
      assert old(buf[..pos]) + Zeros(0) == old(buf[..pos]);
    }
    assert buf[..] == buf[..BlockSize];
  }

  /**
   * kum_6d6_header_write: true where the C returns 0, with the block of Serialize; false
   * where it returns -1 because the comment does not fit, with the block left holding
   * everything up to the truncated comment.
   */
  method WriteHeader(h: Header, buf: array<byte>) returns (ok: bool)
    requires WellFormed(h) && buf.Length == BlockSize
    modifies buf
    ensures ok <==> Serialize(h).Some?
    ensures ok ==> buf[..] == Serialize(h).value
    ensures !ok ==> |Head(h)| < BlockSize && buf[..] == Head(h) + Copied(CString(h.comment), BlockSize - |Head(h)|)
  {
    var pos := WriteHead(buf, h);
    ok := WriteComment(buf, pos, h.comment, Head(h));
  }

  /** The comment after the rest, then the zero fill; false where the comment and its NUL do not fit. */
  method WriteComment(buf: array<byte>, pos: nat, comment: seq<byte>, ghost head: seq<byte>) returns (ok: bool)
    requires buf.Length == BlockSize && pos == |head| < BlockSize && buf[..pos] == head
    modifies buf
    ensures ok <==> Padded(head + Str(comment)).Some?
    ensures ok ==> buf[..] == Padded(head + Str(comment)).value
    ensures !ok ==> buf[..] == head + Copied(CString(comment), BlockSize - |head|)
  {
    CStringNoNul(comment);
    var n := CopyString0(buf, pos, CString(comment));
    if n < StrLen(comment) + 1 {
      assert buf[..] == buf[..BlockSize];
      return false;
    }
    CopiedWhole(comment, BlockSize - pos);
    PadZeros(buf, pos + n);
    return true;
  }

  /** A comment with room for its NUL is copied whole: the bytes of Str. */
  lemma CopiedWhole(comment: seq<byte>, room: nat)
    requires StrLen(comment) < room
    ensures Copied(CString(comment), room) == Str(comment)
  {
  }
}
