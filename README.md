# 6D6 to MiniSEED conversion core, in Dafny

This project models the core of the 6D6 data logger to MiniSEED conversion and proves
properties of the model. The core has three parts.

- **The 6D6 header codec** (`src/6d6/6d6.c`). `kum_6d6_header_read` parses a 512-byte,
  tag-prefixed header block. `kum_6d6_header_write` lays the same header down with the copy
  helpers `copy_string`, `copy_string_0` and `copy_bytes`. `format_duration` prints a
  number of seconds as "1d 2h 3m 4s".
- **The block and frame demultiplexer** of `main` in `src/6d6mseed.c`. It chooses the
  start and end headers and fixes the time base, including the leap-second and skew
  corrections. It skips to the data, splits every block into 128 big-endian words and
  groups them: control groups carry time anchors, the end frame and ignored status frames;
  sample groups carry one word per channel.
- **The per-channel MiniSEED writer `WMSeed`** (`src/wmseed.h`). It buffers samples and
  accepts rate-limited, strictly increasing time anchors. At each accepted anchor it drains
  the buffer into fixed-capacity records, and cuts the output files at UTC-aligned times.
  It names them from a `%`-code template and derives their directory.

The model follows the source's own form.

- **Header reader** (`header.dfy`, `header_read.dfy`):
  - module `Header` states the reader as a strict grammar over the unread suffix
    `x[o..]`;
  - module `HeaderRead` is the cursor-driven reader over an `array<byte>`, with loops for
    `strlen`, `SKIP0` and the channel names;
  - `ReadHeader` is proved equal to `Parse`.
- **Header writer** (`header_encode.dfy`, `header_write.dfy`):
  - module `HeaderEncode` states the bytes the writer lays down, `Serialize`, and proves
    the round trip `Parse(Serialize(h)) == Some(h)`;
  - module `HeaderWrite` is the writer itself: a cursor `pos` into an `array<byte>`, with
    the three copy loops;
  - `WriteHeader` is proved to leave exactly `Serialize(h)` in the buffer, and what the
    C leaves when the comment does not fit.
- **Duration** (`duration.dfy`):
  - `FormatDuration` is the imperative `format_duration`, proved equal to
    `DurationText`;
  - `DurationText` is proved to read back as the duration, and to fit the caller's
    128-byte buffer.
- **Demultiplexer** (module `Demux`, `decoder.dfy`):
  - `Step` handles one word over the explicit state `remaining`, `pos`, `frame`,
    `have_time` and `sample_number`, and `Demux` runs it over a word sequence;
  - the block and word loops of `main` (`DecodeBlock`, `DecodeData`, `ConvertFrom`,
    `Convert`) are methods proved equal to the functions `Demux`, `DataOutcome` and
    `Conversion`;
  - what `main` passes to the writers is a list of events: `Anchor(time, sampleNumber)`
    for the `wmseed_time` calls, and `Samples(values)` for the `wmseed_sample` calls;
  - lemmas state what the event list satisfies.
- **Writer** (module `Writer`, `writer.dfy`; module `Paths`, `paths.dfy`):
  - `WMSeed` is a class whose methods update its fields as the C functions do;
  - the sample buffer is a head sample number plus a `seq`;
  - the files written are a `seq<OutFile>` of records;
  - a ghost `pushed` sequence records every sample handed in, and the invariant `Stable`
    states that what was written, plus what is pending, plus what is still buffered, is
    exactly that sequence, in order;
  - `Filename` is the loop of `wmseed__filename`, proved against `Expand`;
  - `DirnameOf` is the loop of `wmseed__dirname` with its test corrected (see "## Findings"),
    proved against `Dirname`; `DirnameAsWritten` states the test as written;
  - a template with an unknown `%`-code or a trailing `%` names no file. `wmseed_new`
    takes it, and the first `wmseed__create_file` hands the null name to `wmseed__dirname`.
    The model's writer then halts (`halted`) with no file opened, and nothing calls it
    again.
- **Collaborators** (`clock.dfy`, `bytes.dfy`, `text.dfy`):
  - the headers `bcd.h` and `tai.h` are not part of this model; their operations are
    function-valued parameters, the datatypes `Bcd` and `Tai`;
  - the big-endian loads and stores of `number.h` are defined directly in `Bytes`;
  - printf's `%ld` and `%0Nd` are defined directly in `Text`.

Two details of the header codec, as `src/6d6/6d6.c` has them:

- The skew field is read and written as a signed 32-bit big-endian value (`ld_i32_be`,
  `st_i32_be`), not a 64-bit one.
- A `sync` or `skew` tag whose time is not valid BCD does not fail the read. The slot is
  read as "no sync": zero time and zero skew.

Two consequences of the cut arithmetic of `wmseed_time` are stated as lemmas.

- The cut sample is chosen from the exact quotient, but record times are rounded. The
  sample before the cut can therefore be stamped exactly at the cut time and still stay
  in the old file (`RoundStampsBeforeCut`).
- The cut can fall on the anchor's own sample number (`SplitAtAnchor`). `main` calls
  `wmseed_time` before it pushes that sample, so the drain does not reach it. The next
  anchor's cut time lies after this anchor's time (`SplitTimeBetween`), so no later call
  makes that cut either.

The model's constants are as follows.

- `KUM_6D6_MAX_CHANNEL_COUNT` and the sizes of the header's character arrays come from
  `6d6.h`, which is not part of this model. The model fixes them as named constants:
  4 channels, 32-byte identification and channel-name fields, and a 256-byte comment.
- The proofs use the values only to show that everything before the comment fits in the
  block.

## Model

| member | source | states |
|---|---|---|
| Header.StrLen | src/6d6/6d6.c:91 | the length is the index of the first NUL, or the whole field when there is none |
| Header.ExpectTag | src/6d6/6d6.c:29-30 | a tag is accepted exactly when the next four bytes are the tag and the cursor stays inside the block; the cursor then moves by four |
| Header.Field | src/6d6/6d6.c:31-32 | a fixed-width copy succeeds exactly when ADV_O stays below 512, and yields those bytes and the suffix after them |
| Header.SkipZeros | src/6d6/6d6.c:13 | SKIP0 fails exactly when only zeros remain; otherwise it stops at the first non-zero byte, having skipped only zeros |
| Header.StringField | src/6d6/6d6.c:91-94 | a string is refused exactly when its length reaches the field size; otherwise the field holds the string and zeros after it |
| Header.ReadString | src/6d6/6d6.c:91-95 | on success the string was shorter than the field, and the cursor moved past the string and its NUL |
| Header.ReadStrings | src/6d6/6d6.c:124-132 | the channel-name loop yields exactly `count` NUL-terminated fields |
| Header.ReadTimes | src/6d6/6d6.c:29-47 | "time" and six bytes of start time, then a slot that always takes 14 bytes and is SYNC, SKEW or NONE |
| Header.ReadNumber | src/6d6/6d6.c:49-52 | a tag followed by an unsigned big-endian value of the field's width, which is below 256^width |
| Header.ReadGain | src/6d6/6d6.c:75-81 | exactly channel_count gain bytes are copied, and the rest are zero |
| Header.ReadCounts | src/6d6/6d6.c:48-68 | addr, rate, writ and lost within 32, 16, 64 and 32 bits |
| Header.ReadChannels | src/6d6/6d6.c:69-87 | the read fails unless 1 <= channel_count <= the maximum; the gains beyond channel_count are zero |
| Header.ReadFixed | src/6d6/6d6.c:28-87 | the fixed part read satisfies every range and zero-fill guarantee of the reader |
| Header.ReadIds | src/6d6/6d6.c:88-123 | rcid, rtci, lati and logi are all NUL-terminated within their fields |
| Header.ReadNamesAndComment | src/6d6/6d6.c:124-141 | exactly channel_count names, each terminated within its field, and a terminated comment |
| Header.Parse | src/6d6/6d6.c:15-142 | a non-zero last byte fails; the version is 2 exactly when the block starts with "6D6\002"; a successful read is canonical and has a valid BCD sync time whenever it has a sync type |
| Header.StrLenIs | src/6d6/6d6.c:91 | the index of the first NUL is the length strlen finds |
| HeaderRead.StrLenAt | src/6d6/6d6.c:91 | the strlen loop finds StrLen of the suffix, which ends inside the block |
| HeaderRead.SkipZerosAt | src/6d6/6d6.c:13 | the SKIP0 loop agrees with SkipZeros, including its failure at the block's end |
| HeaderRead.TagAt | src/6d6/6d6.c:29-30 | the memcmp and ADV_O(4) agree with ExpectTag |
| HeaderRead.NumberAt | src/6d6/6d6.c:49-52 | a tag and ld_uN_be agree with ReadNumber |
| HeaderRead.StringFieldAt | src/6d6/6d6.c:89-94 | the copy and zero-fill agree with StringField |
| HeaderRead.StringAt | src/6d6/6d6.c:89-95 | the field, then ADV_O(n + 1), agrees with ReadString |
| HeaderRead.TaggedStringAt | src/6d6/6d6.c:88-96 | tag, string and SKIP0 agree with ReadTaggedString |
| HeaderRead.NameAt | src/6d6/6d6.c:126-130 | one round of the names loop either keeps the remaining list equal to the specification or fails it entirely |
| HeaderRead.NamesAt | src/6d6/6d6.c:124-131 | the loop over the channel names agrees with ReadStrings |
| HeaderRead.TimesAt | src/6d6/6d6.c:28-47 | agrees with ReadTimes |
| HeaderRead.CountsAt | src/6d6/6d6.c:48-68 | agrees with ReadCounts |
| HeaderRead.GainAt | src/6d6/6d6.c:75-81 | agrees with ReadGain |
| HeaderRead.ChannelsAt | src/6d6/6d6.c:69-87 | agrees with ReadChannels |
| HeaderRead.FixedAt | src/6d6/6d6.c:28-87 | agrees with ReadFixed |
| HeaderRead.IdsAt | src/6d6/6d6.c:88-123 | agrees with ReadIds |
| HeaderRead.NamesAndCommentAt | src/6d6/6d6.c:124-141 | agrees with ReadNamesAndComment |
| HeaderRead.ReadHeader | src/6d6/6d6.c:15-142 | kum_6d6_header_read over the block returns exactly Parse of it: the header, or None where the C returns -1 |
| HeaderWrite.Copied | src/6d6/6d6.c:144-166 | the stored bytes are the whole string and its NUL when they fit, else room - 1 characters and a NUL; never more than room bytes |
| HeaderWrite.CopyStringLength | src/6d6/6d6.c:144-154 | copy_string returns the number of bytes stored, less the NUL |
| HeaderWrite.CopyString0Length | src/6d6/6d6.c:156-166 | copy_string_0 returns the bytes stored, NUL included, and less than the string plus its NUL exactly when the room is too small |
| HeaderWrite.CopyString | src/6d6/6d6.c:144-154 | the loop stores Copied and returns CopyStringLength, leaving the bytes before pos alone |
| HeaderWrite.CopyString0 | src/6d6/6d6.c:156-166 | the loop stores Copied and returns its length, leaving the bytes before pos alone |
| HeaderWrite.CopyBytes | src/6d6/6d6.c:168-177 | copy_bytes copies min(blen, n - 1) bytes and returns that count |
| HeaderWrite.PutTag | src/6d6/6d6.c:185 | a four-character tag is stored whole and pos moves by four |
| HeaderWrite.PutNumber | src/6d6/6d6.c:200-201 | a tag and st_uN_be of the value are stored |
| HeaderWrite.PutTagged | src/6d6/6d6.c:212-213 | a tag and a string field with its NUL are stored |
| HeaderWrite.WriteSlot | src/6d6/6d6.c:188-199 | the slot is "sync" or "skew", time and st_i32_be of the skew, or 14 zero bytes |
| HeaderWrite.WriteTimes | src/6d6/6d6.c:185-199 | stores TimesBytes |
| HeaderWrite.WriteCounts | src/6d6/6d6.c:200-207 | stores CountsBytes |
| HeaderWrite.WriteChannels | src/6d6/6d6.c:208-211 | stores the channel count, the first channel_count gains and the bit depth |
| HeaderWrite.WriteIds | src/6d6/6d6.c:212-219 | stores the four tagged identification strings |
| HeaderWrite.PutName | src/6d6/6d6.c:222 | one channel name and its NUL are stored whole |
| HeaderWrite.WriteNames | src/6d6/6d6.c:221-223 | the loop stores every channel name back to back |
| HeaderWrite.WriteFixed | src/6d6/6d6.c:184-211 | the buffer starts with FixedBytes |
| HeaderWrite.WriteStrings | src/6d6/6d6.c:212-224 | after the fixed part come the ids, "alia", the names and "cmnt", still short of the block's end |
| HeaderWrite.WriteHead | src/6d6/6d6.c:184-224 | everything before the comment is written untruncated |
| HeaderWrite.PadZeros | src/6d6/6d6.c:228-230 | every byte from pos to 511 is zero |
| HeaderWrite.WriteComment | src/6d6/6d6.c:225-231 | the write succeeds exactly when the comment and its NUL fit; then the block is padded with zeros, else it holds the truncated comment |
| HeaderWrite.WriteHeader | src/6d6/6d6.c:179-233 | kum_6d6_header_write succeeds exactly when Serialize does, and then leaves exactly Serialize(h); on failure the block holds the head and the truncated comment |
| HeaderWrite.CopiedWhole | src/6d6/6d6.c:225-226 | a comment with room for its NUL is stored in full |
| HeaderEncode.WriteFails | src/6d6/6d6.c:225-226 | the write fails exactly when the comment and its NUL do not fit after the rest |
| HeaderEncode.HeadLength | src/6d6/6d6.c:184-224 | the part before the comment takes at most 356 bytes |
| HeaderEncode.ShortCommentFits | src/6d6/6d6.c:225-226 | a comment of up to 155 characters always fits |
| HeaderEncode.SerializeShape | src/6d6/6d6.c:179-233 | a written block is 512 bytes, ends in zero and starts with "time", never with the "6D6\002" marker |
| HeaderEncode.SlotOn | src/6d6/6d6.c:34-47 | the slot the writer stores reads back as the same sync type, time and skew |
| HeaderEncode.TimesOn | src/6d6/6d6.c:29-47 | the written times read back |
| HeaderEncode.CountsOn | src/6d6/6d6.c:48-68 | the written counters read back |
| HeaderEncode.ChannelsOn | src/6d6/6d6.c:69-87 | the written channel count, gains and bit depth read back |
| HeaderEncode.FixedOn | src/6d6/6d6.c:28-87 | the written fixed part reads back |
| HeaderEncode.StrOn | src/6d6/6d6.c:91-95 | a written string field reads back, the cursor just past its NUL |
| HeaderEncode.TaggedOn | src/6d6/6d6.c:88-96 | a written tagged string reads back |
| HeaderEncode.NamesOn | src/6d6/6d6.c:124-131 | the written channel names read back |
| HeaderEncode.IdsOn | src/6d6/6d6.c:88-123 | the written identification strings read back |
| HeaderEncode.CommentOn | src/6d6/6d6.c:135-141 | a written comment reads back whatever zero padding follows it |
| HeaderEncode.NamesAndCommentOn | src/6d6/6d6.c:124-141 | the written names and comment read back |
| HeaderEncode.StringPartOn | src/6d6/6d6.c:88-141 | the strings after the fixed part read back |
| HeaderEncode.RoundTrip | src/6d6/6d6.c:15-233 | a header the writer accepts reads back as itself: Parse(Serialize(h)) == Some(h) |
| Bytes.LoadStore | src/6d6/6d6.c:200-207 | loading what st_uN_be stored gives the value modulo 256^n |
| Bytes.LoadStoreInRange | src/6d6/6d6.c:200-207 | for values in range the store and load are inverse |
| Bytes.LoadStoreI32 | src/6d6/6d6.c:37 | ld_i32_be of st_i32_be is the identity on 32-bit values |
| Bytes.LoadI32 | src/6d6mseed.c:213 | a 32-bit two's complement word lies in [-2^31, 2^31) |
| Text.Decimal | src/6d6/6d6.c:244 | "%ld" is a non-empty string of digits with no leading zero |
| Text.DecimalRoundTrip | src/6d6/6d6.c:244 | the digits read back as the value |
| Text.DecimalLength | src/6d6/6d6.c:244 | a value below 10^k takes at most k digits |
| Text.PadDecimalValue | src/wmseed.h:104-122 | "%0Nd" of a non-negative value is all digits and reads back as the value |
| Duration.Split | src/6d6/6d6.c:242-262 | days, hours < 24, minutes < 60 and seconds < 60 add back up to the duration |
| Duration.AppendPart | src/6d6/6d6.c:250-254 | a non-zero field is appended after a space unless nothing was written yet |
| Duration.FormatDuration | src/6d6/6d6.c:235-269 | format_duration writes DurationText and returns its length; "0s" when d <= 0 |
| Duration.TokensOfJoin | src/6d6/6d6.c:251 | splitting the text at its spaces gives back the fields written |
| Duration.PartsValue | src/6d6/6d6.c:242-266 | the non-zero fields have no spaces and denote the duration |
| Duration.DurationRoundTrip | src/6d6/6d6.c:235-269 | the text read back denotes the duration, and 0 for a non-positive one |
| Duration.DurationNonEmpty | src/6d6/6d6.c:235-269 | the text is never empty |
| Duration.DurationFits | src/6d6/6d6.c:350 | the text of any 64-bit duration is shorter than the 128-byte buffer the caller passes |
| Demux.MakeTimebase | src/6d6mseed.c:180-190 | the sync time is bcd_time of the start header's sync time and the start skew is the start header's skew; the start time is bcd_time of the start header's start time plus the leap seconds (in microseconds) between the sync and the start; a skew is used exactly when the end header is SKEW with a valid BCD time, and then the skew time is bcd_time of the end header's sync time and the end skew is the end header's skew plus the leap seconds between the sync and the skew time; without a skew the rate is 1; the rate times the sync-to-skew interval is the change from the start skew to that end skew |
| Demux.SkewRate | src/6d6mseed.c:187 | rate times interval is the change of offset |
| Demux.SkewEndpoints | src/6d6mseed.c:227-230 | the corrected time at the sync is sync + start skew, and at the skew time it is skew time + end skew |
| Demux.SkewMeetsHeaders | src/6d6mseed.c:183-190 | against the headers themselves: an anchor that falls on the start header's sync time is stamped at that time plus the start header's skew, and one that falls on the end header's skew measurement is stamped at that time plus the end header's skew plus the leap seconds between the two instants |
| Demux.AnchorTimeNoSkew | src/6d6mseed.c:227 | without a skew, anchors differ by exactly 10^6 microseconds per second of frame[1] |
| Demux.Words | src/6d6mseed.c:211-217 | a block is 128 words, word k being ld_i32_be at byte 4k |
| Demux.DataWordsAppend | src/6d6mseed.c:207-211 | the words of consecutive blocks are the words of each block, in order |
| Demux.StepFacts | src/6d6mseed.c:212-257 | only a completed group yields an event or ends; an anchor carries the current sample number and turns time on; a sample group needs time on, carries channel_count values and advances the sample number by exactly one |
| Demux.Step | src/6d6mseed.c:212-219 | one word keeps the group bookkeeping consistent: while a group is open, pos + remaining is the size its first word chose (4 for an odd code, channel_count otherwise) |
| Demux.GroupPrefix | src/6d6mseed.c:212-219 | after the first j words of a group, read from between groups, those words fill frame[0..j) in order, pos is j, remaining is the group size minus j, and nothing has been passed on |
| Demux.WholeGroup | src/6d6mseed.c:212-257 | a complete group read from between groups ends between groups; it stops the run exactly for code 13; code 1 passes on the anchor at start_time + 10^6 * word 1 (skew-corrected) with the current sample number and turns time on; other odd codes pass on nothing; an even group passes on exactly its own words, word c to channel c, when time is on and nothing otherwise, and advances the sample number by one exactly then |
| Demux.GroupEnd | src/6d6mseed.c:217-257 | the word that completes a group leaves the whole group in frame and yields the event its first word selects |
| Demux.ControlGroup | src/6d6mseed.c:221-249 | a four-word control group yields an anchor exactly for code 1, at start_time + 10^6 * its second word (skew-corrected when a skew is used); it ends decoding exactly for code 13; other codes change neither the time flag nor the sample number |
| Demux.SampleGroup | src/6d6mseed.c:250-256 | with time on, an even group of channel_count words gives channel c its word c, for every c, and advances the sample number by one |
| Demux.Demux | src/6d6mseed.c:212-219 | the group state stays consistent over any sequence of words |
| Demux.DemuxAppend | src/6d6mseed.c:207-219 | the group state carries across block boundaries: decoding two stretches of words is decoding their concatenation |
| Demux.StopIsFinal | src/6d6mseed.c:244-245 | nothing after the end frame is decoded |
| Demux.FirstEventIsAnchor | src/6d6mseed.c:250-251 | sample groups before the first time anchor are dropped, so the first event is an anchor |
| Demux.SampleNumbering | src/6d6mseed.c:224-256 | the sample counter advances once per sample group passed on, and every anchor carries the number of sample groups before it |
| Demux.SampleWidth | src/6d6mseed.c:252-254 | every sample group passes one value to each channel |
| Demux.ChooseHeaders | src/6d6mseed.c:165-177 | the start header is block 0, or block 1 when block 0 does not parse; the end header is the next block; both failing stops the run |
| Demux.ReadBlock | src/6d6mseed.c:86-92 | read_block yields the next input block, or fails exactly when the input has run out |
| Demux.SelectHeaders | src/6d6mseed.c:165-177 | the reads of the header blocks agree with ChooseHeaders |
| Demux.DecodeBlock | src/6d6mseed.c:211-259 | the word loop over one block agrees with Demux on the block's words, stopping at the end frame |
| Demux.DataStopped | src/6d6mseed.c:244-245 | an end frame within the blocks read ends the data phase there |
| Demux.DecodeData | src/6d6mseed.c:207-264 | the data loop decodes the blocks up to the end address in turn, ending at the end frame, the end address or the end of input |
| Demux.ConvertFrom | src/6d6mseed.c:179-264 | main after the headers fixes the time base, skips to the start address and runs the data loop |
| Demux.Convert | src/6d6mseed.c:165-265 | main from the first read_block to `done` agrees with Conversion |
| Paths.Filename | src/wmseed.h:90-146 | the template loop agrees with Expand |
| Paths.EscapeExpands | src/wmseed.h:100-102 | "%%" expands to "%" |
| Paths.LiteralExpands | src/wmseed.h:140-142 | characters other than `%` are copied through |
| Paths.BadCodeFails | src/wmseed.h:136-138 | an unknown code or a trailing lone `%` yields no name |
| Paths.DateFieldWidth | src/wmseed.h:103-123 | date fields have their printf width and read back as the value |
| Paths.CodeThen | src/wmseed.h:97-135 | a known code expands to its value in place |
| Paths.ExpandSucceeds | src/wmseed.h:96-145 | the expansion fails exactly when the template has an unknown code or a trailing `%` |
| Paths.FileName | src/wmseed.h:90-146 | a well-formed template always yields a name |
| Paths.LastSlash | src/wmseed.h:150-155 | x is the index of the last '/', or there is none |
| Paths.FindLastSlash | src/wmseed.h:150-155 | the scan agrees with LastSlash |
| Paths.Dirname | src/wmseed.h:148-166 | the directory part is never empty |
| Paths.DirnameOf | src/wmseed.h:148-166 | the corrected wmseed__dirname agrees with Dirname |
| Paths.DirnameOfJoin | src/wmseed.h:156-159 | the directory of dir + "/" + file is dir |
| Paths.DirnameOfPlain | src/wmseed.h:160-163 | a name without '/' is in "." and "/name" is in "/" |
| Paths.DirnameAsWrittenDiffers | src/wmseed.h:156-163 | the test as written gives "." for "a/b" and no result for "b" |
| Paths.DirnameAsWrittenAgrees | src/wmseed.h:156-164 | apart from those cases the function as written is the corrected one |
| Writer.WDivIsFloor | src/wmseed.h:308-309 | wmseed__div with a positive divisor is floor division: q*b <= a < (q+1)*b |
| Writer.Ceil | src/wmseed.h:342 | ceil of the exact quotient |
| Writer.Round | src/wmseed.h:349 | round to nearest: the result is within 0.5 of x, and a tie goes away from zero (up for x >= 0, down for x < 0) |
| Writer.RoundWithin | src/wmseed.h:349 | rounding keeps a value between two integers between them |
| Writer.SplitTimeBetween | src/wmseed.h:340-341 | when the buckets differ, last_t < split_time <= t |
| Writer.SplitIndexBetween | src/wmseed.h:340-342 | a cut exists exactly when the buckets differ, and falls on a sample after last_sn and no later than sample_number |
| Writer.SplitIndexFirst | src/wmseed.h:340-342 | the cut sample is the first whose exact offset from last_t reaches the cut time: (split - last_sn - 1) * a < split_time - last_t <= (split - last_sn) * a |
| Writer.RoundStampsBeforeCut | src/wmseed.h:342-354 | with a = 3.3 and the cut time 10 after last_t, the cut falls on sample 4 while sample 3, which stays in the old file, is stamped exactly at the cut time |
| Writer.SplitAtAnchor | src/wmseed.h:340-348 | the cut can fall on the anchor's own sample number, which the drain reaches only when that sample is already buffered |
| Writer.InterpolateWithin | src/wmseed.h:349-354 | every interpolated record time lies between the two anchors' times |
| Writer.Drained | src/wmseed.h:347 | exactly the buffered samples numbered at most sample_number are drained: every drained one is numbered at most sample_number, and the drain stops short of count only at a sample numbered beyond it |
| Writer.AppendRecordWritten | src/wmseed.h:256 | writing a record adds exactly its samples to what is written |
| Writer.NewFileWritten | src/wmseed.h:296 | opening a file adds nothing to what is written |
| Writer.AppendRecordGrows | src/wmseed.h:256 | writing a record leaves every file before the open one untouched and only appends to the open one |
| Writer.AppendRecordFits | src/wmseed.h:353-356 | no record written is empty or over capacity |
| Writer.WMSeed.NamedFile | src/wmseed.h:292-293 | the file opened for t is named by the template's expansion for t and lies in that name's directory |
| Writer.WMSeed.constructor | src/wmseed.h:207-226 | wmseed_new takes any template: no anchor yet (last_sn = -1), cut in microseconds, nothing buffered, no file, record number 0, not halted |
| Writer.WMSeed.Sample | src/wmseed.h:246-251 | -1 and no change before the first anchor; afterwards exactly one sample is appended to the buffer |
| Writer.WMSeed.Flush | src/wmseed.h:253-263 | a pending record is written to the open file and nothing is pending after |
| Writer.WMSeed.NewRecord | src/wmseed.h:265-282 | the pending record is written, flagged for a leap second exactly when the UTC offset differs between its start and t; the next record is numbered one more and starts at t |
| Writer.WMSeed.CreateFile | src/wmseed.h:284-306 | the pending record goes to the old file, flagged for a leap second exactly when the UTC offset changed, record numbering restarts at 1 at t; the writer halts exactly when the template names no file, and otherwise the file the template names for t is opened in its directory |
| Writer.WMSeed.OpenFile | src/wmseed.h:289-296 | halts exactly when the template has an unknown code or a trailing %, with no file added; otherwise the template's name for t, with its directory, is added as the open file |
| Writer.WMSeed.Drain | src/wmseed.h:347-358 | exactly the buffered samples numbered at most sample_number leave the buffer, in FIFO order, and are emitted; the earlier files are untouched and the open one only extended; when the cut sample is drained, the old files hold exactly the samples numbered below it and one new file, named by the template for its interpolated time, holds the rest |
| Writer.WMSeed.DrainOne | src/wmseed.h:348-357 | at the cut sample the pending record goes to the old file and the file named for the sample's interpolated time is opened, and the sample becomes record 1 of it; any other sample goes in as PushSample states |
| Writer.WMSeed.PushSample | src/wmseed.h:352-357 | a full record is written, flagged for a leap second exactly when the UTC offset changed, and the sample starts the next record, numbered one more, at its interpolated time; otherwise the sample is appended to the record and the files are unchanged |
| Writer.WMSeed.MakeRoom | src/wmseed.h:353-356 | the retry loop leaves room in the record: a full record is written and a new one, numbered one more, starts empty at the sample's interpolated time; otherwise nothing changes |
| Writer.WMSeed.TakeSample | src/wmseed.h:352-357 | the oldest buffered sample leaves the buffer and is appended to a record with room, which is then pending; the files are unchanged |
| Writer.WMSeed.Time | src/wmseed.h:311-365 | the first anchor must be sample 0; it halts the writer exactly when the template names no file, and otherwise opens the file the template names for t with record 1; later anchors must increase in sample and time, else -1 and no change; anchors within 1008*20 samples change nothing; an accepted anchor drains up to sample_number, cutting as Drain states at the sample SplitIndex gives, and moves last_t and last_sn |

## Left out

- Input and output: `fread`, `fopen`, `fclose`, `fwrite`, `exit(1)`, stderr messages, progress output, option parsing, `help`, `setuid`. Reading the input is a sequence of blocks. A short read ends the run (`InputEnded`). A file that is opened is an `OutFile` in a sequence.
- `wmseed__mkdir_p`: the directory to create is recorded in the `OutFile`, and no file system is modelled.
- `wmseed__allocate`, `wmseed__strdup`, `free`: memory management.
- `kum_6d6_show_info`, `kum_6d6_show_info_json`, `print_leftpad`, `print_json_string`: printers.
- `src/6d6copy.c`: a block copy with no logic of its own.
- Floating point: the interpolation slope and the skew rate are exact reals, and `ceil` and `round` are exact. IEEE rounding of `double` is not modelled.
- Demux.SkewRate: a skew time equal to the sync time divides by zero in the C. The model gives rate 0 there.
- `miniseed.h`, the record encoding: a record is its number, start time, leap-second flag and samples. Its fixed capacity stands for the Steim-compressed record filling up, so a push fails exactly when the record holds `capacity` samples.
- `samplebuffer.h`: the buffer is the number of its first sample and a sequence.
- `tai.h` and `bcd.h` are not part of this model. Their operations are uninterpreted function values.
- Clock.BcdTime: it has no contract of its own. It builds the date from the six BCD bytes (year + 2000) and passes it to `tai_time`, both of which are parameters.
- `wmseed_destroy`: it neither flushes the pending record nor writes anything (the source has a TODO there). Closing a file has no effect in the model, so it is not modelled.
- The conversion does not call the writers: `main` discards the return values of `wmseed_time` and `wmseed_sample`. The decoder's result is the list of `Anchor` and `Samples` events passed to every channel in turn. The per-channel `WMSeed` objects are modelled separately.
- Writer.WMSeed.CreateFile: the directory recorded for a new file is the corrected `Dirname` of "## Findings". As written, `wmseed__dirname` gives "." when the name's last '/' is at index 1 (so `fopen` fails unless that directory exists). For a name with no '/' it copies SIZE_MAX bytes into a zero-byte allocation. The model does not follow the C into either case.
- Writer.WMSeed.OpenFile: the same corrected `Dirname` as CreateFile, for the same reason.
- Writer.WMSeed.Time, Writer.WMSeed.Sample: a halted writer stands for a process that has read through a null pointer. What that crash does is not modelled, and both methods require a writer that has not halted, since no call follows the crash.
- Writer.WMSeed.PushSample: the C pops the sample before it retries the full record; the model keeps it in the buffer until the record has room. The record and the files see the same result.
- Duration.FormatDuration: `maxlen` truncation and snprintf's negative return are not modelled; DurationFits shows the caller's 128-byte buffer is never too small.
- Channel station, location and network options: the `Names` of a writer are parameters.
- `format_duration` for `d` outside the 64-bit range: DurationFits requires `d < 2^63`, the range of `long`.

## Findings

| source | as written | input that shows it | evidently intended | confidence | as-written member | corrected member |
|---|---|---|---|---|---|---|
| src/wmseed.h:150-163 | `x` starts at `(size_t) -1` and the branch tests `x > 1` | "b" (no '/') allocates x + 1 = 0 bytes, a null pointer, and copies SIZE_MAX bytes into it; "a/b" gives "." instead of "a" | "." without a '/', "/" for a top-level name, else the text before the last '/' | not executed | Paths.DirnameAsWritten, Paths.DirnameAsWrittenDiffers | Paths.Dirname, Paths.DirnameOf |
