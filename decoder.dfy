/**
 * The conversion loop of 6d6mseed's main (src/6d6mseed.c:165-268): the start and end
 * headers are chosen, the time base is fixed, the blocks before the data are skipped, and
 * every data block is split into 128 big-endian words that form control groups (time
 * anchors, the end frame, ignored status frames) and sample groups (one word per channel).
 * What main hands to the per-channel writers is modelled as a list of events.
 */
module Demux {
  import opened Wrappers
  import opened Bytes
  import opened Clock
  import opened Header
  import HeaderRead
  import Writer

  // ----- time base -----

  /** The times main derives from the two headers before it reads data. */
  datatype Timebase = Timebase(
    startTime: int,   // start of recording, shifted to the sync instant's UTC offset
    syncTime: int,
    startSkew: int,   // clock offset measured at the sync
    haveSkew: bool,
    skewTime: int,
    endSkew: int,     // clock offset measured at the end, shifted likewise
    rate: real)       // drift of the offset per microsecond

  /** The TAI-UTC difference of `t`, in microseconds. */
  function UtcOffset(tai: Tai, t: int): int
  {
    1000000 * tai.utcDiff(t)
  }

  /**
   * The time base of main: the start time gains the leap seconds between the sync and the
   * start; with a SKEW end header whose time is valid BCD, the end skew gains those between
   * the sync and the skew measurement, and the rate is the change of offset per microsecond.
   */
  function MakeTimebase(bcd: Bcd, tai: Tai, hs: Header, he: Header): (tb: Timebase)
    requires |hs.startTime| == 6 && |hs.syncTime| == 6 && |he.syncTime| == 6
    ensures tb.syncTime == BcdTime(bcd, tai, hs.syncTime) && tb.startSkew == hs.skew
    ensures tb.haveSkew <==> he.syncType == Skew && bcd.valid(he.syncTime)
    ensures var start := BcdTime(bcd, tai, hs.startTime);
            tb.startTime == start + UtcOffset(tai, start) - UtcOffset(tai, tb.syncTime)
    ensures tb.haveSkew ==>
              && tb.skewTime == BcdTime(bcd, tai, he.syncTime)
              && tb.endSkew == he.skew + UtcOffset(tai, tb.skewTime) - UtcOffset(tai, tb.syncTime)
    ensures !tb.haveSkew ==> tb.rate == 1.0
    ensures RateFits(tb)
  {
    var syncTime := BcdTime(bcd, tai, hs.syncTime);
    var start := BcdTime(bcd, tai, hs.startTime);
    var startTime := start + (UtcOffset(tai, start) - UtcOffset(tai, syncTime));
    if he.syncType == Skew && bcd.valid(he.syncTime) then
      var skewTime := BcdTime(bcd, tai, he.syncTime);
      var endSkew := he.skew + (UtcOffset(tai, skewTime) - UtcOffset(tai, syncTime));
      var rate := SkewRate((endSkew - hs.skew) as real, (skewTime - syncTime) as real);
      Timebase(startTime, syncTime, hs.skew, true, skewTime, endSkew, rate)
    else
      Timebase(startTime, syncTime, hs.skew, false, 0, 0, 1.0)
  }

  /** The time of a time anchor whose second word is `seconds`. */
  function AnchorTime(tb: Timebase, seconds: int): int
  {
    var t := tb.startTime + seconds * 1000000;
    if tb.haveSkew then t + tb.startSkew + Writer.Round((t - tb.syncTime) as real * tb.rate) else t
  }

  /** Without a skew, anchors later in recording time are later in output time, by whole seconds. */
  lemma AnchorTimeNoSkew(tb: Timebase, s1: int, s2: int)
    requires !tb.haveSkew
    ensures AnchorTime(tb, s2) - AnchorTime(tb, s1) == (s2 - s1) * 1000000
  {
  }

  /** The change of offset per microsecond; zero over an empty interval. */
  function SkewRate(change: real, interval: real): (rate: real)
    ensures interval != 0.0 ==> interval * rate == change
    ensures interval == 0.0 ==> rate == 0.0
  {
    if interval == 0.0 then 0.0 else change / interval
  }

  /** Over the measured interval the rate accounts for the whole change of offset. */
  predicate RateFits(tb: Timebase)
  {
    tb.haveSkew && tb.skewTime != tb.syncTime ==>
      (tb.skewTime - tb.syncTime) as real * tb.rate == (tb.endSkew - tb.startSkew) as real
  }

  /** The skew correction meets both measurements: the start offset at the sync, the end offset at the skew time. */
  lemma SkewEndpoints(tb: Timebase, s1: int, s2: int)
    requires tb.haveSkew && RateFits(tb)
    ensures tb.startTime + s1 * 1000000 == tb.syncTime ==> AnchorTime(tb, s1) == tb.syncTime + tb.startSkew
    ensures tb.skewTime != tb.syncTime && tb.startTime + s2 * 1000000 == tb.skewTime ==> AnchorTime(tb, s2) == tb.skewTime + tb.endSkew
  {
    assert (0 as real) * tb.rate == 0.0;
  }

  /**
   * The time base against the headers: an anchor that falls on the start header's sync
   * instant is corrected by the start header's skew, and one that falls on the end header's
   * skew measurement by the end header's skew, plus the leap seconds between the two instants.
   */
  lemma SkewMeetsHeaders(bcd: Bcd, tai: Tai, hs: Header, he: Header, s1: int, s2: int)
    requires |hs.startTime| == 6 && |hs.syncTime| == 6 && |he.syncTime| == 6
    requires he.syncType == Skew && bcd.valid(he.syncTime)
    ensures var tb := MakeTimebase(bcd, tai, hs, he);
            var sync := BcdTime(bcd, tai, hs.syncTime);
            tb.startTime + s1 * 1000000 == sync ==> AnchorTime(tb, s1) == sync + hs.skew
    ensures var tb := MakeTimebase(bcd, tai, hs, he);
            var sync := BcdTime(bcd, tai, hs.syncTime);
            var measured := BcdTime(bcd, tai, he.syncTime);
            measured != sync && tb.startTime + s2 * 1000000 == measured ==>
              AnchorTime(tb, s2) == measured + he.skew + UtcOffset(tai, measured) - UtcOffset(tai, sync)
  {
    var tb := MakeTimebase(bcd, tai, hs, he);
    SkewEndpoints(tb, s1, s2);
  }

  // ----- words and groups -----

  /** The 128 signed big-endian 32-bit words of a block. */
  function Words(block: seq<byte>): (w: seq<int>)
    requires |block| == BlockSize
    ensures |w| == BlockSize / 4
    ensures forall k :: 0 <= k < |w| ==> w[k] == LoadI32(block[4 * k..4 * k + 4])
  {
    seq(BlockSize / 4, k requires 0 <= k < BlockSize / 4 => LoadI32(block[4 * k..4 * k + 4]))
  }

  /** The words of consecutive blocks, in order. */
  function DataWords(blocks: seq<seq<byte>>): seq<int>
    requires forall i :: 0 <= i < |blocks| ==> |blocks[i]| == BlockSize
  {
    if blocks == [] then [] else DataWords(blocks[..|blocks| - 1]) + Words(blocks[|blocks| - 1])
  }

  lemma {:induction false} DataWordsAppend(a: seq<seq<byte>>, b: seq<seq<byte>>)
    requires AllBlocks(a) && AllBlocks(b)
    ensures AllBlocks(a + b) && DataWords(a + b) == DataWords(a) + DataWords(b)
    decreases |b|
  {
    if b == [] {
      assert a + b == a;
    } else {
      var b' := b[..|b| - 1];
      assert (a + b)[..|a + b| - 1] == a + b';
      DataWordsAppend(a, b');
    }
  }

  /** Control codes main acts on; every other odd first word is a frame it ignores. */
  const TimeFrame := 1
  const EndFrame := 13

  /** An odd first word opens a control group of four words, an even one a group of one word per channel. */
  function GroupSize(channelCount: nat, first: int): nat
  {
    if first % 2 == 1 then 4 else channelCount
  }

  /** What main passes on: a time anchor for every channel, or one sample per channel. */
  datatype Event = Anchor(time: int, sampleNumber: int) | Samples(values: seq<int>)

  /** remaining, pos and frame of main, with have_time and sample_number. */
  datatype DecoderState = DecoderState(remaining: nat, pos: nat, frame: seq<int>, haveTime: bool, sampleNumber: int)

  /** Before the first data word: no group open, no time yet, sample 0 next. */
  const Initial := DecoderState(0, 0, [0, 0, 0, 0], false, 0)

  /** An open group always has room left in the frame: its next word goes to frame[pos]. */
  predicate Inv(channelCount: nat, st: DecoderState)
  {
    && 1 <= channelCount <= MaxChannelCount
    && |st.frame| == MaxChannelCount
    && (st.remaining > 0 ==> 1 <= st.pos && st.pos + st.remaining == GroupSize(channelCount, st.frame[0]))
  }

  datatype StepResult = StepResult(state: DecoderState, event: Option<Event>, done: bool)

  /** The handling of one word by the inner loop of main. */
  function Step(channelCount: nat, tb: Timebase, st: DecoderState, w: int): (r: StepResult)
    requires Inv(channelCount, st)
    ensures Inv(channelCount, r.state)
  {
    var st1 :=
      if st.remaining == 0 then st.(remaining := GroupSize(channelCount, w) - 1, pos := 1, frame := st.frame[0 := w])
      else st.(remaining := st.remaining - 1, pos := st.pos + 1, frame := st.frame[st.pos := w]);
    var frame := st1.frame;
    if st1.remaining != 0 then StepResult(st1, None, false)
    else if frame[0] % 2 == 1 then
      if frame[0] == TimeFrame then StepResult(st1.(haveTime := true), Some(Anchor(AnchorTime(tb, frame[1]), st.sampleNumber)), false)
      else if frame[0] == EndFrame then StepResult(st1, None, true)
      else StepResult(st1, None, false)
    else if st.haveTime then StepResult(st1.(sampleNumber := st.sampleNumber + 1), Some(Samples(frame[..channelCount])), false)
    else StepResult(st1, None, false)
  }

  /**
   * What one word does: only a completed group yields an event or stops; an anchor carries
   * the current sample number and turns time on; a sample group needs time on, carries one
   * value per channel and advances the sample number by one; nothing else moves it.
   */
  lemma StepFacts(channelCount: nat, tb: Timebase, st: DecoderState, w: int)
    requires Inv(channelCount, st)
    ensures var r := Step(channelCount, tb, st, w);
            && (r.done ==> r.event.None?)
            && r.state.haveTime == (st.haveTime || (r.event.Some? && r.event.value.Anchor?))
            && (r.event.None? ==> r.state.sampleNumber == st.sampleNumber)
            && (r.event.Some? && r.event.value.Anchor? ==>
                  r.event.value.sampleNumber == st.sampleNumber && r.state.sampleNumber == st.sampleNumber)
            && (r.event.Some? && r.event.value.Samples? ==>
                  st.haveTime && |r.event.value.values| == channelCount && r.state.sampleNumber == st.sampleNumber + 1)
            && ((r.event.Some? || r.done) ==> r.state.remaining == 0)
  {
  }

  function Events(e: Option<Event>): seq<Event>
  {
    if e.Some? then [e.value] else []
  }

  datatype Run = Run(state: DecoderState, events: seq<Event>, stopped: bool)

  /** The words handled one at a time until the end frame. */
  function Demux(channelCount: nat, tb: Timebase, st: DecoderState, words: seq<int>): (r: Run)
    requires Inv(channelCount, st)
    ensures Inv(channelCount, r.state)
    decreases |words|
  {
    if words == [] then Run(st, [], false)
    else
      var s := Step(channelCount, tb, st, words[0]);
      if s.done then Run(s.state, [], true)
      else
        var rest := Demux(channelCount, tb, s.state, words[1..]);
        Run(rest.state, Events(s.event) + rest.events, rest.stopped)
  }

  /** `a` and then `b`, when `a` did not stop. */
  function Then(a: Run, b: Run): Run
  {
    if a.stopped then a else Run(b.state, a.events + b.events, b.stopped)
  }

  /** The first word, then the rest. */
  lemma DemuxCons(channelCount: nat, tb: Timebase, st: DecoderState, w: int, ws: seq<int>)
    requires Inv(channelCount, st)
    ensures var s := Step(channelCount, tb, st, w);
            Demux(channelCount, tb, st, [w] + ws)
              == if s.done then Run(s.state, [], true)
                 else var rest := Demux(channelCount, tb, s.state, ws); Run(rest.state, Events(s.event) + rest.events, rest.stopped)
  {
    assert ([w] + ws)[0] == w;
    assert ([w] + ws)[1..] == ws;
  }

  /** Events passed on before a run that is then continued. */
  lemma ThenAfterEvents(e: seq<Event>, a: Run, b: Run)
    ensures var r := Then(a, b);
            Run(r.state, e + r.events, r.stopped) == Then(Run(a.state, e + a.events, a.stopped), b)
  {
    if !a.stopped {
      assert e + (a.events + b.events) == (e + a.events) + b.events;
    }
  }

  /** The group state carries over: demultiplexing two stretches of words is demultiplexing their concatenation. */
  lemma {:induction false} DemuxAppend(channelCount: nat, tb: Timebase, st: DecoderState, w1: seq<int>, w2: seq<int>)
    requires Inv(channelCount, st)
    ensures Demux(channelCount, tb, st, w1 + w2)
         == Then(Demux(channelCount, tb, st, w1), Demux(channelCount, tb, Demux(channelCount, tb, st, w1).state, w2))
    decreases |w1|
  {
    if w1 == [] {
      assert w1 + w2 == w2;
    } else {
      var w, t := w1[0], w1[1..];
      assert w1 == [w] + t;
      assert w1 + w2 == [w] + (t + w2);
      DemuxCons(channelCount, tb, st, w, t);
      DemuxCons(channelCount, tb, st, w, t + w2);
      var s := Step(channelCount, tb, st, w);
      if !s.done {
        DemuxAppend(channelCount, tb, s.state, t, w2);
        var a := Demux(channelCount, tb, s.state, t);
        ThenAfterEvents(Events(s.event), a, Demux(channelCount, tb, a.state, w2));
      }
    }
  }

  /** Nothing after the end frame matters. */
  lemma StopIsFinal(channelCount: nat, tb: Timebase, st: DecoderState, w1: seq<int>, w2: seq<int>)
    requires Inv(channelCount, st) && Demux(channelCount, tb, st, w1).stopped
    ensures Demux(channelCount, tb, st, w1 + w2) == Demux(channelCount, tb, st, w1)
  {
    DemuxAppend(channelCount, tb, st, w1, w2);
  }

  /** One more word: the run so far, then the step on that word. */
  lemma DemuxSnoc(channelCount: nat, tb: Timebase, st: DecoderState, words: seq<int>, w: int)
    requires Inv(channelCount, st) && !Demux(channelCount, tb, st, words).stopped
    ensures var prior := Demux(channelCount, tb, st, words);
            var s := Step(channelCount, tb, prior.state, w);
            Demux(channelCount, tb, st, words + [w])
              == if s.done then Run(s.state, prior.events, true) else Run(s.state, prior.events + Events(s.event), false)
  {
    DemuxAppend(channelCount, tb, st, words, [w]);
    var prior := Demux(channelCount, tb, st, words);
    var s := Step(channelCount, tb, prior.state, w);
    assert [w][1..] == [];
    if !s.done {
      assert Events(s.event) + [] == Events(s.event);
    }
  }

  /** A run that stopped on a prefix of the words is the run on all of them. */
  lemma StoppedPrefix(channelCount: nat, tb: Timebase, st: DecoderState, words: seq<int>, k: nat)
    requires Inv(channelCount, st) && k <= |words| && Demux(channelCount, tb, st, words[..k]).stopped
    ensures Demux(channelCount, tb, st, words) == Demux(channelCount, tb, st, words[..k])
  {
    assert words == words[..k] + words[k..];
    StopIsFinal(channelCount, tb, st, words[..k], words[k..]);
  }

  /**
   * Inside a group: after the first j words g[..j] of a group, read from between groups,
   * those words fill frame[..j] in order, pos is j, the rest of the group is still to come,
   * and nothing has been passed on.
   */
  lemma {:induction false} GroupPrefix(channelCount: nat, tb: Timebase, st: DecoderState, g: seq<int>, j: nat)
    requires Inv(channelCount, st) && st.remaining == 0
    requires 1 <= j <= |g| && j < GroupSize(channelCount, g[0])
    ensures var r := Demux(channelCount, tb, st, g[..j]);
            && r.events == [] && !r.stopped
            && r.state.pos == j && r.state.remaining == GroupSize(channelCount, g[0]) - j
            && r.state.frame[..j] == g[..j]
            && r.state.haveTime == st.haveTime && r.state.sampleNumber == st.sampleNumber
    decreases j
  {
    if j == 1 {
      assert g[..1] == [g[0]] + [];
      DemuxCons(channelCount, tb, st, g[0], []);
    } else {
      GroupPrefix(channelCount, tb, st, g, j - 1);
      assert g[..j] == g[..j - 1] + [g[j - 1]];
      DemuxSnoc(channelCount, tb, st, g[..j - 1], g[j - 1]);
      var prior := Demux(channelCount, tb, st, g[..j - 1]).state;
      var frame := Step(channelCount, tb, prior, g[j - 1]).state.frame;
      assert frame == prior.frame[j - 1 := g[j - 1]];
      assert frame[..j] == prior.frame[..j - 1] + [g[j - 1]];
    }
  }

  /**
   * One complete group g, read from between groups: the words are demultiplexed by the
   * group's first word alone. A time group (code 1) passes on an anchor at the time of
   * its second word with the current sample number and turns time on; the end frame
   * (code 13) stops the run; every other odd code passes on nothing; an even group passes
   * on its words as one sample per channel, word c to channel c, when time is on, and
   * nothing before the first anchor. The run ends between groups again.
   */
  lemma WholeGroup(channelCount: nat, tb: Timebase, st: DecoderState, g: seq<int>)
    requires Inv(channelCount, st) && st.remaining == 0
    requires |g| >= 1 && |g| == GroupSize(channelCount, g[0])
    ensures var r := Demux(channelCount, tb, st, g);
            && r.state.remaining == 0
            && (r.stopped <==> g[0] == EndFrame)
            && r.events == (if g[0] % 2 == 1 then (if g[0] == TimeFrame then [Anchor(AnchorTime(tb, g[1]), st.sampleNumber)] else [])
                            else if st.haveTime then [Samples(g)] else [])
            && r.state.haveTime == (st.haveTime || g[0] == TimeFrame)
            && r.state.sampleNumber == (if g[0] % 2 == 0 && st.haveTime then st.sampleNumber + 1 else st.sampleNumber)
  {
    var n := |g|;
    var prior := st;
    if n == 1 {
      assert g == [g[0]] + [];
      DemuxCons(channelCount, tb, st, g[0], []);
    } else {
      GroupPrefix(channelCount, tb, st, g, n - 1);
      assert g == g[..n - 1] + [g[n - 1]];
      DemuxSnoc(channelCount, tb, st, g[..n - 1], g[n - 1]);
      prior := Demux(channelCount, tb, st, g[..n - 1]).state;
    }
    var s := Step(channelCount, tb, prior, g[n - 1]);
    assert Demux(channelCount, tb, st, g) == if s.done then Run(s.state, [], true) else Run(s.state, Events(s.event), false);
    GroupEnd(channelCount, tb, prior, g);
  }

  /** The last word of a group completes it: the frame then holds the whole group. */
  lemma GroupEnd(channelCount: nat, tb: Timebase, st: DecoderState, g: seq<int>)
    requires Inv(channelCount, st)
    requires |g| >= 1 && |g| == GroupSize(channelCount, g[0])
    requires if |g| == 1 then st.remaining == 0
             else st.remaining == 1 && st.pos == |g| - 1 && st.frame[..|g| - 1] == g[..|g| - 1]
    ensures var s := Step(channelCount, tb, st, g[|g| - 1]);
            && s.state.remaining == 0
            && (s.done <==> g[0] == EndFrame)
            && Events(s.event) == (if g[0] % 2 == 1 then (if g[0] == TimeFrame then [Anchor(AnchorTime(tb, g[1]), st.sampleNumber)] else [])
                                   else if st.haveTime then [Samples(g)] else [])
            && s.state.haveTime == (st.haveTime || g[0] == TimeFrame)
            && s.state.sampleNumber == (if g[0] % 2 == 0 && st.haveTime then st.sampleNumber + 1 else st.sampleNumber)
  {
    var n := |g|;
    var frame := Step(channelCount, tb, st, g[n - 1]).state.frame;
    if n == 1 {
      assert frame == st.frame[0 := g[0]];
    } else {
      assert frame == st.frame[n - 1 := g[n - 1]];
      assert frame[..n] == st.frame[..n - 1] + [g[n - 1]];
    }
    assert frame[..n] == g;
    assert frame[0] == g[0];
    assert n == 4 ==> frame[1] == g[1];
  }

  /** A control group of four words: the event it yields depends on its code alone. */
  lemma ControlGroup(channelCount: nat, tb: Timebase, st: DecoderState, g: seq<int>)
    requires Inv(channelCount, st) && st.remaining == 0 && |g| == 4 && g[0] % 2 == 1
    ensures var r := Demux(channelCount, tb, st, g);
            && r.state.remaining == 0
            && (g[0] == TimeFrame <==> r.events != [])
            && (g[0] == EndFrame <==> r.stopped)
            && (g[0] == TimeFrame ==> r.events == [Anchor(AnchorTime(tb, g[1]), st.sampleNumber)])
            && (g[0] != TimeFrame ==> r.state.haveTime == st.haveTime)
            && r.state.sampleNumber == st.sampleNumber
  {
    WholeGroup(channelCount, tb, st, g);
  }

  /**
   * A sample group: when time is on, channel c receives the group's word c, for every
   * channel, and the sample number advances by one.
   */
  lemma SampleGroup(channelCount: nat, tb: Timebase, st: DecoderState, g: seq<int>)
    requires Inv(channelCount, st) && st.remaining == 0 && st.haveTime
    requires |g| == channelCount && g[0] % 2 == 0
    ensures var r := Demux(channelCount, tb, st, g);
            && !r.stopped && r.state.remaining == 0 && |r.events| == 1 && r.events[0].Samples?
            && |r.events[0].values| == channelCount
            && (forall c :: 0 <= c < channelCount ==> r.events[0].values[c] == g[c])
            && r.state.sampleNumber == st.sampleNumber + 1
  {
    WholeGroup(channelCount, tb, st, g);
  }

  /** Before the first anchor no sample group is passed on: the first event is always an anchor. */
  lemma {:induction false} FirstEventIsAnchor(channelCount: nat, tb: Timebase, st: DecoderState, words: seq<int>)
    requires Inv(channelCount, st) && !st.haveTime
    ensures var r := Demux(channelCount, tb, st, words);
            |r.events| > 0 ==> r.events[0].Anchor?
    ensures var r := Demux(channelCount, tb, st, words);
            |r.events| == 0 ==> !r.state.haveTime && r.state.sampleNumber == st.sampleNumber
    decreases |words|
  {
    if words != [] {
      var s := Step(channelCount, tb, st, words[0]);
      StepFacts(channelCount, tb, st, words[0]);
      if !s.done && s.event.None? {
        FirstEventIsAnchor(channelCount, tb, s.state, words[1..]);
      }
    }
  }

  /** The number of sample groups among the events. */
  function SampleCount(events: seq<Event>): nat
  {
    if events == [] then 0 else (if events[0].Samples? then 1 else 0) + SampleCount(events[1..])
  }

  lemma {:induction false} SampleCountAppend(a: seq<Event>, b: seq<Event>)
    ensures SampleCount(a + b) == SampleCount(a) + SampleCount(b)
    decreases |a|
  {
    if a == [] {
      assert a + b == b;
    } else {
      assert (a + b)[0] == a[0];
      assert (a + b)[1..] == a[1..] + b;
      SampleCountAppend(a[1..], b);
    }
  }

  /** Every anchor among the events carries n0 plus the number of sample groups before it. */
  predicate Numbered(n0: int, events: seq<Event>)
  {
    forall i :: 0 <= i < |events| && events[i].Anchor? ==> events[i].sampleNumber == n0 + SampleCount(events[..i])
  }

  /** One event numbered from n0, followed by events numbered from where it leaves the count. */
  lemma NumberedCons(n0: int, e: Event, rest: seq<Event>)
    requires e.Anchor? ==> e.sampleNumber == n0
    requires Numbered(n0 + SampleCount([e]), rest)
    ensures Numbered(n0, [e] + rest)
  {
    var events := [e] + rest;
    forall i | 0 <= i < |events| && events[i].Anchor?
      ensures events[i].sampleNumber == n0 + SampleCount(events[..i])
    {
      if i > 0 {
        assert events[i] == rest[i - 1];
        assert events[..i] == [e] + rest[..i - 1];
        SampleCountAppend([e], rest[..i - 1]);
      }
    }
  }

  /**
   * One shared sample counter: every sample group advances it by exactly one, and every
   * anchor carries the number of the sample groups passed on before it.
   */
  lemma {:induction false} SampleNumbering(channelCount: nat, tb: Timebase, st: DecoderState, words: seq<int>)
    requires Inv(channelCount, st)
    ensures var r := Demux(channelCount, tb, st, words);
            r.state.sampleNumber == st.sampleNumber + SampleCount(r.events)
    ensures Numbered(st.sampleNumber, Demux(channelCount, tb, st, words).events)
    decreases |words|
  {
    if words != [] {
      var s := Step(channelCount, tb, st, words[0]);
      StepFacts(channelCount, tb, st, words[0]);
      if !s.done {
        SampleNumbering(channelCount, tb, s.state, words[1..]);
        var rest := Demux(channelCount, tb, s.state, words[1..]);
        var head := Events(s.event);
        SampleCountAppend(head, rest.events);
        if s.event.Some? {
          NumberedCons(st.sampleNumber, s.event.value, rest.events);
        } else {
          assert head + rest.events == rest.events;
        }
      }
    }
  }

  /** Every sample group among the events carries one value per channel. */
  predicate FullWidth(channelCount: nat, events: seq<Event>)
  {
    forall i :: 0 <= i < |events| && events[i].Samples? ==> |events[i].values| == channelCount
  }

  /** Every sample group passed on carries one value per channel. */
  lemma {:induction false} SampleWidth(channelCount: nat, tb: Timebase, st: DecoderState, words: seq<int>)
    requires Inv(channelCount, st)
    ensures FullWidth(channelCount, Demux(channelCount, tb, st, words).events)
    decreases |words|
  {
    if words != [] {
      var s := Step(channelCount, tb, st, words[0]);
      StepFacts(channelCount, tb, st, words[0]);
      if !s.done {
        SampleWidth(channelCount, tb, s.state, words[1..]);
        var rest := Demux(channelCount, tb, s.state, words[1..]);
        var events := Events(s.event) + rest.events;
        forall i | 0 <= i < |events| && events[i].Samples?
          ensures |events[i].values| == channelCount
        {
          if i >= |Events(s.event)| {
            assert events[i] == rest.events[i - |Events(s.event)|];
          }
        }
      }
    }
  }

  // ----- the whole conversion -----

  /** How main ends: at the end frame, at the end address, or by exit(1). */
  datatype Stop = AtEndFrame | AtEndAddress | InputEnded | BadStartHeader | BadEndHeader

  datatype Outcome = Outcome(events: seq<Event>, stop: Stop)

  /** The header pair main settles on and the index of the start header's block. */
  datatype Choice = Chosen(start: Header, end: Header, base: nat) | Refused(stop: Stop)

  predicate AllBlocks(blocks: seq<seq<byte>>)
  {
    forall i :: 0 <= i < |blocks| ==> |blocks[i]| == BlockSize
  }

  /**
   * The start header is block 0, or block 1 when block 0 does not parse; the end header
   * is the block right after the start header.
   */
  function ChooseHeaders(bcd: Bcd, blocks: seq<seq<byte>>): (c: Choice)
    requires AllBlocks(blocks)
    ensures Usable(c, |blocks|)
    ensures c.Chosen? ==> c.base <= 1 && Canonical(c.start) && Canonical(c.end)
    ensures c.Chosen? && c.base == 0 ==> Parse(bcd, blocks[0]) == Some(c.start) && Parse(bcd, blocks[1]) == Some(c.end)
    ensures c.Chosen? && c.base == 1 ==>
              Parse(bcd, blocks[0]).None? && Parse(bcd, blocks[1]) == Some(c.start) && Parse(bcd, blocks[2]) == Some(c.end)
    ensures c.Refused? && c.stop == BadStartHeader ==>
              |blocks| >= 2 && Parse(bcd, blocks[0]).None? && Parse(bcd, blocks[1]).None?
  {
    if |blocks| == 0 then Refused(InputEnded)
    else
      var p0 := Parse(bcd, blocks[0]);
      if |blocks| < 2 then Refused(InputEnded)
      else
        var p1 := Parse(bcd, blocks[1]);
        if p0.Some? then
          if p1.None? then Refused(BadEndHeader) else Chosen(p0.value, p1.value, 0)
        else if p1.None? then Refused(BadStartHeader)
        else if |blocks| < 3 then Refused(InputEnded)
        else
          var p2 := Parse(bcd, blocks[2]);
          if p2.None? then Refused(BadEndHeader) else Chosen(p1.value, p2.value, 1)
  }

  /**
   * The data phase: the blocks from the first data block on, of which the end address
   * asks for `count`; decoding ends at the end frame, after `count` blocks, or where the
   * input runs out.
   */
  function DataOutcome(channelCount: nat, tb: Timebase, data: seq<seq<byte>>, count: nat): Outcome
    requires AllBlocks(data) && 1 <= channelCount <= MaxChannelCount
  {
    var avail := if |data| < count then |data| else count;
    var r := Demux(channelCount, tb, Initial, DataWords(data[..avail]));
    Outcome(r.events, if r.stopped then AtEndFrame else if avail < count then InputEnded else AtEndAddress)
  }

  /** What the rest of main needs of a header: six-byte times and a channel count it can size arrays by. */
  predicate Sized(h: Header)
  {
    |h.startTime| == 6 && |h.syncTime| == 6 && 1 <= h.channelCount <= MaxChannelCount
  }

  /** A choice main can go on from: both headers sized, both within the input. */
  predicate Usable(c: Choice, blockCount: nat)
  {
    c.Chosen? ==> c.base + 2 <= blockCount && Sized(c.start) && Sized(c.end)
  }

  /**
   * main once the headers are chosen. Block counter i starts at 2 whichever block held the
   * start header, so data block i is input block i + base.
   */
  function ConversionFrom(bcd: Bcd, tai: Tai, blocks: seq<seq<byte>>, choice: Choice): Outcome
    requires AllBlocks(blocks) && Usable(choice, |blocks|)
  {
    if choice.Refused? then Outcome([], choice.stop)
    else
      var hs, he, base := choice.start, choice.end, choice.base;
      var first := if hs.address > 2 then hs.address else 2;
      if |blocks| < base + first then Outcome([], InputEnded)
      else
        var count := if he.address > first then he.address - first else 0;
        DataOutcome(hs.channelCount, MakeTimebase(bcd, tai, hs, he), blocks[base + first..], count)
  }

  /** What main passes on for an input of whole blocks, and how it ends. */
  function Conversion(bcd: Bcd, tai: Tai, blocks: seq<seq<byte>>): Outcome
    requires AllBlocks(blocks)
  {
    ConversionFrom(bcd, tai, blocks, ChooseHeaders(bcd, blocks))
  }

  /** read_block: the next block of the input, or false where the source exits on a short read. */
  method ReadBlock(input: seq<seq<byte>>, next: nat, block: array<byte>) returns (ok: bool)
    requires AllBlocks(input) && block.Length == BlockSize
    modifies block
    ensures ok <==> next < |input|
    ensures ok ==> block[..] == input[next]
  {
    if next >= |input| {
      return false;
    }
    var k := 0;
    while k < BlockSize
      invariant k <= BlockSize
      invariant forall m :: 0 <= m < k ==> block[m] == input[next][m]
    {
      block[k] := input[next][k];
      k := k + 1;
    }
    return true;
  }

  /** The opening of main: block 0, else block 1, as the start header, then the next block as the end header. */
  method SelectHeaders(bcd: Bcd, input: seq<seq<byte>>, block: array<byte>) returns (c: Choice)
    requires AllBlocks(input) && block.Length == BlockSize
    modifies block
    ensures c == ChooseHeaders(bcd, input)
  {
    var ok := ReadBlock(input, 0, block);
    if !ok { return Refused(InputEnded); }
    var hs := HeaderRead.ReadHeader(bcd, block);
    var next := 1;
    if hs.None? {
      ok := ReadBlock(input, 1, block);
      if !ok { return Refused(InputEnded); }
      hs := HeaderRead.ReadHeader(bcd, block);
      if hs.None? { return Refused(BadStartHeader); }
      next := 2;
    }
    ok := ReadBlock(input, next, block);
    if !ok { return Refused(InputEnded); }
    var he := HeaderRead.ReadHeader(bcd, block);
    if he.None? { return Refused(BadEndHeader); }
    return Chosen(hs.value, he.value, next - 1);
  }

  lemma TakeSnoc<T>(s: seq<T>, k: nat)
    requires k < |s|
    ensures s[..k + 1] == s[..k] + [s[k]]
  {
  }

  /** Word k handled after the first k: the run goes on by one step, or has ended for good. */
  lemma WordStep(channelCount: nat, tb: Timebase, st0: DecoderState, words: seq<int>, k: nat,
                 st: DecoderState, events: seq<Event>)
    requires Inv(channelCount, st0) && k < |words|
    requires Run(st, events, false) == Demux(channelCount, tb, st0, words[..k])
    ensures var s := Step(channelCount, tb, st, words[k]);
            && (s.done ==> Demux(channelCount, tb, st0, words) == Run(s.state, events, true))
            && (!s.done ==> Run(s.state, events + Events(s.event), false) == Demux(channelCount, tb, st0, words[..k + 1]))
  {
    TakeSnoc(words, k);
    DemuxSnoc(channelCount, tb, st0, words[..k], words[k]);
    if Step(channelCount, tb, st, words[k]).done {
      StoppedPrefix(channelCount, tb, st0, words, k + 1);
    }
  }

  /** The word loop of main over one block: ld_i32_be at every fourth byte, until the end frame. */
  method DecodeBlock(channelCount: nat, tb: Timebase, st0: DecoderState, block: array<byte>) returns (r: Run)
    requires Inv(channelCount, st0) && block.Length == BlockSize
    ensures r == Demux(channelCount, tb, st0, Words(block[..]))
  {
    ghost var words := Words(block[..]);
    var st, events := st0, [];
    var j := 0;
    ghost var k := 0;
    while j < BlockSize
      invariant j == 4 * k && k <= |words| && Inv(channelCount, st)
      invariant Run(st, events, false) == Demux(channelCount, tb, st0, words[..k])
    {
      var w := LoadI32(block[j..j + 4]);
      assert w == words[k];
      WordStep(channelCount, tb, st0, words, k, st, events);
      var s := Step(channelCount, tb, st, w);
      if s.done {
        return Run(s.state, events, true);
      }
      events := events + Events(s.event);
      st := s.state;
      j := j + 4;
      k := k + 1;
    }
    assert words[..k] == words;
    return Run(st, events, false);
  }

  /** The words of the first k + 1 blocks: those of the first k, then those of block k. */
  lemma DataWordsSnoc(data: seq<seq<byte>>, k: nat)
    requires AllBlocks(data) && k < |data|
    ensures DataWords(data[..k + 1]) == DataWords(data[..k]) + Words(data[k])
  {
    var one: seq<seq<byte>> := [data[k]];
    assert one[..0] == [];
    assert data[..k + 1] == data[..k] + one;
    DataWordsAppend(data[..k], one);
  }

  /** One more block: the run so far, then the block's words from where it left off. */
  lemma DataSnoc(channelCount: nat, tb: Timebase, data: seq<seq<byte>>, k: nat)
    requires AllBlocks(data) && k < |data| && 1 <= channelCount <= MaxChannelCount
    requires !Demux(channelCount, tb, Initial, DataWords(data[..k])).stopped
    ensures var prior := Demux(channelCount, tb, Initial, DataWords(data[..k]));
            Demux(channelCount, tb, Initial, DataWords(data[..k + 1]))
              == Then(prior, Demux(channelCount, tb, prior.state, Words(data[k])))
  {
    DataWordsSnoc(data, k);
    DemuxAppend(channelCount, tb, Initial, DataWords(data[..k]), Words(data[k]));
  }

  /** A data phase that reached the end frame within its first k blocks ends there. */
  lemma DataStopped(channelCount: nat, tb: Timebase, data: seq<seq<byte>>, count: nat, k: nat)
    requires AllBlocks(data) && 1 <= channelCount <= MaxChannelCount && k <= |data| && k <= count
    requires Demux(channelCount, tb, Initial, DataWords(data[..k])).stopped
    ensures DataOutcome(channelCount, tb, data, count)
         == Outcome(Demux(channelCount, tb, Initial, DataWords(data[..k])).events, AtEndFrame)
  {
    var avail := if |data| < count then |data| else count;
    assert data[..avail] == data[..k] + data[k..avail];
    DataWordsAppend(data[..k], data[k..avail]);
    StopIsFinal(channelCount, tb, Initial, DataWords(data[..k]), DataWords(data[k..avail]));
  }

  /** Block k of the data decoded from where the first k left off: the run goes on, or ends at the end frame. */
  lemma DataBlock(channelCount: nat, tb: Timebase, data: seq<seq<byte>>, count: nat, k: nat,
                  st: DecoderState, events: seq<Event>, r: Run)
    requires AllBlocks(data) && 1 <= channelCount <= MaxChannelCount && k < |data| && k < count
    requires Run(st, events, false) == Demux(channelCount, tb, Initial, DataWords(data[..k]))
    requires r == Demux(channelCount, tb, st, Words(data[k]))
    ensures r.stopped ==> DataOutcome(channelCount, tb, data, count) == Outcome(events + r.events, AtEndFrame)
    ensures !r.stopped ==> Run(r.state, events + r.events, false) == Demux(channelCount, tb, Initial, DataWords(data[..k + 1]))
  {
    DataSnoc(channelCount, tb, data, k);
    if r.stopped {
      DataStopped(channelCount, tb, data, count, k + 1);
    }
  }

  /** Input that runs out before the end address ends the data phase there. */
  lemma DataEnded(channelCount: nat, tb: Timebase, data: seq<seq<byte>>, count: nat, events: seq<Event>, st: DecoderState)
    requires AllBlocks(data) && 1 <= channelCount <= MaxChannelCount && |data| < count
    requires Run(st, events, false) == Demux(channelCount, tb, Initial, DataWords(data[..|data|]))
    ensures DataOutcome(channelCount, tb, data, count) == Outcome(events, InputEnded)
  {
  }

  /** All blocks up to the end address decoded without an end frame. */
  lemma DataComplete(channelCount: nat, tb: Timebase, data: seq<seq<byte>>, count: nat, events: seq<Event>, st: DecoderState)
    requires AllBlocks(data) && 1 <= channelCount <= MaxChannelCount && count <= |data|
    requires Run(st, events, false) == Demux(channelCount, tb, Initial, DataWords(data[..count]))
    ensures DataOutcome(channelCount, tb, data, count) == Outcome(events, AtEndAddress)
  {
  }

  /** The data loop of main: block counter i runs up to the end address, every block decoded in turn. */
  method DecodeData(channelCount: nat, tb: Timebase, input: seq<seq<byte>>, from: nat, i0: nat, address: nat,
                    block: array<byte>) returns (events: seq<Event>, stop: Stop)
    requires AllBlocks(input) && from <= |input| && 1 <= channelCount <= MaxChannelCount && block.Length == BlockSize
    modifies block
    ensures Outcome(events, stop) == DataOutcome(channelCount, tb, input[from..], if address > i0 then address - i0 else 0)
  {
    ghost var data := input[from..];
    ghost var count := if address > i0 then address - i0 else 0;
    var st := Initial;
    events := [];
    var i, next := i0, from;
    ghost var k := 0;
    while i < address
      invariant i == i0 + k && next == from + k && next <= |input| && k <= count
      invariant Inv(channelCount, st)
      invariant Run(st, events, false) == Demux(channelCount, tb, Initial, DataWords(data[..k]))
    {
      var ok := ReadBlock(input, next, block);
      if !ok {
        assert data[..k] == data[..|data|];
        DataEnded(channelCount, tb, data, count, events, st);
        return events, InputEnded;
      }
      assert data[k] == block[..];
      var r := DecodeBlock(channelCount, tb, st, block);
      DataBlock(channelCount, tb, data, count, k, st, events, r);
      next := next + 1;
      i := i + 1;
      k := k + 1;
      if r.stopped {
        return events + r.events, AtEndFrame;
      }
      events := events + r.events;
      st := r.state;
    }
    DataComplete(channelCount, tb, data, count, events, st);
    return events, AtEndAddress;
  }

  /** main from the first read_block to the label `done`, over an input of whole blocks. */
  method Convert(bcd: Bcd, tai: Tai, input: seq<seq<byte>>) returns (events: seq<Event>, stop: Stop)
    requires AllBlocks(input)
    ensures Outcome(events, stop) == Conversion(bcd, tai, input)
  {
    var block := new byte[BlockSize];
    var c := SelectHeaders(bcd, input, block);
    events, stop := ConvertFrom(bcd, tai, input, c, block);
  }

  /** main after the headers: the time base, the skip to the start address, then the data loop. */
  method ConvertFrom(bcd: Bcd, tai: Tai, input: seq<seq<byte>>, c: Choice, block: array<byte>)
      returns (events: seq<Event>, stop: Stop)
    requires AllBlocks(input) && Usable(c, |input|) && block.Length == BlockSize
    modifies block
    ensures Outcome(events, stop) == ConversionFrom(bcd, tai, input, c)
  {
    if c.Refused? {
      return [], c.stop;
    }
    var hs, he := c.start, c.end;
    var tb := MakeTimebase(bcd, tai, hs, he);
    var i, next := 2, c.base + 2;
    while i < hs.address
      invariant 2 <= i && next == c.base + i && next <= |input|
      invariant i > 2 ==> i <= hs.address
    {
      var ok := ReadBlock(input, next, block);
      if !ok { return [], InputEnded; }
      next := next + 1;
      i := i + 1;
    }
    events, stop := DecodeData(hs.channelCount, tb, input, next, i, he.address, block);
  }
}
