/**
 * The HLD/TRB3 unpacker (JPetUnpackTask): the record loop, the subheader loop,
 * the TDC sub-payload loop and the per-word decoder that turns 32-bit data
 * words into leading and trailing edge times of TDC channels.
 *
 * Times are integer picoseconds: the coarse counter ticks every 5000 ps, an
 * epoch spans 2048 coarse ticks (10240000 ps) and the fine counter is in
 * units of 10 ps unless a nonlinearity correction supplies picoseconds.
 */
module UnpackTask {
  import opened UnpackTools
  import opened Wrappers

  // ---------------------------------------------------------------------------
  // Data words
  // ---------------------------------------------------------------------------


  /** The 3-bit type of a data word of value n (`n >> 29`): 3 is an epoch counter, 4 is a time measurement. */
  function HeaderOf(n: nat): nat
  {
    n / 0x2000_0000
  }

  /** The epoch counter: the low 28 bits. */
  function EpochOf(n: nat): (e: nat)
    ensures e < 0x1000_0000
  {
    n % 0x1000_0000
  }

  /** The TDC channel: bits 22-28. */
  function ChannelOf(n: nat): (c: nat)
    ensures c < 128
  {
    n / 0x40_0000 % 128
  }

  /** The raw fine counter: bits 12-21. */
  function FineOf(n: nat): (f: nat)
    ensures f < 1024
  {
    n / 0x1000 % 1024
  }

  /** The edge direction: bit 11 is set for a leading (rising) edge. */
  predicate IsRising(n: nat)
  {
    n / 0x800 % 2 == 1
  }

  /** The coarse counter: bits 0-10. */
  function CoarseOf(n: nat): (c: nat)
    ensures c < 2048
  {
    n % 0x800
  }

  /** The value of a time word built from a channel, a fine counter, an edge and a coarse counter. */
  function TimeValue(ch: nat, fine: nat, rising: bool, coarse: nat): (n: nat)
    requires ch < 128 && fine < 1024 && coarse < 2048
    ensures n < 0x1_0000_0000
  {
    4 * 0x2000_0000 + ch * 0x40_0000 + fine * 0x1000 + (if rising then 0x800 else 0) + coarse
  }

  /** The field extractors read back every field a time word was built from. */
  lemma TimeWordFields(ch: nat, fine: nat, rising: bool, coarse: nat)
    requires ch < 128 && fine < 1024 && coarse < 2048
    ensures var n := TimeValue(ch, fine, rising, coarse);
            HeaderOf(n) == 4 && ChannelOf(n) == ch && FineOf(n) == fine
            && IsRising(n) == rising && CoarseOf(n) == coarse
  {
    var n := TimeValue(ch, fine, rising, coarse);
    var r := if rising then 1 else 0;
    assert n == ((4 * 128 + ch) * 1024 + fine) * 0x1000 + r * 0x800 + coarse;
    assert n / 0x800 == ((4 * 128 + ch) * 1024 + fine) * 2 + r;
    assert n / 0x1000 == (4 * 128 + ch) * 1024 + fine;
    assert n / 0x40_0000 == 4 * 128 + ch;
  }

  /** The epoch extractor reads back the counter an epoch word was built from. */
  lemma EpochWordFields(e: nat)
    requires e < 0x1000_0000
    ensures HeaderOf(3 * 0x2000_0000 + e) == 3 && EpochOf(3 * 0x2000_0000 + e) == e
  {
  }

  // ---------------------------------------------------------------------------
  // TDC sub-payload headers
  // ---------------------------------------------------------------------------

  /** The number of data words that follow a TDC header of value n (`n >> 16`). */
  function InternalSize(n: nat): nat
  {
    n / 0x1_0000
  }

  /** The network address of the TDC (`n & 0xffff`). */
  function TdcAddress(n: nat): (a: nat)
    ensures a < 0x1_0000
  {
    n % 0x1_0000
  }

  /** A TDC header is its size and its address side by side... */
  lemma TdcHeaderSplit(n: nat)
    ensures n == InternalSize(n) * 0x1_0000 + TdcAddress(n)
  {
  }

  /** ...and a size and an address put side by side split back apart. */
  lemma TdcHeaderJoin(size: nat, address: nat)
    requires address < 0x1_0000
    ensures InternalSize(size * 0x1_0000 + address) == size && TdcAddress(size * 0x1_0000 + address) == address
  {
  }

  // ---------------------------------------------------------------------------
  // Calibration and decoder state
  // ---------------------------------------------------------------------------

  /**
   * The calibration the decoder consults: per-channel nonlinearity
   * corrections (bin index to picoseconds), present only for some channels,
   * and the time-over-threshold offsets by bin index. The source subtracts the
   * TOT histogram's bin content from a time in nanoseconds; since times here
   * are in picoseconds, `totOffsets` yields 1000 times that bin content.
   */
  datatype Calibration = Calibration(useTdcCorrection: bool,
                                     tdcCorrections: map<int, int -> int>,
                                     totOffsets: int -> int)

  /** The fine time in ps: the correction bin `fine + 1` when one exists for the channel, else ten times the count. */
  function CorrectedFine(cal: Calibration, ch: int, fine: nat): int
  {
    if cal.useTdcCorrection && ch in cal.tdcCorrections then cal.tdcCorrections[ch](fine + 1) else fine * 10
  }

  /** The absolute time in ps of a measurement in the given epoch. */
  function FullTime(epoch: int, coarse: int, fine: int): int
  {
    epoch * 10240000 + coarse * 5000 - fine
  }

  /** What the decoder carries from one word of a TDC sub-payload to the next. */
  datatype DecoderState = DecoderState(epoch: int, channel: int, gotRef: bool, refTime: int, firstHitOnCh: bool)

  /** The state at the start of every TDC sub-payload: no channel seen, no reference time. */
  function InitialDecoder(): DecoderState
  {
    DecoderState(0, -1, false, 0, true)
  }

  /** What the decoder adds to the output event: a new channel, or an edge time on the channel last opened. */
  datatype TdcEvent = OpenChannel(ch: int) | Lead(ch: int, time: int) | Trail(ch: int, time: int)

  datatype Step = Step(state: DecoderState, events: seq<TdcEvent>)

  /**
   * How one word may change the channel bookkeeping: no events, with the
   * current channel kept open only if it was open; or an edge on the
   * current channel, preceded by opening it unless it was already open.
   */
  predicate StepShape(st: DecoderState, r: Step, offset: int)
  {
    && (r.events == [] ==>
          (!r.state.firstHitOnCh ==> !st.firstHitOnCh && (st.channel < 0 || r.state.channel == st.channel)))
    && (r.events != [] ==>
          !r.state.firstHitOnCh && r.state.channel >= 0
          && var e := r.events[|r.events| - 1];
             !e.OpenChannel? && e.ch == r.state.channel + offset
             && (r.events == [OpenChannel(e.ch), e]
                 || (r.events == [e] && !st.firstHitOnCh && (st.channel < 0 || st.channel == r.state.channel))))
  }

  /** `performFour`: the effect of one (already byte-swapped) data word. */
  function DecodeWord(st: DecoderState, v: nat, cal: Calibration, offset: int): (r: Step)
    ensures HeaderOf(v) != 4 ==> r.events == []
    ensures StepShape(st, r, offset)
  {
    var header := HeaderOf(v);
    if header == 3 then
      Step(st.(epoch := EpochOf(v)), [])
    else if header == 4 then
      var ch := ChannelOf(v);
      var first := if st.channel >= 0 && st.channel != ch then true else st.firstHitOnCh;
      var fine := CorrectedFine(cal, ch + offset, FineOf(v));
      var st1 := st.(channel := ch, firstHitOnCh := first);
      if fine == 0x3ff then
        Step(st1, [])
      else
        var t := FullTime(st.epoch, CoarseOf(v), fine);
        if ch == 0 then
          Step(st1.(refTime := t, gotRef := true), [])
        else if !st.gotRef then
          Step(st1, [])
        else
          var c := ch + offset;
          var edge := if IsRising(v) then Lead(c, t - st.refTime)
                      else Trail(c, t - st.refTime - cal.totOffsets(c + 1));
          Step(st1.(firstHitOnCh := false), (if first then [OpenChannel(c)] else []) + [edge])
    else
      Step(st, [])
  }

  /** The (byte-swapped) words of one TDC sub-payload, decoded in order from the given state. */
  function DecodeWords(st: DecoderState, ws: seq<nat>, cal: Calibration, offset: int): Step
    decreases |ws|
  {
    if ws == [] then Step(st, [])
    else
      var r := DecodeWords(st, ws[..|ws| - 1], cal, offset);
      var s := DecodeWord(r.state, ws[|ws| - 1], cal, offset);
      Step(s.state, r.events + s.events)
  }

  // ---------------------------------------------------------------------------
  // Properties of the word decoder
  // ---------------------------------------------------------------------------

  /** An epoch word changes only the epoch, to its low 28 bits, and emits nothing. */
  lemma EpochWordEffect(st: DecoderState, v: nat, cal: Calibration, offset: int)
    requires HeaderOf(v) == 3
    ensures DecodeWord(st, v, cal, offset) == Step(st.(epoch := EpochOf(v)), [])
  {
  }

  /** A word of any type other than 3 and 4 changes nothing. */
  lemma OtherWordsInert(st: DecoderState, v: nat, cal: Calibration, offset: int)
    requires HeaderOf(v) != 3 && HeaderOf(v) != 4
    ensures DecodeWord(st, v, cal, offset) == Step(st, [])
  {
  }

  /** Without a correction the fine time is a multiple of 10, so the 0x3ff test never drops a word. */
  lemma TenfoldNeverDropped(cal: Calibration, ch: int, fine: nat)
    requires !(cal.useTdcCorrection && ch in cal.tdcCorrections)
    ensures CorrectedFine(cal, ch, fine) != 0x3ff
  {
    assert CorrectedFine(cal, ch, fine) % 10 == 0;
  }

  /** A time word whose fine time comes out as 0x3ff emits nothing. */
  lemma OverflowDropped(st: DecoderState, v: nat, cal: Calibration, offset: int)
    requires HeaderOf(v) == 4
    requires CorrectedFine(cal, ChannelOf(v) + offset, FineOf(v)) == 0x3ff
    ensures DecodeWord(st, v, cal, offset).events == []
  {
  }

  /** A channel-0 time word sets the reference time and emits nothing. */
  lemma ReferenceWordEffect(st: DecoderState, v: nat, cal: Calibration, offset: int)
    requires HeaderOf(v) == 4 && ChannelOf(v) == 0
    requires CorrectedFine(cal, offset, FineOf(v)) != 0x3ff
    ensures var r := DecodeWord(st, v, cal, offset);
            r.events == [] && r.state.gotRef
            && r.state.refTime == FullTime(st.epoch, CoarseOf(v), CorrectedFine(cal, offset, FineOf(v)))
  {
  }

  /** Before a reference time is seen, a time word on any other channel emits nothing. */
  lemma NoEdgeBeforeReference(st: DecoderState, v: nat, cal: Calibration, offset: int)
    requires !st.gotRef && ChannelOf(v) != 0
    ensures DecodeWord(st, v, cal, offset).events == []
  {
  }

  /**
   * After a reference time, a time word on channel ch > 0 emits one edge on
   * channel ch + offset, its time relative to the reference (lessened by the
   * TOT offset for a trailing edge), opening the channel first exactly when
   * it is the first hit since the channel changed.
   */
  lemma EdgeAfterReference(st: DecoderState, v: nat, cal: Calibration, offset: int)
    requires HeaderOf(v) == 4 && ChannelOf(v) != 0 && st.gotRef
    requires CorrectedFine(cal, ChannelOf(v) + offset, FineOf(v)) != 0x3ff
    ensures var r := DecodeWord(st, v, cal, offset);
            var c := ChannelOf(v) + offset;
            var t := FullTime(st.epoch, CoarseOf(v), CorrectedFine(cal, c, FineOf(v))) - st.refTime;
            var opens := st.firstHitOnCh || (st.channel >= 0 && st.channel != ChannelOf(v));
            r.events == (if opens then [OpenChannel(c)] else [])
                        + [if IsRising(v) then Lead(c, t) else Trail(c, t - cal.totOffsets(c + 1))]
            && !r.state.firstHitOnCh && r.state.channel == ChannelOf(v)
  {
  }

  /**
   * A TDC header word whose size field is below 0x6000 has a type below 3,
   * so passing it through the word decoder, as the sub-payload loop does,
   * changes nothing.
   */
  lemma TdcHeaderInert(st: DecoderState, h: nat, cal: Calibration, offset: int)
    requires InternalSize(h) < 0x6000
    ensures DecodeWord(st, h, cal, offset) == Step(st, [])
  {
    assert HeaderOf(h) < 3;
  }

  /**
   * A payload with a reference edge on channel 0 followed by a rising edge on
   * channel 5 (both in epoch 0, uncorrected; the values are the byte-swapped words) yields the channel-5 edge with
   * its time relative to the reference.
   */
  lemma ReferenceThenEdge(v0: nat, v5: nat, cal: Calibration, offset: int)
    requires HeaderOf(v0) == 4 && ChannelOf(v0) == 0
    requires HeaderOf(v5) == 4 && ChannelOf(v5) == 5 && IsRising(v5)
    requires !cal.useTdcCorrection
    ensures DecodeWords(InitialDecoder(), [v0, v5], cal, offset).events
            == [OpenChannel(5 + offset),
                Lead(5 + offset, FullTime(0, CoarseOf(v5), 10 * FineOf(v5)) - FullTime(0, CoarseOf(v0), 10 * FineOf(v0)))]
  {
    TenfoldNeverDropped(cal, offset, FineOf(v0));
    TenfoldNeverDropped(cal, 5 + offset, FineOf(v5));
    var s0 := DecodeWord(InitialDecoder(), v0, cal, offset);
    assert s0 == Step(DecoderState(0, 0, true, FullTime(0, CoarseOf(v0), 10 * FineOf(v0)), true), []);
    assert [v0, v5][..1] == [v0];
    assert [v0][..0] == [];
    assert DecodeWords(InitialDecoder(), [v0], cal, offset) == s0;
    var s5 := DecodeWord(s0.state, v5, cal, offset);
    assert CorrectedFine(cal, 5 + offset, FineOf(v5)) == 10 * FineOf(v5);
    assert s5.events == [OpenChannel(5 + offset),
                         Lead(5 + offset, FullTime(0, CoarseOf(v5), 10 * FineOf(v5)) - FullTime(0, CoarseOf(v0), 10 * FineOf(v0)))];
    assert DecodeWords(InitialDecoder(), [v0, v5], cal, offset).events == s0.events + s5.events;
  }

  /** The same two edges in the opposite order yield nothing: an edge before any reference is dropped. */
  lemma EdgeThenReference(v0: nat, v5: nat, cal: Calibration, offset: int)
    requires HeaderOf(v0) == 4 && ChannelOf(v0) == 0
    requires HeaderOf(v5) == 4 && ChannelOf(v5) == 5
    ensures DecodeWords(InitialDecoder(), [v5, v0], cal, offset).events == []
  {
    var s5 := DecodeWord(InitialDecoder(), v5, cal, offset);
    assert s5.events == [] && !s5.state.gotRef;
    assert [v5, v0][..1] == [v5];
    assert [v5][..0] == [];
    assert DecodeWords(InitialDecoder(), [v5], cal, offset) == s5;
  }

  // ---------------------------------------------------------------------------
  // Every edge belongs to the channel opened last
  // ---------------------------------------------------------------------------

  lemma Assoc(a: seq<TdcEvent>, b: seq<TdcEvent>, c: seq<TdcEvent>)
    ensures a + (b + c) == (a + b) + c
  {
  }

  /** The channel of the last `OpenChannel` in a sequence of events. */
  function LastOpen(evs: seq<TdcEvent>): Option<int>
    decreases |evs|
  {
    if evs == [] then None
    else if evs[|evs| - 1].OpenChannel? then Some(evs[|evs| - 1].ch)
    else LastOpen(evs[..|evs| - 1])
  }

  /** Every edge is recorded on a channel that was opened before it, and no other channel was opened in between. */
  predicate Attributed(evs: seq<TdcEvent>)
    decreases |evs|
  {
    evs == [] ||
    (Attributed(evs[..|evs| - 1])
     && (evs[|evs| - 1].OpenChannel? || LastOpen(evs[..|evs| - 1]) == Some(evs[|evs| - 1].ch)))
  }

  /** The decoder invariant: when the current hit is not the first on its channel, that channel is the one open. */
  predicate DecoderInv(st: DecoderState, evs: seq<TdcEvent>, offset: int)
  {
    Attributed(evs) && (!st.firstHitOnCh ==> st.channel >= 0 && LastOpen(evs) == Some(st.channel + offset))
  }

  lemma AppendOpen(evs: seq<TdcEvent>, c: int)
    requires Attributed(evs)
    ensures Attributed(evs + [OpenChannel(c)]) && LastOpen(evs + [OpenChannel(c)]) == Some(c)
  {
    assert (evs + [OpenChannel(c)])[..|evs|] == evs;
  }

  lemma AppendEdge(evs: seq<TdcEvent>, e: TdcEvent)
    requires Attributed(evs) && !e.OpenChannel? && LastOpen(evs) == Some(e.ch)
    ensures Attributed(evs + [e]) && LastOpen(evs + [e]) == Some(e.ch)
  {
    assert (evs + [e])[..|evs|] == evs;
  }

  /** One word keeps the decoder invariant. */
  lemma StepKeepsInv(st: DecoderState, r: Step, offset: int, evs: seq<TdcEvent>)
    requires DecoderInv(st, evs, offset) && StepShape(st, r, offset)
    ensures DecoderInv(r.state, evs + r.events, offset)
  {
    if r.events == [] {
      assert evs + r.events == evs;
    } else {
      var edge := r.events[|r.events| - 1];
      if r.events == [OpenChannel(edge.ch), edge] {
        AppendOpen(evs, edge.ch);
        AppendEdge(evs + [OpenChannel(edge.ch)], edge);
        assert evs + r.events == evs + [OpenChannel(edge.ch)] + [edge];
      } else {
        AppendEdge(evs, edge);
      }
    }
  }

  lemma {:induction false} DecodeWordsKeepsInv(st: DecoderState, ws: seq<nat>, cal: Calibration, offset: int,
                                                evs: seq<TdcEvent>)
    requires DecoderInv(st, evs, offset)
    ensures var r := DecodeWords(st, ws, cal, offset);
            DecoderInv(r.state, evs + r.events, offset)
    decreases |ws|
  {
    if ws == [] {
      assert evs + [] == evs;
    } else {
      var r := DecodeWords(st, ws[..|ws| - 1], cal, offset);
      DecodeWordsKeepsInv(st, ws[..|ws| - 1], cal, offset, evs);
      var s := DecodeWord(r.state, ws[|ws| - 1], cal, offset);
      StepKeepsInv(r.state, s, offset, evs + r.events);
      Assoc(evs, r.events, s.events);
    }
  }

  /** The events of a whole TDC sub-payload, decoded from the initial state, keep every edge on its open channel. */
  lemma BlockAttributed(ws: seq<nat>, cal: Calibration, offset: int, evs: seq<TdcEvent>)
    requires Attributed(evs)
    ensures Attributed(evs + DecodeWords(InitialDecoder(), ws, cal, offset).events)
  {
    DecodeWordsKeepsInv(InitialDecoder(), ws, cal, offset, evs);
  }

  // ---------------------------------------------------------------------------
  // The TDC sub-payload loop (performThree)
  // ---------------------------------------------------------------------------

  function Min(a: int, b: int): int
  {
    if a <= b then a else b
  }

  /**
   * The events of the TDC sub-payload whose header is word k: its
   * `internalSize + 1` words, starting with the header word itself, decoded
   * with the channel offset of its address; nothing for an unknown address.
   */
  function BlockEvents(ws: seq<nat>, k: nat, offsets: map<int, int>, cal: Calibration): seq<TdcEvent>
    requires k < |ws|
  {
    var h := ws[k];
    var a := TdcAddress(h);
    if a in offsets then DecodeWords(InitialDecoder(), BlockWords(ws, k), cal, offsets[a]).events
    else []
  }

  /** The words of the sub-payload whose header is word k, cut at the end of the payload. */
  function BlockWords(ws: seq<nat>, k: nat): seq<nat>
    requires k < |ws|
  {
    ws[k..Min(k + InternalSize(ws[k]) + 1, |ws|)]
  }

  /** The size of the sub-payload whose header is word k, in bytes. */
  function BlockBytes(ws: seq<nat>, k: nat): nat
    requires k < |ws|
  {
    4 * (InternalSize(ws[k]) + 1)
  }

  /**
   * The events of the sub-payload loop from word k with `dataSize` bytes
   * left: it stops when no bytes are left, when the counter has wrapped
   * above the initial size, or when the payload words run out.
   */
  function TdcBlocks(ws: seq<nat>, k: nat, dataSize: nat, initial: nat, offsets: map<int, int>, cal: Calibration)
    : seq<TdcEvent>
    decreases if k < |ws| then |ws| - k else 0
  {
    if dataSize == 0 || dataSize > initial || k >= |ws| then []
    else
      BlockEvents(ws, k, offsets, cal)
      + TdcBlocks(ws, k + InternalSize(ws[k]) + 1, Wrap(dataSize - BlockBytes(ws, k)), initial, offsets, cal)
  }

  /** One turn of the sub-payload loop: the events of the block at k, then the rest of the loop. */
  lemma TdcBlocksStep(ws: seq<nat>, k: nat, dataSize: nat, initial: nat, offsets: map<int, int>, cal: Calibration)
    requires 0 < dataSize <= initial && k < |ws|
    ensures TdcBlocks(ws, k, dataSize, initial, offsets, cal)
            == BlockEvents(ws, k, offsets, cal)
               + TdcBlocks(ws, k + InternalSize(ws[k]) + 1, Wrap(dataSize - BlockBytes(ws, k)), initial, offsets, cal)
  {
  }

  /** The events so far followed by the rest of the loop, regrouped after one block. */
  lemma TdcBlocksAfterBlock(ws: seq<nat>, k: nat, dataSize: nat, initial: nat, offsets: map<int, int>,
                            cal: Calibration, before: seq<TdcEvent>)
    requires 0 < dataSize <= initial && k < |ws|
    ensures before + TdcBlocks(ws, k, dataSize, initial, offsets, cal)
            == (before + BlockEvents(ws, k, offsets, cal))
               + TdcBlocks(ws, k + InternalSize(ws[k]) + 1, Wrap(dataSize - BlockBytes(ws, k)), initial, offsets, cal)
  {
    TdcBlocksStep(ws, k, dataSize, initial, offsets, cal);
    Assoc(before, BlockEvents(ws, k, offsets, cal),
          TdcBlocks(ws, k + InternalSize(ws[k]) + 1, Wrap(dataSize - BlockBytes(ws, k)), initial, offsets, cal));
  }

  lemma BlockEventsAttributed(ws: seq<nat>, k: nat, offsets: map<int, int>, cal: Calibration, evs: seq<TdcEvent>)
    requires Attributed(evs) && k < |ws|
    ensures Attributed(evs + BlockEvents(ws, k, offsets, cal))
  {
    var h := ws[k];
    if TdcAddress(h) in offsets {
      BlockAttributed(BlockWords(ws, k), cal, offsets[TdcAddress(h)], evs);
    } else {
      assert evs + BlockEvents(ws, k, offsets, cal) == evs;
    }
  }

  lemma {:induction false} TdcBlocksAttributed(ws: seq<nat>, k: nat, dataSize: nat, initial: nat,
                                               offsets: map<int, int>, cal: Calibration, evs: seq<TdcEvent>)
    requires Attributed(evs)
    ensures Attributed(evs + TdcBlocks(ws, k, dataSize, initial, offsets, cal))
    decreases if k < |ws| then |ws| - k else 0
  {
    if dataSize == 0 || dataSize > initial || k >= |ws| {
      assert evs + [] == evs;
    } else {
      var b := BlockEvents(ws, k, offsets, cal);
      var h := ws[k];
      BlockEventsAttributed(ws, k, offsets, cal, evs);
      var k2 := k + InternalSize(h) + 1;
      var d2 := Wrap(dataSize - BlockBytes(ws, k));
      TdcBlocksStep(ws, k, dataSize, initial, offsets, cal);
      TdcBlocksAttributed(ws, k2, d2, initial, offsets, cal, evs + b);
      Assoc(evs, b, TdcBlocks(ws, k2, d2, initial, offsets, cal));
    }
  }


  /**
   * The counter check catches a sub-payload that claims more bytes than
   * remain: with a payload below 2^62 bytes the unsigned difference wraps
   * above the initial size exactly when the block is too long.
   */
  lemma OverlongBlockDetected(dataSize: nat, initial: nat, blockBytes: nat)
    requires 0 < dataSize <= initial < 0x4000_0000_0000_0000 && blockBytes < 0x4000_0000_0000_0000
    ensures Wrap(dataSize - blockBytes) > initial <==> blockBytes > dataSize
  {
  }

  /** A counter wrapped above the initial size ends the sub-payload loop at once. */
  lemma TdcBlocksStopsOnWrap(ws: seq<nat>, k: nat, dataSize: nat, initial: nat, offsets: map<int, int>,
                             cal: Calibration)
    requires dataSize > initial
    ensures TdcBlocks(ws, k, dataSize, initial, offsets, cal) == []
  {
  }

  /**
   * One turn of `while(dataSize > 0) performThree(...)` as written, granting
   * that the counter is passed by reference: the counter after the turn, for
   * a block of `blockBytes` bytes. A wrapped counter makes `performThree`
   * return false without touching it, and the loop never reads that verdict.
   */
  function CounterAfterTurnAsWritten(dataSize: nat, initial: nat, blockBytes: nat): nat
  {
    if dataSize > initial then dataSize else Wrap(dataSize - blockBytes)
  }

  /** The counter after one turn per block size in `blocks`. */
  function CounterAfterTurnsAsWritten(dataSize: nat, initial: nat, blocks: seq<nat>): nat
    decreases |blocks|
  {
    if blocks == [] then dataSize
    else CounterAfterTurnsAsWritten(CounterAfterTurnAsWritten(dataSize, initial, blocks[0]), initial, blocks[1..])
  }

  /** As written, once the counter has wrapped it stays put and non-zero however many turns follow: the loop never ends. */
  lemma {:induction false} WrappedCounterSpins(dataSize: nat, initial: nat, blocks: seq<nat>)
    requires dataSize > initial
    ensures CounterAfterTurnsAsWritten(dataSize, initial, blocks) == dataSize && dataSize > 0
    decreases |blocks|
  {
    if blocks != [] {
      WrappedCounterSpins(dataSize, initial, blocks[1..]);
    }
  }

  /** An 8-byte payload whose first block claims 12 bytes wraps the counter to 2^64 - 4, after which it never moves. */
  lemma OverlongBlockSpinsWitness(blocks: seq<nat>)
    ensures CounterAfterTurnAsWritten(8, 8, 12) == SizeMod - 4
    ensures CounterAfterTurnsAsWritten(SizeMod - 4, 8, blocks) == SizeMod - 4
  {
    WrappedCounterSpins(SizeMod - 4, 8, blocks);
  }

  /** The events of a subheader payload: the sub-payload loop, skipped when the first word is zero. */
  function PayloadEvents(ws: seq<word>, dataSize: nat, offsets: map<int, int>, cal: Calibration): seq<TdcEvent>
  {
    if |ws| > 0 && ws[0] != 0 then TdcBlocks(SwappedValues(ws), 0, dataSize, dataSize, offsets, cal) else []
  }

  /** Appending the events of a payload keeps every edge attributed to the channel opened last. */
  lemma PayloadKeepsAttributed(evs: seq<TdcEvent>, ws: seq<word>, dataSize: nat, offsets: map<int, int>, cal: Calibration)
    requires Attributed(evs)
    ensures Attributed(evs + PayloadEvents(ws, dataSize, offsets, cal))
  {
    if |ws| > 0 && ws[0] != 0 {
      TdcBlocksAttributed(SwappedValues(ws), 0, dataSize, dataSize, offsets, cal, evs);
    } else {
      assert evs + [] == evs;
    }
  }

  /** The values of the payload words as the decoder sees them: every word is byte-swapped first. */
  function SwappedValues(ws: seq<word>): (vs: seq<nat>)
    ensures |vs| == |ws|
  {
    seq(|ws|, i requires 0 <= i < |ws| => ReverseHex(ws[i]))
  }

  // ---------------------------------------------------------------------------
  // Entry size bookkeeping (performTwo) and the record loop test (performOne)
  // ---------------------------------------------------------------------------

  /** Whether the subheader loop goes on, and the entry size it leaves. */
  datatype EntryVerdict = EntryVerdict(more: bool, entrySize: nat)

  /**
   * The size bookkeeping after one subheader: its data size comes off the
   * entry size; a result above the initial size means the file is corrupted.
   * Outside the full setup the loop ends at 48 bytes or less; in the full
   * setup the padding comes off too and the loop ends at 64 or at 176 bytes
   * or less.
   */
  function SubRecordSizes(entry: nat, init: nat, dataSize: nat, padding: nat, fullSetup: bool): (v: EntryVerdict)
    ensures v.entrySize < SizeMod
  {
    var e1 := Wrap(entry - dataSize);
    if e1 > init then EntryVerdict(false, e1)
    else if e1 <= 48 && !fullSetup then EntryVerdict(false, e1)
    else
      var e2 := Wrap(e1 - padding);
      if e2 <= 64 && fullSetup then EntryVerdict(false, e2)
      else if e2 <= 176 && fullSetup then EntryVerdict(false, e2)
      else EntryVerdict(true, e2)
  }

  /**
   * The loop goes on exactly when the entry has not wrapped and more than 48
   * bytes (outside the full setup) or, after the padding, more than 176 bytes
   * (in it) remain; the test against 64 never decides anything.
   */
  lemma SubRecordStops(entry: nat, init: nat, dataSize: nat, padding: nat, fullSetup: bool)
    ensures var e1 := Wrap(entry - dataSize);
            var e2 := Wrap(e1 - padding);
            SubRecordSizes(entry, init, dataSize, padding, fullSetup).more
            <==> e1 <= init && (if fullSetup then e2 > 176 else e1 > 48)
  {
  }

  /**
   * The entry size wraps above its initial value exactly when a subheader
   * claims more bytes than remain in the entry.
   */
  lemma EntryWrapDetected(entry: nat, init: nat, dataSize: nat)
    requires entry <= init < 0x8000_0000_0000_0000 && dataSize < 0x8000_0000_0000_0000
    ensures Wrap(entry - dataSize) > init <==> dataSize > entry
  {
  }

  /** The end-of-loop test of `performOne`: true when the record loop goes on. */
  predicate RecordLoopContinues(fileSize: int, pos: int, eof: bool, analyzed: int, toAnalyze: int)
  {
    !(fileSize - pos < 500) && !(eof || pos == fileSize) && analyzed != toAnalyze
  }

  /** With the file size left at 0, as the unpacker leaves it, the record loop stops after the first record it decodes. */
  lemma UnsetFileSizeStops(pos: nat, eof: bool, analyzed: int, toAnalyze: int)
    ensures !RecordLoopContinues(0, pos, eof, analyzed, toAnalyze)
  {
  }

  /** With the true file size, the loop goes on only while at least 500 bytes remain and the budget is not spent. */
  lemma ContinuesOnlyWithMargin(file: seq<byte>, pos: nat, eof: bool, analyzed: int, toAnalyze: int)
    ensures RecordLoopContinues(|file|, pos, eof, analyzed, toAnalyze)
            <==> pos + 500 <= |file| && !eof && analyzed != toAnalyze
  {
  }

  /** The conversion `(int)` of a stream position: its low 32 bits read as a two's-complement value. */
  function Int32Of(x: int): (r: int)
    ensures -0x8000_0000 <= r < 0x8000_0000
    ensures 0 <= x < 0x8000_0000 ==> r == x
  {
    var m := x % 0x1_0000_0000;
    if m < 0x8000_0000 then m else m - 0x1_0000_0000
  }

  /** The end-of-loop test of `performOne` as written: both position tests see the position cast to `int`. */
  predicate RecordLoopContinuesAsWritten(fileSize: int, pos: int, eof: bool, analyzed: int, toAnalyze: int)
  {
    !(fileSize - Int32Of(pos) < 500) && !(eof || Int32Of(pos) == fileSize) && analyzed != toAnalyze
  }

  /** Below 2 GiB the cast changes nothing. */
  lemma AsWrittenTestBelow2GiB(fileSize: int, pos: nat, eof: bool, analyzed: int, toAnalyze: int)
    requires pos < 0x8000_0000
    ensures RecordLoopContinuesAsWritten(fileSize, pos, eof, analyzed, toAnalyze)
            == RecordLoopContinues(fileSize, pos, eof, analyzed, toAnalyze)
  {
  }

  /**
   * For a file of 2 GiB and 500 bytes or more neither position test, as
   * written, ever ends the loop: only end-of-file and the entry budget do.
   */
  lemma LargeFileIgnoresPosition(fileSize: int, pos: int, eof: bool, analyzed: int, toAnalyze: int)
    requires fileSize >= 0x8000_0000 + 500
    ensures RecordLoopContinuesAsWritten(fileSize, pos, eof, analyzed, toAnalyze) <==> !eof && analyzed != toAnalyze
  {
  }

  /** A 3 GiB file read exactly to its end, with end-of-file not yet set: as written the loop goes on, corrected it stops. */
  lemma LargeFileWitness()
    ensures RecordLoopContinuesAsWritten(0xC000_0000, 0xC000_0000, false, 1, 0)
    ensures !RecordLoopContinues(0xC000_0000, 0xC000_0000, false, 1, 0)
  {
    assert Int32Of(0xC000_0000) == -0x4000_0000;
  }

  /** The word loop of `performThree`: every word of one sub-payload through `performFour`, in order, from a fresh decoder. */
  method DecodeBlock(block: seq<nat>, cal: Calibration, offset: int) returns (acc: seq<TdcEvent>)
    ensures acc == DecodeWords(InitialDecoder(), block, cal, offset).events
  {
    var st := InitialDecoder();
    acc := [];
    var i := 0;
    while i < |block|
      invariant 0 <= i <= |block|
      invariant DecodeWords(InitialDecoder(), block[..i], cal, offset) == Step(st, acc)
    {
      var s := DecodeWord(st, block[i], cal, offset);
      assert block[..i + 1][..i] == block[..i];
      acc := acc + s.events;
      st := s.state;
      i := i + 1;
    }
    assert block[..|block|] == block;
  }

  /** The subheader that starts at byte p of the file. */
  function SubHdrAt(file: seq<byte>, p: nat): SubHdr
    requires p + SubHdrSize() <= |file|
  {
    ParseSubHdr(file[p..p + SubHdrSize()])
  }

  /** The data size the subheader at byte p announces. */
  function SubDataSize(file: seq<byte>, p: nat, doReverseHex: bool): nat
    requires p + SubHdrSize() <= |file|
  {
    GetDataSize(SubHdrAt(file, p), doReverseHex)
  }

  /** The padding after the payload of the subheader at byte p. */
  function SubPadding(file: seq<byte>, p: nat, doReverseHex: bool): nat
    requires p + SubHdrSize() <= |file|
  {
    var sub := SubHdrAt(file, p);
    Wrap(GetPaddedDataSize(sub, doReverseHex) - GetDataSize(sub, doReverseHex))
  }

  /** The payload words of the subheader at byte p, whose data size is d. */
  function PayloadAt(file: seq<byte>, p: nat, d: nat): seq<word>
    requires p + SubHdrSize() + d <= |file|
  {
    Words(file[p + SubHdrSize()..p + SubHdrSize() + d])
  }

  /** The record header that starts at byte p of the file. */
  function HdrAt(file: seq<byte>, p: nat): Hdr
    requires p + HdrSize() <= |file|
  {
    ParseHdr(file[p..p + HdrSize()])
  }

  // ---------------------------------------------------------------------------
  // The unpacker's loops on values
  // ---------------------------------------------------------------------------

  /** What the unpacker is built with and never changes. */
  datatype Setup = Setup(hld: seq<byte>, fileSize: int, doReverseHex: bool, fullSetup: bool,
                         entriesToAnalyze: int, tdcOffsets: map<int, int>, cal: Calibration)

  /** What the unpacker changes: stream position and end-of-file state, entry sizes, the entry count and the events. */
  datatype Stream = Stream(pos: nat, eof: bool, entrySize: nat, initEntrySize: nat, analyzedEntry: int,
                           events: seq<TdcEvent>)

  /** The verdict of one loop turn, and the state it leaves. */
  datatype Outcome = Outcome(more: bool, after: Stream)

  /** `ignore(n)` on the stream: skip up to n bytes, setting end-of-file only when fewer were left. */
  function Skipped(hld: seq<byte>, s: Stream, n: nat): (r: Stream)
    requires s.pos <= |hld|
    ensures r == s.(pos := r.pos, eof := r.eof)
    ensures s.eof ==> r == s
    ensures !s.eof ==> r.pos == Min(s.pos + n, |hld|) && r.eof == (s.pos + n > |hld|)
  {
    if s.eof then s
    else if s.pos + n <= |hld| then s.(pos := s.pos + n)
    else s.(pos := |hld|, eof := true)
  }

  /** A read that finds fewer bytes than it asks for ends the stream. */
  function ShortRead(hld: seq<byte>, s: Stream): Stream
  {
    s.(pos := if s.eof then s.pos else |hld|, eof := true)
  }

  /**
   * `performTwo`: the subheader at the stream position and its payload are
   * read, the payload's events are appended, the padding after it is skipped,
   * and the data size and padding come off the entry size. A short read of
   * either part ends the stream, adds nothing and keeps the entry size.
   */
  function SubRecordStep(cfg: Setup, s: Stream): (o: Outcome)
    requires s.pos <= |cfg.hld|
    ensures s.pos <= o.after.pos <= |cfg.hld| && (o.more ==> s.pos < o.after.pos)
    ensures o.after.initEntrySize == s.initEntrySize && o.after.analyzedEntry == s.analyzedEntry
    ensures s.entrySize < SizeMod ==> o.after.entrySize < SizeMod
  {
    var hld := cfg.hld;
    var p := s.pos;
    if s.eof || p + SubHdrSize() > |hld| then Outcome(false, ShortRead(hld, s))
    else
      var d := SubDataSize(hld, p, cfg.doReverseHex);
      if p + SubHdrSize() + d > |hld| then Outcome(false, s.(pos := |hld|, eof := true))
      else
        var pad := SubPadding(hld, p, cfg.doReverseHex);
        var s1 := s.(pos := p + SubHdrSize() + d,
                     events := s.events + PayloadEvents(PayloadAt(hld, p, d), d, cfg.tdcOffsets, cfg.cal));
        var s2 := Skipped(hld, s1, pad);
        var v := SubRecordSizes(s.entrySize, s.initEntrySize, d, pad, cfg.fullSetup);
        Outcome(v.more, s2.(entrySize := v.entrySize))
  }

  /**
   * What one turn of the subheader loop does: a short read of the subheader
   * or of the payload ends the stream and adds nothing; otherwise the payload's
   * events are appended, the stream stands past the payload and its padding
   * (or at the end), and the entry-size bookkeeping gives the verdict.
   */
  lemma SubRecordStepCases(cfg: Setup, s: Stream)
    requires s.pos <= |cfg.hld|
    ensures var o := SubRecordStep(cfg, s);
            (s.eof || s.pos + SubHdrSize() > |cfg.hld|) ==> o == Outcome(false, ShortRead(cfg.hld, s))
    ensures var o := SubRecordStep(cfg, s);
            !s.eof && s.pos + SubHdrSize() <= |cfg.hld| ==>
              var d := SubDataSize(cfg.hld, s.pos, cfg.doReverseHex);
              var pad := SubPadding(cfg.hld, s.pos, cfg.doReverseHex);
              if s.pos + SubHdrSize() + d > |cfg.hld| then
                o == Outcome(false, s.(pos := |cfg.hld|, eof := true))
              else
                o.after.events == s.events + PayloadEvents(PayloadAt(cfg.hld, s.pos, d), d, cfg.tdcOffsets, cfg.cal)
                && o.after.pos == Min(s.pos + SubHdrSize() + d + pad, |cfg.hld|)
                && o.after.eof == (s.pos + SubHdrSize() + d + pad > |cfg.hld|)
                && EntryVerdict(o.more, o.after.entrySize)
                   == SubRecordSizes(s.entrySize, s.initEntrySize, d, pad, cfg.fullSetup)
  {
  }

  /** The subheader loop of one record: `performTwo` again and again until it reports the record done. */
  function SubLoop(cfg: Setup, s: Stream): (r: Stream)
    requires s.pos <= |cfg.hld|
    ensures s.pos <= r.pos <= |cfg.hld|
    ensures r.initEntrySize == s.initEntrySize && r.analyzedEntry == s.analyzedEntry
    ensures s.entrySize < SizeMod ==> r.entrySize < SizeMod
    decreases |cfg.hld| - s.pos
  {
    var o := SubRecordStep(cfg, s);
    if o.more then SubLoop(cfg, o.after) else o.after
  }

  /**
   * The end of `performOne` after the subheader loop: the record counts as
   * analysed, outside the full setup the padding after the record is skipped,
   * and the end-of-loop test decides whether the record loop goes on.
   */
  function RecordEnd(cfg: Setup, s: Stream): (o: Outcome)
    requires s.pos <= |cfg.hld| && s.entrySize < SizeMod
    ensures s.pos <= o.after.pos <= |cfg.hld|
    ensures o.after.analyzedEntry == s.analyzedEntry + 1 && o.after.events == s.events
    ensures o.after.entrySize == s.entrySize && o.after.initEntrySize == s.initEntrySize
    ensures o.more == RecordLoopContinues(cfg.fileSize, o.after.pos, o.after.eof, o.after.analyzedEntry,
                                          cfg.entriesToAnalyze)
  {
    var s3 := s.(analyzedEntry := s.analyzedEntry + 1);
    var s4 := if cfg.fullSetup then s3 else Skipped(cfg.hld, s3, Wrap(Align8(s3.entrySize) - s3.entrySize));
    Outcome(RecordLoopContinues(cfg.fileSize, s4.pos, s4.eof, s4.analyzedEntry, cfg.entriesToAnalyze), s4)
  }

  /**
   * `performOne`: the record header at the stream position sets the entry
   * size. A record of exactly the header size is skipped and the loop goes
   * on; any other runs the subheader loop and then `RecordEnd`. A short read
   * of the header ends the stream and the loop.
   */
  function RecordStep(cfg: Setup, s: Stream): (o: Outcome)
    requires s.pos <= |cfg.hld|
    ensures s.pos <= o.after.pos <= |cfg.hld| && (o.more ==> s.pos < o.after.pos)
    ensures o.after.analyzedEntry == s.analyzedEntry || o.after.analyzedEntry == s.analyzedEntry + 1
    ensures o.more && o.after.analyzedEntry != s.analyzedEntry ==> o.after.analyzedEntry != cfg.entriesToAnalyze
  {
    var hld := cfg.hld;
    var p := s.pos;
    if s.eof || p + HdrSize() > |hld| then Outcome(false, ShortRead(hld, s))
    else
      var hdr := HdrAt(hld, p);
      var s1 := s.(pos := p + HdrSize(), entrySize := hdr.fullSize, initEntrySize := hdr.fullSize);
      if hdr.fullSize == HdrSize() then Outcome(true, s1)
      else
        RecordEnd(cfg, SubLoop(cfg, s1))
  }

  /**
   * What one turn of the record loop does: a short read of the header ends
   * the stream and the loop; a record of exactly the header size is stepped
   * over; any other sets the entry size from its header, counts as analysed,
   * and the end-of-loop test gives the verdict.
   */
  lemma RecordStepCases(cfg: Setup, s: Stream)
    requires s.pos <= |cfg.hld|
    ensures var o := RecordStep(cfg, s);
            (s.eof || s.pos + HdrSize() > |cfg.hld|) ==> o == Outcome(false, ShortRead(cfg.hld, s))
    ensures var o := RecordStep(cfg, s);
            !s.eof && s.pos + HdrSize() <= |cfg.hld| ==>
              var hdr := HdrAt(cfg.hld, s.pos);
              o.after.initEntrySize == hdr.fullSize
              && (hdr.fullSize == HdrSize() ==>
                    o == Outcome(true, s.(pos := s.pos + HdrSize(), entrySize := HdrSize(), initEntrySize := HdrSize())))
              && (hdr.fullSize != HdrSize() ==>
                    o.after.analyzedEntry == s.analyzedEntry + 1
                    && o.more == RecordLoopContinues(cfg.fileSize, o.after.pos, o.after.eof, o.after.analyzedEntry,
                                                     cfg.entriesToAnalyze))
  {
  }

  /** The record loop: `performOne` again and again until it reports the file done. */
  function RecordLoop(cfg: Setup, s: Stream): (r: Stream)
    requires s.pos <= |cfg.hld|
    ensures s.pos <= r.pos <= |cfg.hld|
    decreases |cfg.hld| - s.pos
  {
    var o := RecordStep(cfg, s);
    if o.more then RecordLoop(cfg, o.after) else o.after
  }

  /** Where `exec` starts the record loop: at the start of the stream with no entry analysed, past the 32-byte file header. */
  function Opened(cfg: Setup, s: Stream): (r: Stream)
    ensures r.pos == Min(32, |cfg.hld|) && r.eof == (32 > |cfg.hld|) && r.analyzedEntry == 0
    ensures r.entrySize == s.entrySize && r.initEntrySize == s.initEntrySize && r.events == s.events
  {
    Skipped(cfg.hld, s.(pos := 0, eof := false, analyzedEntry := 0), 32)
  }

  /** One turn of the subheader loop keeps every edge attributed to the channel opened last. */
  lemma SubRecordStepAttributed(cfg: Setup, s: Stream)
    requires s.pos <= |cfg.hld| && Attributed(s.events)
    ensures Attributed(SubRecordStep(cfg, s).after.events)
  {
    SubRecordStepCases(cfg, s);
    if !s.eof && s.pos + SubHdrSize() <= |cfg.hld| {
      var d := SubDataSize(cfg.hld, s.pos, cfg.doReverseHex);
      if s.pos + SubHdrSize() + d <= |cfg.hld| {
        PayloadKeepsAttributed(s.events, PayloadAt(cfg.hld, s.pos, d), d, cfg.tdcOffsets, cfg.cal);
      }
    }
  }

  /** So does the whole subheader loop of a record. */
  lemma {:induction false} SubLoopAttributed(cfg: Setup, s: Stream)
    requires s.pos <= |cfg.hld| && Attributed(s.events)
    ensures Attributed(SubLoop(cfg, s).events)
    decreases |cfg.hld| - s.pos
  {
    SubRecordStepAttributed(cfg, s);
    var o := SubRecordStep(cfg, s);
    if o.more {
      SubLoopAttributed(cfg, o.after);
    }
  }

  /** So does the record loop over a whole file. */
  lemma {:induction false} RecordLoopAttributed(cfg: Setup, s: Stream)
    requires s.pos <= |cfg.hld| && Attributed(s.events)
    ensures Attributed(RecordLoop(cfg, s).events)
    decreases |cfg.hld| - s.pos
  {
    var o := RecordStep(cfg, s);
    assert Attributed(o.after.events) by {
      if !s.eof && s.pos + HdrSize() <= |cfg.hld| && HdrAt(cfg.hld, s.pos).fullSize != HdrSize() {
        var hdr := HdrAt(cfg.hld, s.pos);
        SubLoopAttributed(cfg, s.(pos := s.pos + HdrSize(), entrySize := hdr.fullSize, initEntrySize := hdr.fullSize));
      }
    }
    if o.more {
      RecordLoopAttributed(cfg, o.after);
    }
  }

  /** Started below a positive entry budget, the record loop analyses at most that many entries. */
  lemma {:induction false} RecordLoopBudget(cfg: Setup, s: Stream)
    requires s.pos <= |cfg.hld| && s.analyzedEntry < cfg.entriesToAnalyze
    ensures RecordLoop(cfg, s).analyzedEntry <= cfg.entriesToAnalyze
    decreases |cfg.hld| - s.pos
  {
    var o := RecordStep(cfg, s);
    if o.more {
      RecordLoopBudget(cfg, o.after);
    }
  }

  /** Once the stream is at its end, the record loop reads nothing and changes nothing. */
  lemma RecordLoopAtEof(cfg: Setup, s: Stream)
    requires s.pos <= |cfg.hld| && s.eof
    ensures RecordLoop(cfg, s) == s
  {
  }

  // ---------------------------------------------------------------------------
  // The unpacker
  // ---------------------------------------------------------------------------

  /**
   * The unpacker reading one HLD file through an input stream: `pos` is the
   * stream position and `eof` its end-of-file state; `events` collects what
   * the decoder adds to the output.
   */
  class Unpacker {
    const hld: seq<byte>
    const fileSize: int
    const doReverseHex: bool
    const fullSetup: bool
    const entriesToAnalyze: int
    const tdcOffsets: map<int, int>
    const cal: Calibration

    var pos: nat
    var eof: bool
    var entrySize: nat
    var initEntrySize: nat
    var analyzedEntry: int
    var events: seq<TdcEvent>

    predicate Valid()
      reads this
    {
      pos <= |hld| && entrySize < SizeMod && initEntrySize < SizeMod && 0 <= analyzedEntry
    }

    /** The fixed part of the unpacker. */
    function Config(): Setup
    {
      Setup(hld, fileSize, doReverseHex, fullSetup, entriesToAnalyze, tdcOffsets, cal)
    }

    /** The changing part of the unpacker. */
    function State(): Stream
      reads this
    {
      Stream(pos, eof, entrySize, initEntrySize, analyzedEntry, events)
    }

    constructor(hld: seq<byte>, doReverseHex: bool, fullSetup: bool, entriesToAnalyze: int,
                tdcOffsets: map<int, int>, cal: Calibration)
      ensures this.hld == hld && this.doReverseHex == doReverseHex && this.fullSetup == fullSetup
      ensures this.entriesToAnalyze == entriesToAnalyze && this.tdcOffsets == tdcOffsets && this.cal == cal
      ensures fileSize == |hld|
      ensures pos == 0 && !eof && entrySize == 0 && initEntrySize == 0 && analyzedEntry == 0 && events == []
      ensures Valid()
    {
      this.hld := hld;
      this.fileSize := |hld|;
      this.doReverseHex := doReverseHex;
      this.fullSetup := fullSetup;
      this.entriesToAnalyze := entriesToAnalyze;
      this.tdcOffsets := tdcOffsets;
      this.cal := cal;
      pos := 0;
      eof := false;
      entrySize := 0;
      initEntrySize := 0;
      analyzedEntry := 0;
      events := [];
    }

    /** `read(n)`: the next n bytes; a read past the end takes what is left and sets end-of-file. */
    method Read(n: nat) returns (ok: bool, b: seq<byte>)
      requires pos <= |hld|
      modifies this`pos, this`eof
      ensures ok <==> !old(eof) && old(pos) + n <= |hld|
      ensures ok ==> b == hld[old(pos)..old(pos) + n] && pos == old(pos) + n && eof == old(eof)
      ensures !ok ==> eof && pos == (if old(eof) then old(pos) else |hld|)
    {
      if !eof && pos + n <= |hld| {
        ok := true;
        b := hld[pos..pos + n];
        pos := pos + n;
      } else {
        ok := false;
        b := [];
        if !eof {
          pos := |hld|;
        }
        eof := true;
      }
    }

    /** `ignore(n)`: skip up to n bytes; end-of-file is set only when fewer than n were left. */
    method Ignore(n: nat)
      requires pos <= |hld|
      modifies this`pos, this`eof
      ensures old(eof) ==> pos == old(pos) && eof
      ensures !old(eof) ==> pos == Min(old(pos) + n, |hld|) && eof == (old(pos) + n > |hld|)
    {
      if !eof {
        if pos + n <= |hld| {
          pos := pos + n;
        } else {
          pos := |hld|;
          eof := true;
        }
      }
    }

    /**
     * `performThree`: one TDC sub-payload whose header is word k of the
     * payload. It always moves past `internalSize + 1` words and takes their
     * bytes off the counter, whether or not the address is known.
     */
    method PerformThree(ws: seq<nat>, k: nat, dataSize: nat, initialDataSize: nat)
      returns (more: bool, next: nat, rest: nat)
      modifies this`events
      ensures more <==> dataSize <= initialDataSize && k < |ws|
      ensures !more ==> events == old(events) && next == k && rest == dataSize
      ensures more ==> next == k + InternalSize(ws[k]) + 1
                       && rest == Wrap(dataSize - BlockBytes(ws, k))
                       && events == old(events) + BlockEvents(ws, k, tdcOffsets, cal)
    {
      if dataSize > initialDataSize || k >= |ws| {
        return false, k, dataSize;
      }
      var h := ws[k];
      var internalSize := InternalSize(h);
      var address := TdcAddress(h);
      if address in tdcOffsets {
        var offset := tdcOffsets[address];
        var acc := DecodeBlock(BlockWords(ws, k), cal, offset);
        assert acc == BlockEvents(ws, k, tdcOffsets, cal);
        events := events + acc;
      } else {
        assert BlockEvents(ws, k, tdcOffsets, cal) == [];
        assert events == old(events) + [];
      }
      more := true;
      next := k + internalSize + 1;
      rest := Wrap(dataSize - BlockBytes(ws, k));
    }

    /**
     * The payload of one subheader: unless its first word is zero, the
     * sub-payload loop runs until the byte counter reaches zero or a
     * sub-payload reports a wrapped counter.
     */
    method DecodePayload(ws: seq<word>, dataSize: nat)
      modifies this`events
      ensures events == old(events) + PayloadEvents(ws, dataSize, tdcOffsets, cal)
    {
      if |ws| > 0 && ws[0] != 0 {
        SubPayloadLoop(SwappedValues(ws), dataSize);
      } else {
        assert events == old(events) + [];
      }
    }

    /**
     * The sub-payload loop of `performTwo` over the byte-swapped payload
     * words: it runs until the byte counter reaches zero or a sub-payload
     * reports a wrapped counter.
     */
    method SubPayloadLoop(vs: seq<nat>, dataSize: nat)
      modifies this`events
      ensures events == old(events) + TdcBlocks(vs, 0, dataSize, dataSize, tdcOffsets, cal)
    {
      var k: nat := 0;
      var rest: nat := dataSize;
      var go := true;
      while rest > 0 && go
        invariant events + TdcBlocks(vs, k, rest, dataSize, tdcOffsets, cal)
                  == old(events) + TdcBlocks(vs, 0, dataSize, dataSize, tdcOffsets, cal)
        invariant !go ==> TdcBlocks(vs, k, rest, dataSize, tdcOffsets, cal) == []
        decreases if k < |vs| then |vs| - k else 0, if go then 1 else 0
      {
        ghost var before := events;
        ghost var k0 := k;
        ghost var r0 := rest;
        go, k, rest := PerformThree(vs, k, rest, dataSize);
        if go {
          TdcBlocksAfterBlock(vs, k0, r0, dataSize, tdcOffsets, cal, before);
        }
      }
      assert events + [] == events;
    }


    /**
     * `performTwo`: one subheader and its payload. The payload goes through
     * the sub-payload loop unless its first word is zero, the padding after
     * it is skipped and its size comes off the entry size.
     */
    method PerformTwo() returns (more: bool)
      requires Valid()
      modifies this`pos, this`eof, this`entrySize, this`events
      ensures Valid() && Outcome(more, State()) == SubRecordStep(Config(), old(State()))
    {
      ghost var p := pos;
      ghost var s0 := State();
      var ok, dataSize, padding := ReadSubHdr();
      if !ok {
        assert State() == ShortRead(hld, s0);
        return false;
      }
      var ok2 := ReadPayload(p, dataSize);
      if !ok2 {
        assert State() == s0.(pos := |hld|, eof := true);
        return false;
      }
      ghost var s1 := State();
      assert s1 == s0.(pos := p + SubHdrSize() + dataSize,
                       events := s0.events + PayloadEvents(PayloadAt(hld, p, dataSize), dataSize, tdcOffsets, cal));
      Ignore(padding);
      ghost var s2 := State();
      assert s2 == Skipped(hld, s1, padding);
      more := ReduceEntrySize(dataSize, padding);
      ghost var v := SubRecordSizes(s0.entrySize, s0.initEntrySize, dataSize, padding, fullSetup);
      assert Outcome(more, State()) == Outcome(v.more, s2.(entrySize := v.entrySize));
    }

    /** The first read of `performTwo`: the subheader, with the data size and padding it announces. */
    method ReadSubHdr() returns (ok: bool, dataSize: nat, padding: nat)
      requires pos <= |hld|
      modifies this`pos, this`eof
      ensures ok <==> !old(eof) && old(pos) + SubHdrSize() <= |hld|
      ensures ok ==> pos == old(pos) + SubHdrSize() && eof == old(eof)
                     && dataSize == SubDataSize(hld, old(pos), doReverseHex)
                     && padding == SubPadding(hld, old(pos), doReverseHex)
      ensures !ok ==> eof && pos == (if old(eof) then old(pos) else |hld|)
    {
      var hb;
      ok, hb := Read(SubHdrSize());
      if !ok {
        return false, 0, 0;
      }
      var sub := ParseSubHdr(hb);
      dataSize := GetDataSize(sub, doReverseHex);
      padding := Wrap(GetPaddedDataSize(sub, doReverseHex) - dataSize);
    }

    /** The second read of `performTwo`: the payload of the subheader at byte p, decoded unless its first word is zero. */
    method ReadPayload(ghost p: nat, dataSize: nat) returns (ok: bool)
      requires pos == p + SubHdrSize() && pos <= |hld|
      modifies this`pos, this`eof, this`events
      ensures ok <==> !old(eof) && old(pos) + dataSize <= |hld|
      ensures ok ==> pos == old(pos) + dataSize && eof == old(eof)
                     && events == old(events) + PayloadEvents(PayloadAt(hld, p, dataSize), dataSize, tdcOffsets, cal)
      ensures !ok ==> eof && pos == (if old(eof) then old(pos) else |hld|) && events == old(events)
    {
      var payload;
      ok, payload := Read(dataSize);
      if !ok {
        return false;
      }
      var ws := Words(payload);
      assert ws == PayloadAt(hld, p, dataSize);
      DecodePayload(ws, dataSize);
    }

    /** The tail of `performTwo`: the data size and then the padding come off the entry size, with the checks between. */
    method ReduceEntrySize(dataSize: nat, padding: nat) returns (more: bool)
      modifies this`entrySize
      ensures EntryVerdict(more, entrySize) == SubRecordSizes(old(entrySize), initEntrySize, dataSize, padding, fullSetup)
    {
      entrySize := Wrap(entrySize - dataSize);
      if entrySize > initEntrySize {
        return false;
      }
      if entrySize <= 48 && !fullSetup {
        return false;
      }
      entrySize := Wrap(entrySize - padding);
      if entrySize <= 64 && fullSetup {
        return false;
      }
      if entrySize <= 176 && fullSetup {
        return false;
      }
      return true;
    }

    /** The subheader loop of `performOne`: `performTwo` until it reports the record done. */
    method SubheaderLoop()
      requires Valid()
      modifies this`pos, this`eof, this`entrySize, this`events
      ensures Valid() && State() == SubLoop(Config(), old(State()))
    {
      ghost var target := SubLoop(Config(), State());
      var doSecondLoop := true;
      while doSecondLoop
        invariant Valid()
        invariant doSecondLoop ==> SubLoop(Config(), State()) == target
        invariant !doSecondLoop ==> State() == target
        decreases |hld| - pos, if doSecondLoop then 1 else 0
      {
        doSecondLoop := PerformTwo();
      }
    }

    /**
     * `performOne`: one record. A record of exactly the header size is
     * skipped; any other goes through the subheader loop, counts as analysed
     * and, outside the full setup, has its padding skipped.
     */
    method PerformOne() returns (more: bool)
      requires Valid()
      modifies this`pos, this`eof, this`entrySize, this`initEntrySize, this`analyzedEntry, this`events
      ensures Valid() && Outcome(more, State()) == RecordStep(Config(), old(State()))
    {
      ghost var s0 := State();
      var ok, hb := Read(HdrSize());
      if !ok {
        assert State() == ShortRead(hld, s0);
        return false;
      }
      var hdr := ParseHdr(hb);
      assert hdr == HdrAt(hld, s0.pos);
      entrySize := hdr.fullSize;
      initEntrySize := entrySize;
      ghost var s1 := State();
      assert s1 == s0.(pos := s0.pos + HdrSize(), entrySize := hdr.fullSize, initEntrySize := hdr.fullSize);
      if entrySize == 32 {
        return true;
      }
      SubheaderLoop();
      more := FinishRecord();
    }

    /** The end of `performOne`: count the record, skip its padding outside the full setup, and test for the end of the loop. */
    method FinishRecord() returns (more: bool)
      requires Valid()
      modifies this`pos, this`eof, this`analyzedEntry
      ensures Valid() && Outcome(more, State()) == RecordEnd(Config(), old(State()))
    {
      analyzedEntry := analyzedEntry + 1;
      if !fullSetup {
        ghost var s3 := State();
        Ignore(Wrap(Align8(entrySize) - entrySize));
        assert State() == Skipped(hld, s3, Wrap(Align8(s3.entrySize) - s3.entrySize));
      }
      more := RecordLoopContinues(fileSize, pos, eof, analyzedEntry, entriesToAnalyze);
    }

    /**
     * `exec` on an HLD input: open the stream at its start, skip the 32-byte
     * file header and decode records until the record loop stops. Any other
     * input type is refused and nothing changes.
     */
    method Exec(isHld: bool) returns (r: bool)
      requires Valid()
      modifies this`pos, this`eof, this`entrySize, this`initEntrySize, this`analyzedEntry, this`events
      ensures r == isHld
      ensures isHld ==> State() == RecordLoop(Config(), Opened(Config(), old(State())))
      ensures !isHld ==> pos == old(pos) && eof == old(eof) && analyzedEntry == old(analyzedEntry)
                         && events == old(events) && entrySize == old(entrySize) && initEntrySize == old(initEntrySize)
      ensures Valid() && (Attributed(old(events)) ==> Attributed(events))
      ensures isHld ==> (32 <= |hld| ==> 32 <= pos) && (entriesToAnalyze >= 1 ==> analyzedEntry <= entriesToAnalyze)
    {
      if !isHld {
        return false;
      }
      pos := 0;
      eof := false;
      analyzedEntry := 0;
      Ignore(32);
      ghost var start := State();
      assert start == Opened(Config(), old(State()));
      ghost var target := RecordLoop(Config(), start);
      var doFirstLoop := true;
      while doFirstLoop
        invariant Valid()
        invariant doFirstLoop ==> RecordLoop(Config(), State()) == target
        invariant !doFirstLoop ==> State() == target
        decreases |hld| - pos, if doFirstLoop then 1 else 0
      {
        doFirstLoop := PerformOne();
      }
      if Attributed(start.events) {
        RecordLoopAttributed(Config(), start);
      }
      if entriesToAnalyze >= 1 {
        RecordLoopBudget(Config(), start);
      }
      return true;
    }
  }
}
