/**
 * The Geant4 Monte-Carlo parser task (JPetGeantParser): each simulated event
 * pack with exactly two hits contributes its two MC hits and those of its
 * reconstructed hits that pass the acceptance test; the buffers are flushed
 * to the output collections after every event in single-event mode, and
 * otherwise once the activity counter exceeds the expected number of events
 * per time window.
 *
 * The hit conversions of JPetGeantParserTools (making an MC hit, smearing it
 * into a reconstructed hit, the acceptance test and the bookkeeping of which
 * gammas were reconstructed) are not part of this model: they enter as
 * function fields of `Tools`, and the random time shift of an event is a parameter.
 */
module GeantParser {

  /** A hit as Geant4 records it. */
  datatype GeantHit = GeantHit(scinID: int, energy: real, time: real, posX: real, posY: real, posZ: real)

  /** A simulated (MC) hit and a reconstructed hit of the framework. */
  datatype MCHit = MCHit(scinID: int, energy: real, time: real, posX: real, posY: real, posZ: real)
  datatype RecHit = RecHit(scinID: int, energy: real, time: real, posX: real, posY: real, posZ: real)

  /** An event pack: the hits of one simulated decay. */
  datatype EventPack = EventPack(hits: seq<GeantHit>)

  /** The event the framework hands to the parser: an event pack, or an object of any other type. */
  datatype Entry = PackEntry(pack: EventPack) | OtherEntry

  /** Which prompt, 2-gamma and 3-gamma hits of an event have been reconstructed. */
  datatype Tally = Tally(prompt: bool, saved2g: (bool, bool), saved3g: (bool, bool, bool))

  const NoneSaved: Tally := Tally(false, (false, false), (false, false, false))

  /** Whether both gammas of a 2-gamma annihilation were reconstructed. */
  predicate IsRec2g(t: Tally)
  {
    t.saved2g.0 && t.saved2g.1
  }

  /** Whether all three gammas of a 3-gamma annihilation were reconstructed. */
  predicate IsRec3g(t: Tally)
  {
    t.saved3g.0 && t.saved3g.1 && t.saved3g.2
  }

  /**
   * The helpers of JPetGeantParserTools: MC hit creation, reconstruction from an
   * MC hit, an event time shift and a Z resolution, the acceptance test at a
   * threshold, and the update of the tally by a reconstructed hit.
   */
  datatype Tools = Tools(createMCHit: GeantHit -> MCHit,
                         reconstructHit: (MCHit, real, real) -> RecHit,
                         isHitReconstructed: (RecHit, real) -> bool,
                         identifyRecoHits: (GeantHit, RecHit, Tally) -> Tally)

  /** The Z resolution of a scintillator; an absent scintillator reads as 0, as a default-inserted map entry does. */
  function ZPosRes(zPosRes: map<int, real>, id: int): real
  {
    if id in zPosRes then zPosRes[id] else 0.0
  }

  /** The reconstructed hit of the `i`-th hit of a two-hit event. */
  function RecOf(pack: EventPack, i: nat, tools: Tools, timeShift: real, zPosRes: map<int, real>): RecHit
    requires i < |pack.hits|
  {
    var mc := tools.createMCHit(pack.hits[i]);
    tools.reconstructHit(mc, timeShift, ZPosRes(zPosRes, mc.scinID))
  }

  /** The MC hits an event adds to the buffer: both hits of a two-hit event, otherwise none. */
  function EventMCHits(pack: EventPack, tools: Tools): seq<MCHit>
  {
    if |pack.hits| == 2 then [tools.createMCHit(pack.hits[0]), tools.createMCHit(pack.hits[1])] else []
  }

  /** The reconstructed hits an event adds: those of a two-hit event that pass the acceptance test, in hit order. */
  function EventRecHits(pack: EventPack, tools: Tools, timeShift: real, zPosRes: map<int, real>, threshold: real)
    : seq<RecHit>
  {
    if |pack.hits| == 2 then
      var r1 := RecOf(pack, 0, tools, timeShift, zPosRes);
      var r2 := RecOf(pack, 1, tools, timeShift, zPosRes);
      (if tools.isHitReconstructed(r1, threshold) then [r1] else []) +
      (if tools.isHitReconstructed(r2, threshold) then [r2] else [])
    else []
  }

  /** The tally of an event: updated by each accepted reconstructed hit of a two-hit event. */
  function EventTally(pack: EventPack, tools: Tools, timeShift: real, zPosRes: map<int, real>, threshold: real)
    : Tally
  {
    if |pack.hits| == 2 then
      var r1 := RecOf(pack, 0, tools, timeShift, zPosRes);
      var r2 := RecOf(pack, 1, tools, timeShift, zPosRes);
      var t1 := if tools.isHitReconstructed(r1, threshold) then tools.identifyRecoHits(pack.hits[0], r1, NoneSaved)
                else NoneSaved;
      if tools.isHitReconstructed(r2, threshold) then tools.identifyRecoHits(pack.hits[1], r2, t1) else t1
    else NoneSaved
  }

  /** Only two-hit events add anything, and a two-hit event always adds both of its MC hits. */
  lemma OnlyTwoHitEvents(pack: EventPack, tools: Tools, timeShift: real, zPosRes: map<int, real>, threshold: real)
    ensures |pack.hits| != 2 ==>
      EventMCHits(pack, tools) == [] && EventRecHits(pack, tools, timeShift, zPosRes, threshold) == [] &&
      !IsRec2g(EventTally(pack, tools, timeShift, zPosRes, threshold)) &&
      !IsRec3g(EventTally(pack, tools, timeShift, zPosRes, threshold))
    ensures |pack.hits| == 2 ==> |EventMCHits(pack, tools)| == 2
  {
  }

  /** Every reconstructed hit an event adds passes the acceptance test, and there are never more of them than MC hits. */
  lemma EventRecHitsAccepted(pack: EventPack, tools: Tools, timeShift: real, zPosRes: map<int, real>, threshold: real)
    ensures var rs := EventRecHits(pack, tools, timeShift, zPosRes, threshold);
      |rs| <= |EventMCHits(pack, tools)| &&
      forall i :: 0 <= i < |rs| ==> tools.isHitReconstructed(rs[i], threshold)
  {
  }

  /** Each hit of a two-hit event adds its reconstructed hit iff that passes the test, the first hit's before the second's. */
  lemma EventRecHitsExact(pack: EventPack, tools: Tools, timeShift: real, zPosRes: map<int, real>, threshold: real)
    requires |pack.hits| == 2
    ensures var r1 := RecOf(pack, 0, tools, timeShift, zPosRes);
      var r2 := RecOf(pack, 1, tools, timeShift, zPosRes);
      var a1 := tools.isHitReconstructed(r1, threshold);
      var a2 := tools.isHitReconstructed(r2, threshold);
      var rs := EventRecHits(pack, tools, timeShift, zPosRes, threshold);
      |rs| == (if a1 then 1 else 0) + (if a2 then 1 else 0) &&
      (a1 ==> rs[0] == r1) && (a2 ==> rs[|rs| - 1] == r2)
  {
  }

  /**
   * The activity counter flushes at the first index above the expected number
   * of events per window: index `i` flushes iff `i` exceeds its whole part, so
   * a window collects `floor(limit) + 2` events.
   */
  lemma ActivityFlushIff(i: nat, limit: real)
    requires limit >= 0.0
    ensures (i as real > limit) <==> i > limit.Floor
  {
  }

  /** The buffered hits: every reconstructed one accepted, never more than MC hits, MC hits in pairs. */
  predicate Buffered(rec: seq<RecHit>, mc: seq<MCHit>, tools: Tools, threshold: real)
  {
    |rec| <= |mc| && |mc| % 2 == 0 &&
    forall i :: 0 <= i < |rec| ==> tools.isHitReconstructed(rec[i], threshold)
  }

  lemma BufferedAppend(rec: seq<RecHit>, mc: seq<MCHit>, rec2: seq<RecHit>, mc2: seq<MCHit>,
                       tools: Tools, threshold: real)
    requires Buffered(rec, mc, tools, threshold) && Buffered(rec2, mc2, tools, threshold)
    ensures Buffered(rec + rec2, mc + mc2, tools, threshold)
  {
    forall i | 0 <= i < |rec + rec2|
      ensures tools.isHitReconstructed((rec + rec2)[i], threshold)
    {
      if i >= |rec| {
        assert (rec + rec2)[i] == rec2[i - |rec|];
      }
    }
  }

  lemma EventBuffered(pack: EventPack, tools: Tools, timeShift: real, zPosRes: map<int, real>, threshold: real)
    ensures Buffered(EventRecHits(pack, tools, timeShift, zPosRes, threshold), EventMCHits(pack, tools), tools, threshold)
  {
    EventRecHitsAccepted(pack, tools, timeShift, zPosRes, threshold);
  }

  class GeantParser {
    /** Options read at initialisation. */
    const processSingleEventInWindow: bool
    const minTime: real
    const simulatedActivity: real
    const experimentalThreshold: real
    /** The Z resolution per scintillator. */
    const zPosRes: map<int, real>
    const tools: Tools

    var activityIndex: nat
    var storedHits: seq<RecHit>
    var storedMCHits: seq<MCHit>

    /** The output collections: reconstructed hits and MC hits, in the order they were added. */
    var hitsOut: seq<RecHit>
    var mcHitsOut: seq<MCHit>

    predicate Valid()
      reads this
    {
      Buffered(storedHits, storedMCHits, tools, experimentalThreshold) &&
      Buffered(hitsOut, mcHitsOut, tools, experimentalThreshold)
    }

    /** The expected number of events per time window: |minTime * activity * 10^-6|. */
    function ActivityLimit(): (l: real)
      ensures l >= 0.0
    {
      var x := minTime * simulatedActivity / 1000000.0;
      if x < 0.0 then -x else x
    }

    /** Whether handling an event pack flushes, given the activity counter before it. */
    predicate Flushes(index: nat)
    {
      processSingleEventInWindow || index as real > ActivityLimit()
    }

    constructor(processSingleEventInWindow: bool, minTime: real, simulatedActivity: real,
                experimentalThreshold: real, zPosRes: map<int, real>, tools: Tools)
      ensures Valid()
      ensures this.processSingleEventInWindow == processSingleEventInWindow && this.minTime == minTime
      ensures this.simulatedActivity == simulatedActivity && this.experimentalThreshold == experimentalThreshold
      ensures this.zPosRes == zPosRes && this.tools == tools
      ensures activityIndex == 0 && storedHits == [] && storedMCHits == [] && hitsOut == [] && mcHitsOut == []
    {
      this.processSingleEventInWindow := processSingleEventInWindow;
      this.minTime := minTime;
      this.simulatedActivity := simulatedActivity;
      this.experimentalThreshold := experimentalThreshold;
      this.zPosRes := zPosRes;
      this.tools := tools;
      activityIndex := 0;
      storedHits := [];
      storedMCHits := [];
      hitsOut := [];
      mcHitsOut := [];
    }

    /**
     * Handles one event. An event pack is stored and the flush policy applied,
     * and the parser reports success; anything else is refused and changes nothing.
     */
    method Exec(entry: Entry, timeShift: real) returns (ok: bool)
      requires Valid()
      modifies this
      ensures Valid()
      ensures ok <==> entry.PackEntry?
      ensures entry.OtherEntry? ==> unchanged(this)
      ensures entry.PackEntry? ==>
        var rec := old(storedHits) + EventRecHits(entry.pack, tools, timeShift, zPosRes, experimentalThreshold);
        var mc := old(storedMCHits) + EventMCHits(entry.pack, tools);
        if Flushes(old(activityIndex)) then
          storedHits == [] && storedMCHits == [] &&
          hitsOut == old(hitsOut) + rec && mcHitsOut == old(mcHitsOut) + mc
        else
          storedHits == rec && storedMCHits == mc && hitsOut == old(hitsOut) && mcHitsOut == old(mcHitsOut)
      ensures entry.PackEntry? ==>
        activityIndex == if processSingleEventInWindow then old(activityIndex)
                         else if Flushes(old(activityIndex)) then 0
                         else old(activityIndex) + 1
    {
      if entry.PackEntry? {
        var _, _ := ProcessMCEvent(entry.pack, timeShift);
        if processSingleEventInWindow {
          SaveHits();
        } else {
          if activityIndex as real > ActivityLimit() {
            SaveHits();
            activityIndex := 0;
          } else {
            activityIndex := activityIndex + 1;
          }
        }
        ok := true;
      } else {
        ok := false;
      }
    }

    /**
     * Buffers an event: both MC hits of a two-hit event, and each of its
     * reconstructed hits that passes the acceptance test. The results say
     * whether both 2-gamma and all three 3-gamma hits of the event were reconstructed.
     */
    method ProcessMCEvent(pack: EventPack, timeShift: real) returns (isRec2g: bool, isRec3g: bool)
      requires Valid()
      modifies this`storedHits, this`storedMCHits
      ensures Valid()
      ensures storedMCHits == old(storedMCHits) + EventMCHits(pack, tools)
      ensures storedHits == old(storedHits) + EventRecHits(pack, tools, timeShift, zPosRes, experimentalThreshold)
      ensures isRec2g == IsRec2g(EventTally(pack, tools, timeShift, zPosRes, experimentalThreshold))
      ensures isRec3g == IsRec3g(EventTally(pack, tools, timeShift, zPosRes, experimentalThreshold))
    {
      var tally := NoneSaved;
      EventBuffered(pack, tools, timeShift, zPosRes, experimentalThreshold);
      BufferedAppend(storedHits, storedMCHits,
                     EventRecHits(pack, tools, timeShift, zPosRes, experimentalThreshold), EventMCHits(pack, tools),
                     tools, experimentalThreshold);
      if |pack.hits| == 2 {
        var mcHit1 := tools.createMCHit(pack.hits[0]);
        var mcHit2 := tools.createMCHit(pack.hits[1]);
        storedMCHits := storedMCHits + [mcHit1];
        storedMCHits := storedMCHits + [mcHit2];
        var recHit1 := tools.reconstructHit(mcHit1, timeShift, ZPosRes(zPosRes, mcHit1.scinID));
        var recHit2 := tools.reconstructHit(mcHit2, timeShift, ZPosRes(zPosRes, mcHit2.scinID));
        if tools.isHitReconstructed(recHit1, experimentalThreshold) {
          storedHits := storedHits + [recHit1];
          tally := tools.identifyRecoHits(pack.hits[0], recHit1, tally);
        }
        if tools.isHitReconstructed(recHit2, experimentalThreshold) {
          storedHits := storedHits + [recHit2];
          tally := tools.identifyRecoHits(pack.hits[1], recHit2, tally);
        }
      }
      isRec2g := tally.saved2g.0 && tally.saved2g.1;
      isRec3g := tally.saved3g.0 && tally.saved3g.1 && tally.saved3g.2;
    }

    /**
     * Appends every buffered reconstructed hit, then every buffered MC hit, to
     * the output collections in buffer order, and empties both buffers.
     */
    method SaveHits()
      requires Valid()
      modifies this`storedHits, this`storedMCHits, this`hitsOut, this`mcHitsOut
      ensures Valid()
      ensures hitsOut == old(hitsOut) + old(storedHits) && mcHitsOut == old(mcHitsOut) + old(storedMCHits)
      ensures storedHits == [] && storedMCHits == []
    {
      BufferedAppend(hitsOut, mcHitsOut, storedHits, storedMCHits, tools, experimentalThreshold);
      var i := 0;
      while i < |storedHits|
        invariant 0 <= i <= |storedHits|
        invariant hitsOut == old(hitsOut) + storedHits[..i]
        invariant unchanged(`storedHits) && unchanged(`storedMCHits) && unchanged(`mcHitsOut)
      {
        hitsOut := hitsOut + [storedHits[i]];
        i := i + 1;
      }
      assert storedHits[..i] == storedHits;
      var j := 0;
      while j < |storedMCHits|
        invariant 0 <= j <= |storedMCHits|
        invariant mcHitsOut == old(mcHitsOut) + storedMCHits[..j]
        invariant unchanged(`storedHits) && unchanged(`storedMCHits) && hitsOut == old(hitsOut) + old(storedHits)
      {
        mcHitsOut := mcHitsOut + [storedMCHits[j]];
        j := j + 1;
      }
      assert storedMCHits[..j] == storedMCHits;
      storedMCHits := [];
      storedHits := [];
    }

    /** End of processing: nothing is flushed. */
    method Terminate() returns (ok: bool)
      ensures ok
    {
      ok := true;
    }
  }
}
