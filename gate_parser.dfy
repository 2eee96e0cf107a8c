/**
 * The GATE Monte-Carlo parser task (JPetGateParser): every simulated
 * interaction is converted to picoseconds, keV and cm, assigned to an
 * electronics clock window, reconstructed, and buffered when it passes the
 * energy gate. The buffered raw and reconstructed hits are flushed to the
 * output collections when an interaction lands past the current window.
 */
module GateParser {
  import opened GateTools

  /** One GATE interaction: time in s, global position in mm, energy in MeV, and its module/strip. */
  datatype GateData = GateData(time: real, globalPosX: real, globalPosY: real, globalPosZ: real,
                               energy: real, rSectorID: int, crystalID: int)

  /** The event the framework hands to the parser: a GATE entry, or an object of any other type. */
  datatype Entry = GateEntry(data: GateData) | OtherEntry

  /** The defaults of the clock window length (ps) and of the energy threshold (keV). */
  const DefaultClockWindowTime: real := 20000000.0
  const DefaultThreshold: real := 10.0

  /** The interaction time in picoseconds. */
  function TimePs(d: GateData): real
  {
    d.time * 1000000000000.0
  }

  /** The simulated hit an interaction records, given its time within the clock window. */
  function RawHitOf(d: GateData, timeInWindow: real, scinOf: int -> Scin): (h: RawMCHit)
    ensures h.scin == scinOf(MapScintillator(d.rSectorID, d.crystalID))
    ensures h.time == timeInWindow
    ensures h.energy == d.energy * 1000.0
    ensures h.posX * 10.0 == d.globalPosX && h.posY * 10.0 == d.globalPosY && h.posZ * 10.0 == d.globalPosZ
  {
    RawMCHit(scinOf(MapScintillator(d.rSectorID, d.crystalID)), timeInWindow,
             d.energy * 1000.0, d.globalPosX / 10.0, d.globalPosY / 10.0, d.globalPosZ / 10.0)
  }

  /**
   * Raw and reconstructed hits side by side: equally many, each reconstructed
   * hit made from the raw hit at the same position, and each one accepted by the gate.
   */
  predicate Paired(mc: seq<RawMCHit>, reco: seq<RecoHit>, p: Parametrizer, threshold: real)
  {
    |mc| == |reco| &&
    forall i :: 0 <= i < |reco| ==>
      reco[i] == ReconstructHit(mc[i], p) && IsHitReconstructed(reco[i], threshold)
  }

  lemma PairedAppend(mc: seq<RawMCHit>, reco: seq<RecoHit>, mc2: seq<RawMCHit>, reco2: seq<RecoHit>,
                     p: Parametrizer, threshold: real)
    requires Paired(mc, reco, p, threshold) && Paired(mc2, reco2, p, threshold)
    ensures Paired(mc + mc2, reco + reco2, p, threshold)
  {
    forall i | 0 <= i < |reco + reco2|
      ensures (reco + reco2)[i] == ReconstructHit((mc + mc2)[i], p)
      ensures IsHitReconstructed((reco + reco2)[i], threshold)
    {
      if i >= |reco| {
        assert (reco + reco2)[i] == reco2[i - |reco|];
      }
    }
  }

  /** Whether the buffered hits are flushed before an interaction at time `t` is handled. */
  predicate FlushBefore(stored: seq<RawMCHit>, t: real, n: nat, w: real)
  {
    !InWindow(t, n, w) && |stored| != 0
  }

  /** For non-negative times: a flush happens iff something is buffered and the time lies in a later window. */
  lemma FlushIff(stored: seq<RawMCHit>, t: real, n: nat, w: real)
    requires w > 0.0 && t >= 0.0
    ensures FlushBefore(stored, t, n, w) <==> |stored| != 0 && WindowIndex(t, w) > n
  {
    InWindowIff(t, n, w);
  }

  /** An interaction earlier than the start of the current window never causes a flush. */
  lemma EarlierNeverFlushes(stored: seq<RawMCHit>, t: real, n: nat, w: real)
    requires w > 0.0 && t < (n as real) * w
    ensures !FlushBefore(stored, t, n, w)
  {
    EarlierInWindow(t, n, w);
  }

  class GateParser {
    /** Options read at initialisation: clock window length (ps) and energy threshold (keV). */
    const clockWindowTime: real
    const experimentalThreshold: real
    /** The smearing parametrizer and the parameter bank's scintillator lookup. */
    const parametrizer: Parametrizer
    const scinOf: int -> Scin

    var windowNumber: nat
    var timePs: real
    var timeInClockWindow: real
    var energyKeV: real
    var globalPosXCm: real
    var globalPosYCm: real
    var globalPosZCm: real

    /** The hits of the open window, raw and reconstructed. */
    var storedMC: seq<RawMCHit>
    var storedReco: seq<RecoHit>

    /** The output collections: simulated hits and reconstructed hits, in the order they were added. */
    var mcOut: seq<RawMCHit>
    var recoOut: seq<RecoHit>

    predicate Valid()
      reads this
    {
      clockWindowTime > 0.0 &&
      Paired(storedMC, storedReco, parametrizer, experimentalThreshold) &&
      Paired(mcOut, recoOut, parametrizer, experimentalThreshold)
    }

    constructor(clockWindowTime: real, experimentalThreshold: real, parametrizer: Parametrizer,
                scinOf: int -> Scin)
      requires clockWindowTime > 0.0
      ensures Valid()
      ensures this.clockWindowTime == clockWindowTime && this.experimentalThreshold == experimentalThreshold
      ensures this.parametrizer == parametrizer && this.scinOf == scinOf
      ensures windowNumber == 0 && timePs == 0.0 && timeInClockWindow == 0.0
      ensures energyKeV == 0.0 && globalPosXCm == 0.0 && globalPosYCm == 0.0 && globalPosZCm == 0.0
      ensures storedMC == [] && storedReco == [] && mcOut == [] && recoOut == []
    {
      this.clockWindowTime := clockWindowTime;
      this.experimentalThreshold := experimentalThreshold;
      this.parametrizer := parametrizer;
      this.scinOf := scinOf;
      windowNumber := 0;
      timePs := 0.0;
      timeInClockWindow := 0.0;
      energyKeV := 0.0;
      globalPosXCm := 0.0;
      globalPosYCm := 0.0;
      globalPosZCm := 0.0;
      storedMC := [];
      storedReco := [];
      mcOut := [];
      recoOut := [];
    }

    /**
     * Handles one event. Anything but a GATE entry leaves the parser untouched;
     * the parser always reports success.
     */
    method Exec(entry: Entry) returns (ok: bool)
      requires Valid()
      modifies this
      ensures Valid() && ok
      ensures entry.OtherEntry? ==> unchanged(this)
      ensures entry.GateEntry? ==>
        var t := TimePs(entry.data);
        var flush := FlushBefore(old(storedMC), t, old(windowNumber), clockWindowTime);
        timePs == t && windowNumber == WindowIndex(t, clockWindowTime) &&
        mcOut == old(mcOut) + (if flush then old(storedMC) else []) &&
        recoOut == old(recoOut) + (if flush then old(storedReco) else [])
      ensures entry.GateEntry? ==>
        var t := TimePs(entry.data);
        var flush := FlushBefore(old(storedMC), t, old(windowNumber), clockWindowTime);
        var raw := RawHitOf(entry.data, timeInClockWindow, scinOf);
        var reco := ReconstructHit(raw, parametrizer);
        var keep := IsHitReconstructed(reco, experimentalThreshold);
        storedMC == (if flush then [] else old(storedMC)) + (if keep then [raw] else []) &&
        storedReco == (if flush then [] else old(storedReco)) + (if keep then [reco] else [])
      ensures entry.GateEntry? ==>
        timeInClockWindow == timePs - (windowNumber as real) * clockWindowTime &&
        energyKeV == entry.data.energy * 1000.0 && globalPosXCm == entry.data.globalPosX / 10.0 &&
        globalPosYCm == entry.data.globalPosY / 10.0 && globalPosZCm == entry.data.globalPosZ / 10.0
    {
      if entry.GateEntry? {
        var d := entry.data;
        timePs := TimePs(d);
        FlushIfOutside();
        windowNumber := WindowIndex(timePs, clockWindowTime);
        InOwnWindow(timePs, clockWindowTime);
        if InWindow(timePs, windowNumber, clockWindowTime) {
          Store(d);
        } else {
          assert false;
        }
      }
      ok := true;
    }

    /** The flush at the head of `Exec`, against the window number of the previous interaction. */
    method FlushIfOutside()
      requires Valid()
      modifies this`storedMC, this`storedReco, this`mcOut, this`recoOut
      ensures Valid()
      ensures var flush := FlushBefore(old(storedMC), timePs, windowNumber, clockWindowTime);
        mcOut == old(mcOut) + (if flush then old(storedMC) else []) &&
        recoOut == old(recoOut) + (if flush then old(storedReco) else []) &&
        storedMC == (if flush then [] else old(storedMC)) &&
        storedReco == (if flush then [] else old(storedReco))
    {
      if !InWindow(timePs, windowNumber, clockWindowTime) && |storedMC| != 0 {
        SaveHits();
        storedMC := [];
        storedReco := [];
      }
    }

    /** Unit conversion, reconstruction and the energy gate for an interaction inside the current window. */
    method Store(d: GateData)
      requires Valid()
      modifies this`timeInClockWindow, this`energyKeV, this`globalPosXCm, this`globalPosYCm,
        this`globalPosZCm, this`storedMC, this`storedReco
      ensures Valid()
      ensures timeInClockWindow == timePs - (windowNumber as real) * clockWindowTime
      ensures energyKeV == d.energy * 1000.0 && globalPosXCm == d.globalPosX / 10.0
      ensures globalPosYCm == d.globalPosY / 10.0 && globalPosZCm == d.globalPosZ / 10.0
      ensures var raw := RawHitOf(d, timeInClockWindow, scinOf);
        var reco := ReconstructHit(raw, parametrizer);
        var keep := IsHitReconstructed(reco, experimentalThreshold);
        storedMC == old(storedMC) + (if keep then [raw] else []) &&
        storedReco == old(storedReco) + (if keep then [reco] else [])
    {
      timeInClockWindow := timePs - (windowNumber as real) * clockWindowTime;
      globalPosXCm := d.globalPosX / 10.0;
      globalPosYCm := d.globalPosY / 10.0;
      globalPosZCm := d.globalPosZ / 10.0;
      energyKeV := d.energy * 1000.0;
      var raw := RawMCHit(scinOf(MapScintillator(d.rSectorID, d.crystalID)), timeInClockWindow,
                          energyKeV, globalPosXCm, globalPosYCm, globalPosZCm);
      var reco := ReconstructHit(raw, parametrizer);
      if IsHitReconstructed(reco, experimentalThreshold) {
        PairedAppend(storedMC, storedReco, [raw], [reco], parametrizer, experimentalThreshold);
        storedMC := storedMC + [raw];
        storedReco := storedReco + [reco];
      }
    }

    /**
     * Appends every buffered simulated hit to the MC collection, then every
     * reconstructed hit to the hit collection, each in buffer order, and empties both buffers.
     */
    method SaveHits()
      requires Valid()
      modifies this`storedMC, this`storedReco, this`mcOut, this`recoOut
      ensures Valid()
      ensures mcOut == old(mcOut) + old(storedMC) && recoOut == old(recoOut) + old(storedReco)
      ensures storedMC == [] && storedReco == []
    {
      PairedAppend(mcOut, recoOut, storedMC, storedReco, parametrizer, experimentalThreshold);
      var i := 0;
      while i < |storedMC|
        invariant 0 <= i <= |storedMC|
        invariant mcOut == old(mcOut) + storedMC[..i]
        invariant unchanged(`storedMC) && unchanged(`storedReco) && unchanged(`recoOut)
      {
        mcOut := mcOut + [storedMC[i]];
        i := i + 1;
      }
      assert storedMC[..i] == storedMC;
      var j := 0;
      while j < |storedReco|
        invariant 0 <= j <= |storedReco|
        invariant recoOut == old(recoOut) + storedReco[..j]
        invariant unchanged(`storedMC) && unchanged(`storedReco) && mcOut == old(mcOut) + old(storedMC)
      {
        recoOut := recoOut + [storedReco[j]];
        j := j + 1;
      }
      assert storedReco[..j] == storedReco;
      storedMC := [];
      storedReco := [];
    }

    /** End of processing: nothing is flushed, so the hits of the last window stay in the buffers. */
    method Terminate() returns (ok: bool)
      ensures ok
    {
      ok := true;
    }
  }
}
